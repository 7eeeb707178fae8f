/** Header fields by canonical name, each with its values in order. */
module HttpHeaders {
  type Headers = map<string, seq<string>>

  function Values(header: Headers, name: string): seq<string> {
    if name in header then header[name] else []
  }

  /** The first value of a field, or none. */
  function First(header: Headers, name: string): string {
    if Values(header, name) == [] then "" else Values(header, name)[0]
  }

  /** The values of each of some fields; a field that is absent has none. */
  function ValuesOf(header: Headers, names: set<string>): Headers {
    map name | name in names :: Values(header, name)
  }

  function Names(names: seq<string>): set<string> {
    set name | name in names
  }

  /** Deletes every header named. */
  method DeleteEach(headers: Headers, names: seq<string>) returns (kept: Headers)
    ensures kept == headers - Names(names)
  {
    kept := headers;
    for i := 0 to |names|
      invariant kept == headers - Names(names[..i])
    {
      kept := kept - {names[i]};
    }
    assert names[..|names|] == names;
  }
}
