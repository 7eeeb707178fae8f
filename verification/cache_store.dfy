/**
 The ETag cache: three maps that stand for the files of its directory, what is written to them,
 and the headers an entry keeps.

 Header names are canonical; `listed` gives the names one value of a Connection header lists.
 */
module CacheStore {
  import opened HttpHeaders
  import opened Wrappers

  /** What a lookup hands back: the whole of one entry. */
  datatype Entry = Entry(etag: string, body: string, header: Headers)

  /** The files of the directory, by key. */
  datatype Disk = Disk(etags: map<string, string>, bodies: map<string, string>, headers: map<string, Headers>)

  const Empty := Disk(map[], map[], map[])

  const UNSTORED: set<string> := {
    "Authorization", "Proxy-Authorization", "Cookie", "Set-Cookie", "X-Csrf-Token",
    "Connection", "Keep-Alive", "Proxy-Connection", "Te", "Transfer-Encoding", "Upgrade",
    "Proxy-Authenticate", "Proxy-Authentication-Info"
  }

  /** The names the Connection header lists. */
  function ListedIn(values: seq<string>, listed: string -> seq<string>): set<string> {
    set i, name | 0 <= i < |values| && name in listed(values[i]) :: name
  }

  /** The fields that have any value. */
  function Present(header: Headers): Headers {
    map name | name in header && header[name] != [] :: header[name]
  }

  /** What of a response's headers an entry keeps. */
  function Storable(header: Headers, listed: string -> seq<string>): Headers {
    Present(header) - ListedIn(Values(header, "Connection"), listed) - UNSTORED
  }

  /** The headers stored with a body, updated by a 304's. */
  function Merged(stored: Headers, notModified: Headers): Headers {
    stored + (notModified - {"Content-Length"})
  }

  /**
   What an entry keeps, field by field: no credential, nothing of the connection's, and every
   other field that has a value, with all its values.
   */
  lemma StorableExactly(header: Headers, listed: string -> seq<string>, name: string)
    ensures name in Storable(header, listed) <==>
            && name in header && header[name] != []
            && name !in {"Authorization", "Proxy-Authorization", "Cookie", "Set-Cookie", "X-Csrf-Token",
                         "Connection", "Keep-Alive", "Proxy-Connection", "Te", "Transfer-Encoding", "Upgrade",
                         "Proxy-Authenticate", "Proxy-Authentication-Info"}
            && forall i :: 0 <= i < |Values(header, "Connection")| ==> name !in listed(Values(header, "Connection")[i])
    ensures name in Storable(header, listed) ==> Storable(header, listed)[name] == header[name]
  {
  }

  /** Stored headers are stored as they are: nothing in them is unstorable or lists a field. */
  lemma StorableIsFinal(header: Headers, listed: string -> seq<string>)
    ensures Storable(Storable(header, listed), listed) == Storable(header, listed)
    ensures Storable(header, listed).Keys !! UNSTORED
  {
    assert "Connection" in UNSTORED;
    assert ListedIn(Values(Storable(header, listed), "Connection"), listed) == {};
  }

  /** Adds every value of every field to a header that starts out with none. */
  method Rebuilt(header: Headers) returns (stored: Headers)
    ensures stored == Present(header)
  {
    stored := map[];
    var names := header.Keys;
    while names != {}
      invariant names <= header.Keys
      invariant stored == Present(header - names)
    {
      var name :| name in names;
      var values := header[name];
      ghost var before := stored;
      for i := 0 to |values|
        invariant stored == if i == 0 then before else before[name := values[..i]]
      {
        stored := stored[name := Values(stored, name) + [values[i]]];
        assert values[..i + 1] == values[..i] + [values[i]];
      }
      assert values[..|values|] == values;
      names := names - {name};
    }
    assert header - names == header;
  }

  lemma ListedOneMore(values: seq<string>, i: nat, listed: string -> seq<string>)
    requires i < |values|
    ensures ListedIn(values[..i + 1], listed) == ListedIn(values[..i], listed) + Names(listed(values[i]))
  {
    assert values[..i + 1] == values[..i] + [values[i]];
  }

  method StorableHeaders(header: Headers, listed: string -> seq<string>) returns (stored: Headers)
    ensures stored == Storable(header, listed)
  {
    stored := Rebuilt(header);
    var values := Values(stored, "Connection");
    for i := 0 to |values|
      invariant stored == Present(header) - ListedIn(values[..i], listed)
    {
      ListedOneMore(values, i, listed);
      stored := DeleteEach(stored, listed(values[i]));
    }
    assert values[..|values|] == values;
    stored := stored - UNSTORED;
  }

  method RevalidatedHeaders(stored: Headers, notModified: Headers) returns (merged: Headers)
    ensures merged == Merged(stored, notModified)
    ensures forall name :: Values(merged, name) ==
              if name in notModified && name != "Content-Length" then notModified[name] else Values(stored, name)
  {
    merged := stored;
    var names := notModified.Keys;
    while names != {}
      invariant names <= notModified.Keys
      invariant merged == stored + (notModified - names - {"Content-Length"})
    {
      var name :| name in names;
      if name != "Content-Length" {
        merged := merged[name := notModified[name]];
      }
      names := names - {name};
    }
  }

  /** The validator an entry keeps after a 304. */
  function RevalidatedETag(validated: string, notModified: Headers): (etag: string)
    ensures "Etag" !in notModified ==> etag == validated
    ensures validated != "" ==> etag != ""
    ensures First(notModified, "Etag") != "" ==> etag == First(notModified, "Etag")
  {
    if First(notModified, "Etag") != "" then First(notModified, "Etag") else validated
  }

  // ---- the operations on the directory ----

  function Looked(disk: Disk, key: string): Option<Entry> {
    if key in disk.etags && disk.etags[key] != "" && key in disk.bodies && key in disk.headers
    then Some(Entry(disk.etags[key], disk.bodies[key], disk.headers[key]))
    else None
  }

  function Stored(disk: Disk, key: string, entry: Entry): Disk {
    Disk(disk.etags[key := entry.etag], disk.bodies[key := entry.body], disk.headers[key := entry.header])
  }

  function Revalidated(disk: Disk, key: string, validated: string, etag: string, header: Headers): Disk {
    if (if key in disk.etags then disk.etags[key] else "") != validated then disk
    else disk.(headers := disk.headers[key := header],
               etags := if etag == validated then disk.etags else disk.etags[key := etag])
  }

  function Invalidated(disk: Disk, key: string): Disk {
    Disk(disk.etags - {key}, disk.bodies - {key}, disk.headers - {key})
  }

  /** What is stored is found, whole, and nothing else changes. */
  lemma StoredIsFound(disk: Disk, key: string, entry: Entry, other: string)
    ensures Looked(Stored(disk, key, entry), key) == if entry.etag != "" then Some(entry) else None
    ensures other != key ==> Looked(Stored(disk, key, entry), other) == Looked(disk, other)
  {
  }

  /**
   What a 304 says of an entry is kept while the entry is the one revalidated, over the body that
   is there; an entry of another validator stays as it was, and so do other keys.
   */
  lemma RevalidatedIsFound(disk: Disk, key: string, validated: string, etag: string, header: Headers, other: string)
    ensures Looked(disk, key).Some? && disk.etags[key] == validated && etag != "" ==>
              Looked(Revalidated(disk, key, validated, etag, header), key) == Some(Entry(etag, disk.bodies[key], header))
    ensures Looked(disk, key).Some? && disk.etags[key] != validated ==>
              Revalidated(disk, key, validated, etag, header) == disk
    ensures Revalidated(disk, key, validated, etag, header).bodies == disk.bodies
    ensures other != key ==> Looked(Revalidated(disk, key, validated, etag, header), other) == Looked(disk, other)
  {
  }

  /** What is invalidated is not found, and nothing else changes. */
  lemma InvalidatedIsGone(disk: Disk, key: string, other: string)
    ensures Looked(Invalidated(disk, key), key) == None
    ensures other != key ==> Looked(Invalidated(disk, key), other) == Looked(disk, other)
  {
  }

  class Cache {
    var etags: map<string, string>
    var bodies: map<string, string>
    var headers: map<string, Headers>

    function OnDisk(): Disk
      reads this
    {
      Disk(etags, bodies, headers)
    }

    constructor ()
      ensures OnDisk() == Empty
    {
      etags, bodies, headers := map[], map[], map[];
    }

    method Lookup(key: string) returns (entry: Option<Entry>)
      ensures entry == Looked(OnDisk(), key)
      ensures entry.Some? <==> key in etags && etags[key] != "" && key in bodies && key in headers
      ensures entry.Some? ==> entry.value == Entry(etags[key], bodies[key], headers[key])
    {
      if key !in etags || etags[key] == "" {
        return None;
      }
      if key !in bodies {
        return None;
      }
      if key !in headers {
        return None;
      }
      return Some(Entry(etags[key], bodies[key], headers[key]));
    }

    method SetResponse(key: string, body: string, etag: string, header: Headers, listed: string -> seq<string>)
      modifies this
      ensures OnDisk() == Stored(old(OnDisk()), key, Entry(etag, body, Storable(header, listed)))
      ensures etags == old(etags)[key := etag] && bodies == old(bodies)[key := body]
      ensures headers == old(headers)[key := Storable(header, listed)]
    {
      bodies := bodies[key := body];
      var kept := StorableHeaders(header, listed);
      headers := headers[key := kept];
      etags := etags[key := etag];
    }

    method Revalidate(key: string, validated: string, etag: string, header: Headers, listed: string -> seq<string>)
      modifies this
      ensures OnDisk() == Revalidated(old(OnDisk()), key, validated, etag, Storable(header, listed))
      ensures bodies == old(bodies)
      ensures key in old(etags) && old(etags)[key] == validated ==>
                etags == old(etags)[key := etag] && headers == old(headers)[key := Storable(header, listed)]
      ensures (if key in old(etags) then old(etags)[key] else "") != validated ==>
                etags == old(etags) && headers == old(headers)
    {
      var held := if key in etags then etags[key] else "";
      if held != validated {
        return;
      }
      var kept := StorableHeaders(header, listed);
      headers := headers[key := kept];
      if etag == validated {
        return;
      }
      etags := etags[key := etag];
    }

    method Invalidate(key: string)
      modifies this
      ensures OnDisk() == Invalidated(old(OnDisk()), key)
      ensures etags == old(etags) - {key} && bodies == old(bodies) - {key} && headers == old(headers) - {key}
    {
      bodies := bodies - {key};
      headers := headers - {key};
      etags := etags - {key};
    }

    method Clear()
      modifies this
      ensures OnDisk() == Empty
      ensures etags == map[] && bodies == map[] && headers == map[]
    {
      bodies, headers := map[], map[];
      etags := map[];
    }
  }
}
