/**
 The generated client's way through the ETag cache: one half before its request goes out, one
 once it is answered. Between the two the cache is anyone's; CacheProtocol interleaves them.
 */
module CachingDoer {
  import opened HttpHeaders
  import opened Wrappers
  import opened CacheStore

  /** A body read to its end, or one whose reading fails. */
  datatype Body = Text(text: string) | Failing

  datatype Response = Response(status: nat, header: Headers, body: Body)

  class Request {
    const verb: string
    const url: string
    const noCache: bool
    var header: Headers

    constructor (verb: string, url: string, noCache: bool, header: Headers)
      ensures this.verb == verb && this.url == url && this.noCache == noCache && this.header == header
    {
      this.verb, this.url, this.noCache, this.header := verb, url, noCache, header;
    }

    /** Whether the request is a JSON read that has credentials to be keyed by. */
    predicate Cacheable()
      reads this
    {
      verb == "GET" && First(header, "Authorization") != "" && First(header, "Accept") == "application/json" && !noCache
    }
  }

  function Decimal(n: nat): string {
    if n < 10 then [('0' as int + n) as char] else Decimal(n / 10) + [('0' as int + n % 10) as char]
  }

  /** How the cache answers: the parsers choose a shape by status and type, and a 304 has neither. */
  function Served(header: Headers, body: string): Response {
    Response(200, header["Content-Type" := ["application/json"]]["Content-Length" := [Decimal(|body|)]], Text(body))
  }

  /** Whether a page's field may be stored and is not one the cache writes itself. */
  predicate Lasts(header: Headers, name: string, listed: string -> seq<string>) {
    name !in UNSTORED + ListedIn(Values(header, "Connection"), listed) + {"Content-Type", "Content-Length"}
  }

  class Doer {
    const cache: Cache
    const bound: nat
    const key: (string, string) -> string
    const listed: string -> seq<string>

    constructor (cache: Cache, bound: nat, key: (string, string) -> string, listed: string -> seq<string>)
      ensures this.cache == cache && this.bound == bound && this.key == key && this.listed == listed
    {
      this.cache, this.bound, this.key, this.listed := cache, bound, key, listed;
    }

    /** Makes a read conditional on the entry held for it, if that is one it may serve. */
    method Prepare(req: Request) returns (asked: Option<string>, held: Option<Entry>)
      modifies req
      ensures asked == if old(req.Cacheable()) then Some(key(req.url, First(old(req.header), "Authorization"))) else None
      ensures asked.Some? <==>
                && req.verb == "GET" && !req.noCache
                && First(old(req.header), "Authorization") != "" && First(old(req.header), "Accept") == "application/json"
      ensures held ==
              var found := if asked.Some? then Looked(cache.OnDisk(), asked.value) else None;
              if found.Some? && |found.value.body| <= bound then found else None
      ensures req.header ==
              if held.Some? then old(req.header)["If-None-Match" := [held.value.etag]] else old(req.header)
    {
      var authorization := First(req.header, "Authorization");
      if req.verb != "GET" || authorization == "" || First(req.header, "Accept") != "application/json" || req.noCache {
        return None, None;
      }
      asked, held := Some(key(req.url, authorization)), None;
      var found := cache.Lookup(asked.value);
      if found.Some? && |found.value.body| <= bound {
        held := found;
        req.header := req.header["If-None-Match" := [found.value.etag]];
      }
    }

    /**
     Settles an answer: from the cache when it confirms the entry asked about, and into the cache
     when it is a page with a validator. An answer a redirect led to is another URL's.
     */
    method Settle(asked: Option<string>, held: Option<Entry>, followed: bool, resp: Response) returns (answer: Response)
      modifies cache
      ensures asked.None? || followed || resp.status !in {200, 304} ==>
                answer == resp && cache.OnDisk() == old(cache.OnDisk())
      ensures asked.Some? && !followed && resp.status == 304 && held.Some? ==>
                var header := Merged(held.value.header, resp.header);
                && answer == Served(header, held.value.body)
                && cache.OnDisk() == Revalidated(old(cache.OnDisk()), asked.value, held.value.etag,
                                                 RevalidatedETag(held.value.etag, resp.header), Storable(header, listed))
      ensures resp.status == 304 && held.None? ==> answer == resp && cache.OnDisk() == old(cache.OnDisk())
      ensures asked.Some? && !followed && resp.status == 200 ==>
                var etag := First(resp.header, "Etag");
                && answer == resp
                && cache.OnDisk() ==
                   if etag == "" || resp.body.Failing? then old(cache.OnDisk())
                   else if |resp.body.text| <= bound then
                     Stored(old(cache.OnDisk()), asked.value, Entry(etag, resp.body.text, Storable(resp.header, listed)))
                   else Invalidated(old(cache.OnDisk()), asked.value)
    {
      if asked.None? || followed {
        return resp;
      }
      if resp.status == 304 && held.Some? {
        var header := RevalidatedHeaders(held.value.header, resp.header);
        cache.Revalidate(asked.value, held.value.etag, RevalidatedETag(held.value.etag, resp.header), header, listed);
        answer := Served(header, held.value.body);
        return;
      }
      if resp.status == 200 {
        var etag := First(resp.header, "Etag");
        if etag != "" {
          Keep(asked.value, etag, resp);
        }
      }
      return resp;
    }

    /** Stores a page that can be served again, and forgets the entry it replaces when it cannot. */
    method Keep(asked: string, etag: string, resp: Response)
      modifies cache
      ensures cache.OnDisk() ==
              if resp.body.Failing? then old(cache.OnDisk())
              else if |resp.body.text| <= bound then
                Stored(old(cache.OnDisk()), asked, Entry(etag, resp.body.text, Storable(resp.header, listed)))
              else Invalidated(old(cache.OnDisk()), asked)
    {
      if resp.body.Failing? {
        return;
      }
      if |resp.body.text| <= bound {
        cache.SetResponse(asked, resp.body.text, etag, resp.header, listed);
      } else {
        cache.Invalidate(asked);
      }
    }

    /**
     A page read three times with nothing written between, if it could be stored: the second read
     asks about the first's validator, a 304 answers the page it had, with every field that may be
     stored and the 304 does not renew, and the third asks about the validator the 304 named.
     */
    method ReadAgain(first: Request, second: Request, third: Request, page: Response, notModified: Headers)
      returns (again: Response)
      requires first != second && first != third && second != third
      requires first.Cacheable() && second.Cacheable() && third.Cacheable() && first.url == second.url == third.url
      requires First(first.header, "Authorization") == First(second.header, "Authorization")
      requires First(first.header, "Authorization") == First(third.header, "Authorization")
      requires page.status == 200 && First(page.header, "Etag") != "" && page.body.Text? && |page.body.text| <= bound
      modifies first, second, third, cache
      ensures First(second.header, "If-None-Match") == First(page.header, "Etag")
      ensures again.status == 200 && again.body == page.body
      ensures forall name :: Lasts(page.header, name, listed) && name !in notModified ==>
                Values(again.header, name) == Values(page.header, name)
      ensures First(third.header, "If-None-Match") ==
              if First(notModified, "Etag") != "" then First(notModified, "Etag") else First(page.header, "Etag")
    {
      var asked, held := Prepare(first);
      var answer := Settle(asked, held, false, page);
      ghost var entry := Entry(First(page.header, "Etag"), page.body.text, Storable(page.header, listed));
      StoredIsFound(old(cache.OnDisk()), asked.value, entry, asked.value);
      asked, held := Prepare(second);
      assert held == Some(entry);
      ghost var disk := cache.OnDisk();
      again := Settle(asked, held, false, Response(304, notModified, Text("")));
      PageComesBack(page, notModified, listed);
      RevalidatedIsFound(disk, asked.value, entry.etag, RevalidatedETag(entry.etag, notModified),
                         Storable(Merged(entry.header, notModified), listed), asked.value);
      asked, held := Prepare(third);
    }
  }

  /** A 304 to a page that was stored answers that page, but for the fields it renews. */
  lemma PageComesBack(page: Response, notModified: Headers, listed: string -> seq<string>)
    requires page.body.Text?
    ensures
      var again := Served(Merged(Storable(page.header, listed), notModified), page.body.text);
      && again.status == 200 && again.body == page.body
      && Values(again.header, "Content-Type") == ["application/json"]
      && Values(again.header, "Content-Length") == [Decimal(|page.body.text|)]
      && forall name :: Lasts(page.header, name, listed) && name !in notModified ==>
           Values(again.header, name) == Values(page.header, name)
  {
  }

  /** The number a string of digits stands for. */
  function NumberOf(digits: string): nat
    requires forall i :: 0 <= i < |digits| ==> '0' <= digits[i] <= '9'
  {
    if digits == "" then 0
    else 10 * NumberOf(digits[..|digits| - 1]) + (digits[|digits| - 1] as nat - '0' as nat)
  }

  /** A length is written in digits that stand for it. */
  lemma {:induction false} DecimalIsRead(n: nat)
    ensures forall i :: 0 <= i < |Decimal(n)| ==> '0' <= Decimal(n)[i] <= '9'
    ensures NumberOf(Decimal(n)) == n
    ensures n > 0 ==> Decimal(n)[0] != '0'
  {
    var digits := Decimal(n);
    if n < 10 {
      assert digits[..|digits| - 1] == "";
    } else {
      DecimalIsRead(n / 10);
      assert digits[..|digits| - 1] == Decimal(n / 10);
    }
  }
}
