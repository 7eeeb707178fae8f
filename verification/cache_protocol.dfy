/**
 Any number of reads of one cache, interleaved with each other and with whatever else writes it.

 A read looks its key up, goes out conditional on the entry it found, and keeps what the answer
 says. A page is a body and the fields that go with it end to end, Link and X-Total-Count for
 two. The server is trusted with three things: a validator names one page, a 304 confirms the
 page it was asked about under whatever validator it names, and a page lists none of its fields
 as the connection's.
 */
module CacheProtocol {
  import opened HttpHeaders
  import opened Wrappers
  import opened CacheStore

  /** What one validator of a key names: a body, and the values of the fields it comes with. */
  datatype Page = Page(body: string, fields: Headers)

  /** The pages of a server, by key and validator, and the fields that belong to them. */
  datatype Site = Site(page: (string, string) -> Page, carried: set<string>)

  /** None of a page's fields is one that is never stored. */
  predicate EndToEnd(site: Site) {
    site.carried !! UNSTORED
  }

  type Lists = string -> seq<string>

  datatype Reader =
    | Starting(key: string)
    | Sent(key: string, found: Option<Entry>)
    | Confirmed(key: string, held: Entry, etag: string, header: Headers)
    | Rewriting(key: string, held: Entry, body: string, etag: string, header: Headers)
    | Fetched(key: string, etag: string, body: string, header: Headers)
    | Answered(key: string, conditional: Option<string>, body: string, header: Headers)

  datatype State = State(disk: Disk, readers: seq<Reader>)

  datatype Action =
    | Arrive(key: string)
    | Look(reader: nat, serves: bool)  // whether a body that is found may be served
    | NotModified(reader: nat, header: Headers)
    | Fresh(reader: nat, etag: string, body: string, header: Headers)
    | KeepInOneStep(reader: nat)      // Go's cache, and both of Rust's own
    | GetToKeep(reader: nat)          // the first half of Rust's default
    | SetToKeep(reader: nat)          // its second half
    | Store(reader: nat, fits: bool)
    | Invalidate(key: string)
    | Clear

  /** The page a body and its headers make. */
  function PageOf(site: Site, body: string, header: Headers): Page {
    Page(body, ValuesOf(header, site.carried))
  }

  predicate KeepsFields(site: Site, header: Headers, listed: Lists) {
    site.carried !! ListedIn(Values(header, "Connection"), listed)
  }

  /** Whether a 304 to a read conditional on `held` is one the server is trusted to send. */
  predicate Confirms(site: Site, listed: Lists, key: string, held: Entry, header: Headers) {
    var page := site.page(key, held.etag);
    && site.page(key, RevalidatedETag(held.etag, header)) == page
    && (forall name :: name in site.carried && name in header ==> name in page.fields && header[name] == page.fields[name])
    && KeepsFields(site, Merged(held.header, header), listed)
  }

  /** Whether a 200 is the page its validator names; one without a validator may be anything. */
  predicate Serves(site: Site, listed: Lists, key: string, etag: string, body: string, header: Headers) {
    etag != "" ==> PageOf(site, body, header) == site.page(key, etag) && KeepsFields(site, header, listed)
  }

  predicate Enabled(site: Site, listed: Lists, s: State, a: Action) {
    match a
    case Arrive(_) => true
    case Look(r, _) => r < |s.readers| && s.readers[r].Starting?
    case NotModified(r, header) =>
      && r < |s.readers| && s.readers[r].Sent? && s.readers[r].found.Some?
      && Confirms(site, listed, s.readers[r].key, s.readers[r].found.value, header)
    case Fresh(r, etag, body, header) =>
      && r < |s.readers| && s.readers[r].Sent?
      && Serves(site, listed, s.readers[r].key, etag, body, header)
    case KeepInOneStep(r) => r < |s.readers| && s.readers[r].Confirmed?
    case GetToKeep(r) => r < |s.readers| && s.readers[r].Confirmed?
    case SetToKeep(r) => r < |s.readers| && s.readers[r].Rewriting?
    case Store(r, _) => r < |s.readers| && s.readers[r].Fetched?
    case Invalidate(_) => true
    case Clear => true
  }

  /** What a read conditional on an entry answers its 304 with. */
  function AnsweredFrom(key: string, held: Entry, header: Headers): Reader {
    Answered(key, Some(held.etag), held.body, header)
  }

  function Apply(site: Site, listed: Lists, s: State, a: Action): State
    requires Enabled(site, listed, s, a)
  {
    match a
    case Arrive(key) => s.(readers := s.readers + [Starting(key)])
    case Look(r, serves) =>
      var key := s.readers[r].key;
      s.(readers := s.readers[r := Sent(key, if serves then Looked(s.disk, key) else None)])
    case NotModified(r, header) =>
      var key, held := s.readers[r].key, s.readers[r].found.value;
      s.(readers := s.readers[r :=
           Confirmed(key, held, RevalidatedETag(held.etag, header), Merged(held.header, header))])
    case Fresh(r, etag, body, header) =>
      var key := s.readers[r].key;
      s.(readers := s.readers[r :=
           if etag != "" then Fetched(key, etag, body, header) else Answered(key, None, body, header)])
    case KeepInOneStep(r) =>
      var Confirmed(key, held, etag, header) := s.readers[r];
      State(Revalidated(s.disk, key, held.etag, etag, Storable(header, listed)),
            s.readers[r := AnsweredFrom(key, held, header)])
    case GetToKeep(r) =>
      var Confirmed(key, held, etag, header) := s.readers[r];
      var now := Looked(s.disk, key);
      s.(readers := s.readers[r :=
           if now.Some? && now.value.etag == held.etag
           then Rewriting(key, held, now.value.body, etag, header)
           else AnsweredFrom(key, held, header)])
    case SetToKeep(r) =>
      var Rewriting(key, held, body, etag, header) := s.readers[r];
      State(Stored(s.disk, key, Entry(etag, body, Storable(header, listed))),
            s.readers[r := AnsweredFrom(key, held, header)])
    case Store(r, fits) =>
      var Fetched(key, etag, body, header) := s.readers[r];
      State(if fits then Stored(s.disk, key, Entry(etag, body, Storable(header, listed)))
            else Invalidated(s.disk, key),
            s.readers[r := Answered(key, None, body, header)])
    case Invalidate(key) => s.(disk := Invalidated(s.disk, key))
    case Clear => s.(disk := Empty)
  }

  // ---- the invariant ----

  /** An entry is of one version: its validator names its body and its fields. */
  predicate Whole(site: Site, key: string, etag: string, body: string, header: Headers) {
    etag != "" && PageOf(site, body, header) == site.page(key, etag)
  }

  predicate Coherent(site: Site, disk: Disk) {
    && disk.etags.Keys == disk.bodies.Keys == disk.headers.Keys
    && forall key :: key in disk.etags ==> Whole(site, key, disk.etags[key], disk.bodies[key], disk.headers[key])
  }

  predicate ReaderInv(site: Site, listed: Lists, reader: Reader) {
    match reader
    case Starting(_) => true
    case Sent(key, found) =>
      found.Some? ==> Whole(site, key, found.value.etag, found.value.body, found.value.header)
    case Confirmed(key, held, etag, header) =>
      && Whole(site, key, held.etag, held.body, held.header)
      && Whole(site, key, etag, held.body, header)
      && site.page(key, etag) == site.page(key, held.etag)
      && KeepsFields(site, header, listed)
    case Rewriting(key, held, body, etag, header) =>
      && Whole(site, key, held.etag, held.body, held.header)
      && Whole(site, key, etag, held.body, header)
      && site.page(key, etag) == site.page(key, held.etag)
      && body == held.body
      && KeepsFields(site, header, listed)
    case Fetched(key, etag, body, header) =>
      Whole(site, key, etag, body, header) && KeepsFields(site, header, listed)
    case Answered(key, conditional, body, header) =>
      conditional.Some? ==> PageOf(site, body, header) == site.page(key, conditional.value)
  }

  predicate Inv(site: Site, listed: Lists, s: State) {
    Coherent(site, s.disk) && forall r :: 0 <= r < |s.readers| ==> ReaderInv(site, listed, s.readers[r])
  }

  /** Storing headers keeps a page's fields, unless the page lists one as the connection's own. */
  lemma StorableKeepsFields(site: Site, header: Headers, listed: Lists)
    requires EndToEnd(site) && KeepsFields(site, header, listed)
    ensures ValuesOf(Storable(header, listed), site.carried) == ValuesOf(header, site.carried)
  {
    var stored := Storable(header, listed);
    forall name | name in site.carried ensures Values(stored, name) == Values(header, name) {
    }
  }

  /** A 304 the server is trusted to send leaves a page's fields as they were. */
  lemma MergedKeepsFields(site: Site, listed: Lists, key: string, held: Entry, header: Headers)
    requires Whole(site, key, held.etag, held.body, held.header) && Confirms(site, listed, key, held, header)
    ensures ValuesOf(Merged(held.header, header), site.carried) == ValuesOf(held.header, site.carried)
  {
    var merged := Merged(held.header, header);
    forall name | name in site.carried ensures Values(merged, name) == Values(held.header, name) {
      assert name in ValuesOf(held.header, site.carried);
    }
  }

  /** The actions that only move a read on. */
  lemma ReadingKeeps(site: Site, listed: Lists, s: State, a: Action)
    requires Inv(site, listed, s) && Enabled(site, listed, s, a)
    requires a.Arrive? || a.Look? || a.NotModified? || a.Fresh? || a.GetToKeep?
    ensures Inv(site, listed, Apply(site, listed, s, a))
  {
    if a.NotModified? {
      var reader := s.readers[a.reader];
      MergedKeepsFields(site, listed, reader.key, reader.found.value, a.header);
    }
  }

  /** A fetched body, or one read again to be rewritten, is stored with its own validator. */
  lemma StoringKeeps(site: Site, listed: Lists, s: State, a: Action)
    requires EndToEnd(site) && Inv(site, listed, s) && Enabled(site, listed, s, a)
    requires a.SetToKeep? || a.Store?
    ensures Inv(site, listed, Apply(site, listed, s, a))
  {
    StorableKeepsFields(site, s.readers[a.reader].header, listed);
  }

  /** What a 304 confirmed is written over the body it confirmed, or not at all. */
  lemma KeepingKeeps(site: Site, listed: Lists, s: State, a: Action)
    requires EndToEnd(site) && Inv(site, listed, s) && Enabled(site, listed, s, a) && a.KeepInOneStep?
    ensures Inv(site, listed, Apply(site, listed, s, a))
  {
    StorableKeepsFields(site, s.readers[a.reader].header, listed);
  }

  lemma RemovingKeeps(site: Site, listed: Lists, s: State, a: Action)
    requires Inv(site, listed, s) && Enabled(site, listed, s, a)
    requires a.Invalidate? || a.Clear?
    ensures Inv(site, listed, Apply(site, listed, s, a))
  {
  }

  lemma ApplyKeeps(site: Site, listed: Lists, s: State, a: Action)
    requires EndToEnd(site) && Inv(site, listed, s) && Enabled(site, listed, s, a)
    ensures Inv(site, listed, Apply(site, listed, s, a))
  {
    if a.Arrive? || a.Look? || a.NotModified? || a.Fresh? || a.GetToKeep? {
      ReadingKeeps(site, listed, s, a);
    } else if a.KeepInOneStep? {
      KeepingKeeps(site, listed, s, a);
    } else if a.SetToKeep? || a.Store? {
      StoringKeeps(site, listed, s, a);
    } else {
      RemovingKeeps(site, listed, s, a);
    }
  }

  predicate Possible(site: Site, listed: Lists, s: State, actions: seq<Action>)
    decreases |actions|
  {
    |actions| > 0 ==>
      Enabled(site, listed, s, actions[0]) && Possible(site, listed, Apply(site, listed, s, actions[0]), actions[1..])
  }

  function After(site: Site, listed: Lists, s: State, actions: seq<Action>): State
    requires Possible(site, listed, s, actions)
    decreases |actions|
  {
    if |actions| == 0 then s else After(site, listed, Apply(site, listed, s, actions[0]), actions[1..])
  }

  lemma {:induction false} AfterKeeps(site: Site, listed: Lists, s: State, actions: seq<Action>)
    requires EndToEnd(site) && Inv(site, listed, s) && Possible(site, listed, s, actions)
    ensures Inv(site, listed, After(site, listed, s, actions))
    decreases |actions|
  {
    if |actions| > 0 {
      ApplyKeeps(site, listed, s, actions[0]);
      AfterKeeps(site, listed, Apply(site, listed, s, actions[0]), actions[1..]);
    }
  }

  /** However the reads interleave, what is on disk under a key is always of one version. */
  lemma EntriesStayWhole(site: Site, listed: Lists, actions: seq<Action>, key: string)
    requires EndToEnd(site) && Possible(site, listed, State(Empty, []), actions)
    ensures
      var entry := Looked(After(site, listed, State(Empty, []), actions).disk, key);
      entry.Some? ==> PageOf(site, entry.value.body, entry.value.header) == site.page(key, entry.value.etag)
  {
    AfterKeeps(site, listed, State(Empty, []), actions);
  }

  /** Every read answered from its 304 answers the page its If-None-Match named. */
  lemma ConditionalReadsAnswerTheirPage(site: Site, listed: Lists, actions: seq<Action>, r: nat)
    requires EndToEnd(site) && Possible(site, listed, State(Empty, []), actions)
    requires r < |After(site, listed, State(Empty, []), actions).readers|
    ensures
      var reader := After(site, listed, State(Empty, []), actions).readers[r];
      reader.Answered? && reader.conditional.Some? ==>
        PageOf(site, reader.body, reader.header) == site.page(reader.key, reader.conditional.value)
  {
    AfterKeeps(site, listed, State(Empty, []), actions);
  }

  /**
   What a read learns is kept: a 304 of the entry still there renews its validator and headers, a
   page that fits is there whole, and one that does not leaves nothing behind; what is removed is gone.
   */
  lemma AnswersAreKept(site: Site, listed: Lists, s: State, a: Action)
    requires EndToEnd(site) && Inv(site, listed, s) && Enabled(site, listed, s, a)
    ensures a.Look? && a.serves ==>
              var key := s.readers[a.reader].key;
              Apply(site, listed, s, a).readers[a.reader] == Sent(key, Looked(s.disk, key))
    ensures a.NotModified? ==>
              var r, now := s.readers[a.reader], Apply(site, listed, s, a).readers[a.reader];
              && now.Confirmed? && now.key == r.key && now.held == r.found.value
              && now.etag == (if First(a.header, "Etag") != "" then First(a.header, "Etag") else r.found.value.etag)
    ensures a.Fresh? && a.etag != "" ==>
              Apply(site, listed, s, a).readers[a.reader] == Fetched(s.readers[a.reader].key, a.etag, a.body, a.header)
    ensures a.GetToKeep? ==>
              var r, held := s.readers[a.reader], Looked(s.disk, s.readers[a.reader].key);
              held.Some? && held.value.etag == r.held.etag ==>
                Apply(site, listed, s, a).readers[a.reader] == Rewriting(r.key, r.held, r.held.body, r.etag, r.header)
    ensures a.KeepInOneStep? ==>
              var r, held := s.readers[a.reader], Looked(s.disk, s.readers[a.reader].key);
              held.Some? && held.value.etag == r.held.etag ==>
                Looked(Apply(site, listed, s, a).disk, r.key) ==
                Some(Entry(r.etag, r.held.body, Storable(r.header, listed)))
    ensures a.SetToKeep? ==>
              var r := s.readers[a.reader];
              Looked(Apply(site, listed, s, a).disk, r.key) == Some(Entry(r.etag, r.held.body, Storable(r.header, listed)))
    ensures a.Store? ==>
              var r := s.readers[a.reader];
              Looked(Apply(site, listed, s, a).disk, r.key) ==
              if a.fits then Some(Entry(r.etag, r.body, Storable(r.header, listed))) else None
    ensures a.Invalidate? ==> Looked(Apply(site, listed, s, a).disk, a.key) == None
    ensures a.Clear? ==> forall key :: Looked(Apply(site, listed, s, a).disk, key) == None
  {
    if a.KeepInOneStep? {
      var r := s.readers[a.reader];
      RevalidatedIsFound(s.disk, r.key, r.held.etag, r.etag, Storable(r.header, listed), r.key);
    } else if a.SetToKeep? {
      var r := s.readers[a.reader];
      StoredIsFound(s.disk, r.key, Entry(r.etag, r.held.body, Storable(r.header, listed)), r.key);
    } else if a.Store? {
      var r := s.readers[a.reader];
      StoredIsFound(s.disk, r.key, Entry(r.etag, r.body, Storable(r.header, listed)), r.key);
      InvalidatedIsGone(s.disk, r.key, r.key);
    }
  }
}
