/**
 The two loops that read pages after a Link header: one that starts from a path, and one that
 goes on from a response already read. What each page answers is arbitrary, and so is how a
 reference resolves against a page's URL.
 */
module Pagination {
  import opened Wrappers

  /** What two URLs are compared by: the scheme and the host, folded, default ports dropped. */
  datatype Origin = Origin(scheme: string, host: string)

  datatype Response<T> = Response(items: seq<T>, next: string)

  datatype Error = Unread | NoRequest | Unresolved | OffOrigin

  datatype Site<!T> = Site(
    origin: string -> Option<Origin>,              // none where the URL does not parse
    resolve: (string, string) -> string,
    fetch: (nat, string) -> Option<Response<T>>)   // by page and URL; none where it fails or is no list
  {
    predicate IsAbsolute(url: string) {
      origin(url).Some? && origin(url).value.scheme != ""
    }

    predicate SameOrigin(a: string, b: string) {
      && origin(a).Some? && origin(b).Some?
      && origin(a).value.scheme != "" && origin(b).value.scheme != ""
      && origin(a).value == origin(b).value
    }
  }

  // ---- what there is to read ----

  /** The pages there are to read in order, and what ends them before they run out, if anything does. */
  datatype Trail<T> = Trail(pages: seq<seq<T>>, failure: Option<Error>)

  /** The pages from one at a URL on. */
  ghost function From<T>(site: Site<T>, base: string, page: nat, url: string, maxPages: int): Trail<T>
    decreases maxPages - page, 1
  {
    if page > maxPages then Trail([], None)
    else match site.fetch(page, url)
      case None => Trail([], Some(Unread))
      case Some(response) =>
        var rest := Behind(site, base, page, url, response.next, maxPages);
        Trail([response.items] + rest.pages, rest.failure)
  }

  /** The pages behind one, that says where the next is. */
  ghost function Behind<T>(site: Site<T>, base: string, page: nat, url: string, next: string, maxPages: int): Trail<T>
    decreases maxPages - page, 0
  {
    if next == "" then Trail([], None)
    else if !site.SameOrigin(base, site.resolve(url, next)) then Trail([], Some(OffOrigin))
    else if page >= maxPages then Trail([], None)
    else From(site, base, page + 1, site.resolve(url, next), maxPages)
  }

  ghost function Items<T>(pages: seq<seq<T>>): seq<T> {
    if |pages| == 0 then [] else pages[0] + Items(pages[1..])
  }

  /** As much as a limit leaves of a trail: whatever lies behind the limit does not matter. */
  ghost function Limited<T>(trail: Trail<T>, limit: int): Result<seq<T>, Error> {
    if 0 < limit <= |Items(trail.pages)| then Ok(Items(trail.pages)[..limit])
    else if trail.failure.Some? then Err(trail.failure.value)
    else Ok(Items(trail.pages))
  }

  /** Whether a link leads on: it names a page, at the origin the read began at. */
  predicate LeadsOn<T>(site: Site<T>, base: string, url: string, next: string) {
    var to := site.origin(site.resolve(url, next));
    && next != "" && to.Some? && to == site.origin(base) && to.value.scheme != ""
  }

  /** Whether each URL answered, page after page, with the items of its page. */
  ghost predicate PagesRead<T>(site: Site<T>, page: nat, urls: seq<string>, pages: seq<seq<T>>)
    requires |pages| <= |urls|
  {
    forall k :: 0 <= k < |pages| ==>
      site.fetch(page + k, urls[k]).Some? && site.fetch(page + k, urls[k]).value.items == pages[k]
  }

  /** Whether a page was answered and led to a URL. */
  predicate LeadsTo<T>(site: Site<T>, base: string, page: nat, url: string, to: string) {
    var response := site.fetch(page, url);
    response.Some? && LeadsOn(site, base, url, response.value.next) && to == site.resolve(url, response.value.next)
  }

  /** Whether each URL but the first is where the page before it led. */
  predicate LinksFollowed<T>(site: Site<T>, base: string, page: nat, urls: seq<string>) {
    forall k :: 0 <= k < |urls| - 1 ==> LeadsTo(site, base, page + k, urls[k], urls[k + 1])
  }

  /** Whether the last page, or the lack of one, says why a read ended. */
  predicate Ends<T>(site: Site<T>, base: string, page: nat, urls: seq<string>, n: nat, failure: Option<Error>, maxPages: int)
    requires |urls| == n + (if failure == Some(Unread) then 1 else 0)
  {
    match failure
    case Some(Unread) => site.fetch(page + n, urls[n]).None?
    case Some(OffOrigin) =>
      && n > 0 && site.fetch(page + n - 1, urls[n - 1]).Some?
      && site.fetch(page + n - 1, urls[n - 1]).value.next != ""
      && !LeadsOn(site, base, urls[n - 1], site.fetch(page + n - 1, urls[n - 1]).value.next)
    case Some(_) => false
    case None =>
      || page + n > maxPages
      || (n > 0 && site.fetch(page + n - 1, urls[n - 1]).Some? && site.fetch(page + n - 1, urls[n - 1]).value.next == "")
  }

  /**
   Whether a trail is what reading these URLs, one page after another, gives: each page answered
   with its items and led on to the next, and the last of them says why there are no more.
   */
  ghost predicate IsRead<T>(site: Site<T>, base: string, page: nat, urls: seq<string>, trail: Trail<T>, maxPages: int) {
    && |urls| == |trail.pages| + (if trail.failure == Some(Unread) then 1 else 0)
    && (|urls| > 0 ==> page + |urls| - 1 <= maxPages)
    && PagesRead(site, page, urls, trail.pages) && LinksFollowed(site, base, page, urls)
    && Ends(site, base, page, urls, |trail.pages|, trail.failure, maxPages)
  }

  /** The trail from a page on is what reading from there gives. */
  lemma {:induction false} FromIsRead<T>(site: Site<T>, base: string, page: nat, url: string, maxPages: int)
    returns (urls: seq<string>)
    ensures IsRead(site, base, page, urls, From(site, base, page, url, maxPages), maxPages)
    ensures |urls| > 0 ==> urls[0] == url
    ensures page <= maxPages ==> |urls| > 0
    decreases maxPages - page
  {
    var trail := From(site, base, page, url, maxPages);
    if page > maxPages {
      urls := [];
    } else if site.fetch(page, url).None? {
      urls := [url];
    } else {
      var next := site.fetch(page, url).value.next;
      if LeadsOn(site, base, url, next) && page < maxPages {
        var rest := FromIsRead(site, base, page + 1, site.resolve(url, next), maxPages);
        urls := [url] + rest;
        ReadOneMore(site, base, page, url, rest, From(site, base, page + 1, site.resolve(url, next), maxPages), maxPages);
      } else {
        urls := [url];
      }
    }
  }

  lemma PagesReadOneMore<T>(site: Site<T>, page: nat, url: string, rest: seq<string>, pages: seq<seq<T>>)
    requires |pages| <= |rest| && PagesRead(site, page + 1, rest, pages) && site.fetch(page, url).Some?
    ensures PagesRead(site, page, [url] + rest, [site.fetch(page, url).value.items] + pages)
  {
    var urls, more := [url] + rest, [site.fetch(page, url).value.items] + pages;
    forall k | 0 <= k < |more|
      ensures site.fetch(page + k, urls[k]).Some? && site.fetch(page + k, urls[k]).value.items == more[k]
    {
      if k > 0 {
        assert urls[k] == rest[k - 1] && more[k] == pages[k - 1] && page + k == page + 1 + (k - 1);
      }
    }
  }

  lemma LinksFollowedOneMore<T>(site: Site<T>, base: string, page: nat, url: string, rest: seq<string>)
    requires |rest| > 0 && LeadsTo(site, base, page, url, rest[0]) && LinksFollowed(site, base, page + 1, rest)
    ensures LinksFollowed(site, base, page, [url] + rest)
  {
    var urls := [url] + rest;
    forall k | 0 <= k < |urls| - 1
      ensures LeadsTo(site, base, page + k, urls[k], urls[k + 1])
    {
      if k > 0 {
        assert urls[k] == rest[k - 1] && urls[k + 1] == rest[k] && page + k == page + 1 + (k - 1);
        assert LeadsTo(site, base, page + 1 + (k - 1), rest[k - 1], rest[k - 1 + 1]);
      }
    }
  }

  lemma EndsOneLater<T>(
    site: Site<T>, base: string, page: nat, url: string, rest: seq<string>, n: nat, failure: Option<Error>, maxPages: int)
    requires |rest| == n + (if failure == Some(Unread) then 1 else 0)
    requires Ends(site, base, page + 1, rest, n, failure, maxPages)
    ensures Ends(site, base, page, [url] + rest, n + 1, failure, maxPages)
  {
    var urls := [url] + rest;
    assert n > 0 ==> urls[n] == rest[n - 1];
  }

  lemma ReadOneMore<T>(
    site: Site<T>, base: string, page: nat, url: string, rest: seq<string>, trail: Trail<T>, maxPages: int)
    requires page < maxPages && |rest| > 0 && LeadsTo(site, base, page, url, rest[0])
    requires IsRead(site, base, page + 1, rest, trail, maxPages)
    ensures IsRead(site, base, page, [url] + rest,
                   Trail([site.fetch(page, url).value.items] + trail.pages, trail.failure), maxPages)
  {
    PagesReadOneMore(site, page, url, rest, trail.pages);
    LinksFollowedOneMore(site, base, page, url, rest);
    EndsOneLater(site, base, page, url, rest, |trail.pages|, trail.failure, maxPages);
  }

  /** The items are those of the pages, each page's after those before it. */
  lemma {:induction false} ItemsInOrder<T>(pages: seq<seq<T>>, k: nat)
    requires k < |pages|
    ensures Items(pages) == Items(pages[..k]) + pages[k] + Items(pages[k + 1..])
  {
    if k > 0 {
      ItemsInOrder(pages[1..], k - 1);
      assert pages[1..][..k - 1] == pages[..k][1..];
      assert pages[1..][k..] == pages[k + 1..];
    }
  }

  /** A limited read is the first items of a trail, all of them or the limit's worth; short of it a failure is the answer. */
  lemma LimitedExactly<T>(trail: Trail<T>, limit: int)
    ensures
      var result, items := Limited(trail, limit), Items(trail.pages);
      && (result.Err? <==> trail.failure.Some? && !(0 < limit <= |items|))
      && (result.Ok? ==> result.value <= items)
      && (result.Ok? ==> |result.value| == if 0 < limit <= |items| then limit else |items|)
  {
  }

  /** A page that is read comes before all that is read behind it. */
  lemma PageThenBehind<T>(site: Site<T>, base: string, page: nat, url: string, maxPages: int)
    requires page <= maxPages && site.fetch(page, url).Some?
    ensures
      var response := site.fetch(page, url).value;
      Items(From(site, base, page, url, maxPages).pages)
        == response.items + Items(Behind(site, base, page, url, response.next, maxPages).pages)
  {
    var response := site.fetch(page, url).value;
    assert From(site, base, page, url, maxPages).pages[1..] == Behind(site, base, page, url, response.next, maxPages).pages;
  }

  /** Whether `all` is what a trail has before a page. */
  ghost predicate Reading<T>(site: Site<T>, base: string, trail: Trail<T>, all: seq<T>, page: nat, url: string,
        maxPages: int) {
    var rest := From(site, base, page, url, maxPages);
    trail.failure == rest.failure && Items(trail.pages) == all + Items(rest.pages)
  }

  /** What reading one more page says of the whole trail. */
  lemma ReadingGoesOn<T>(site: Site<T>, base: string, trail: Trail<T>, all: seq<T>, page: nat, url: string,
        maxPages: int)
    requires Reading(site, base, trail, all, page, url, maxPages) && page <= maxPages
    ensures
      match site.fetch(page, url)
      case None => trail.failure == Some(Unread) && Items(trail.pages) == all
      case Some(response) =>
        var now, next := all + response.items, site.resolve(url, response.next);
        && now <= Items(trail.pages)
        && if response.next == "" then trail.failure == None && Items(trail.pages) == now
           else if !site.SameOrigin(base, next) then trail.failure == Some(OffOrigin) && Items(trail.pages) == now
           else Reading(site, base, trail, now, page + 1, next, maxPages)
  {
    if site.fetch(page, url).Some? {
      PageThenBehind(site, base, page, url, maxPages);
    }
  }

  lemma ReadingEnds<T>(site: Site<T>, base: string, trail: Trail<T>, all: seq<T>, page: nat, url: string, maxPages: int)
    requires Reading(site, base, trail, all, page, url, maxPages) && page > maxPages
    ensures trail.failure == None && Items(trail.pages) == all
  {
  }

  lemma LimitIsReached<T>(trail: Trail<T>, all: seq<T>, limit: int)
    requires 0 < limit <= |all| && all <= Items(trail.pages)
    ensures Limited(trail, limit) == Ok(all[..limit])
  {
    assert Items(trail.pages)[..limit] == all[..limit];
  }

  /** Whether every page but the first was asked for at the origin the read began at. */
  predicate AtOrigin<T>(site: Site<T>, base: string, asked: seq<string>) {
    forall k :: 0 <= k < |asked| ==> asked[k] == base || site.SameOrigin(base, asked[k])
  }

  /** Reads the pages from a path on. */
  method GetAllWithLimit<T>(site: Site<T>, base: string, limit: int, maxPages: int)
    returns (result: Result<seq<T>, Error>, asked: seq<string>)
    ensures result == Limited(From(site, base, 1, base, maxPages), limit)
    ensures AtOrigin(site, base, asked) && (maxPages >= 0 ==> |asked| <= maxPages)
  {
    var all: seq<T> := [];
    var url := base;
    var page := 1;
    asked := [];
    ghost var trail := From(site, base, 1, base, maxPages);
    while page <= maxPages
      invariant AtOrigin(site, base, asked) && |asked| == page - 1 && 1 <= page && (maxPages >= 0 ==> page <= maxPages + 1)
      invariant url == base || site.SameOrigin(base, url)
      invariant Reading(site, base, trail, all, page, url, maxPages)
      invariant limit > 0 ==> |all| < limit
    {
      ReadingGoesOn(site, base, trail, all, page, url, maxPages);
      asked := asked + [url];
      var response := site.fetch(page, url);
      if response.None? {
        return Err(Unread), asked;
      }
      all := all + response.value.items;
      if limit > 0 && |all| >= limit {
        LimitIsReached(trail, all, limit);
        all := all[..limit];
        return Ok(all), asked;
      }
      var next := response.value.next;
      if next == "" {
        return Ok(all), asked;
      }
      next := site.resolve(url, next);
      if !site.SameOrigin(next, base) {
        return Err(OffOrigin), asked;
      }
      url := next;
      page := page + 1;
    }
    ReadingEnds(site, base, trail, all, page, url, maxPages);
    return Ok(all), asked;
  }

  /** What a response already read says of itself: the URL that answered, and where the next page is. */
  datatype Answer = Answer(url: Option<string>, next: string)

  /** What following a response reads, the first page having taken its share of the limit. */
  ghost function Followed<T>(site: Site<T>, answer: Option<Answer>, firstPageCount: int, limit: int, maxPages: int)
    : Result<seq<T>, Error>
  {
    if answer.None? || 0 < limit <= firstPageCount || answer.value.next == "" then Ok([])
    else if answer.value.url.None? then Err(NoRequest)
    else
      var url := answer.value.url.value;
      if !site.IsAbsolute(site.resolve(url, answer.value.next)) then Err(Unresolved)
      else Limited(Behind(site, url, 1, url, answer.value.next, maxPages), if limit > 0 then limit - firstPageCount else 0)
  }

  /** Reads the pages behind a response. It is relied on that an empty URL has no scheme. */
  method FollowPagination<T>(site: Site<T>, answer: Option<Answer>, firstPageCount: int, limit: int, maxPages: int)
    returns (result: Result<seq<T>, Error>, asked: seq<string>)
    requires !site.IsAbsolute("")
    ensures result == Followed(site, answer, firstPageCount, limit, maxPages)
    ensures answer.Some? && answer.value.url.Some? ==> AtOrigin(site, answer.value.url.value, asked)
    ensures answer.None? || answer.value.url.None? ==> asked == []
  {
    asked := [];
    if answer.None? {
      return Ok([]), asked;
    }
    if limit > 0 && firstPageCount >= limit {
      return Ok([]), asked;
    }
    var next := answer.value.next;
    if next == "" {
      return Ok([]), asked;
    }
    if answer.value.url.None? {
      return Err(NoRequest), asked;
    }
    var base := answer.value.url.value;
    var url := site.resolve(base, next);
    if !site.IsAbsolute(url) {
      return Err(Unresolved), asked;
    }
    if !site.SameOrigin(base, url) {
      return Err(OffOrigin), asked;
    }
    var all: seq<T> := [];
    var count := firstPageCount;
    var page := 2;
    ghost var trail := Behind(site, base, 1, base, next, maxPages);
    ghost var left := if limit > 0 then limit - firstPageCount else 0;
    while page <= maxPages && url != ""
      invariant 2 <= page && AtOrigin(site, base, asked) && site.SameOrigin(base, url)
      invariant Reading(site, base, trail, all, page, url, maxPages)
      invariant count == firstPageCount + |all| && (limit > 0 ==> |all| < left)
      decreases maxPages - page
    {
      var current := url;
      ReadingGoesOn(site, base, trail, all, page, url, maxPages);
      asked := asked + [url];
      var response := site.fetch(page, url);
      if response.None? {
        return Err(Unread), asked;
      }
      var items := response.value.items;
      all := all + items;
      count := count + |items|;
      if limit > 0 && count >= limit {
        var excess := count - limit;
        assert excess > 0 ==> |all| > excess;
        assert |all| - excess == left && (excess == 0 ==> all[..left] == all);
        LimitIsReached(trail, all, left);
        if excess > 0 && |all| > excess {
          all := all[..|all| - excess];
        }
        return Ok(all), asked;
      }
      next := response.value.next;
      if next == "" {
        return Ok(all), asked;
      }
      url := site.resolve(current, next);
      if !site.SameOrigin(base, url) {
        return Err(OffOrigin), asked;
      }
      page := page + 1;
    }
    ReadingEnds(site, base, trail, all, page, url, maxPages);
    return Ok(all), asked;
  }

  // ---- the two agree ----

  ghost function Prefix<T>(items: seq<T>, limit: int): seq<T> {
    if 0 < limit <= |items| then items[..limit] else items
  }

  /**
   Reading everything is reading the first page and following it, up to the limit; either way
   fails exactly when the other does.
   */
  lemma LoopsAgree<T>(site: Site<T>, base: string, first: Response<T>, limit: int, maxPages: int)
    requires maxPages >= 1 && site.fetch(1, base) == Some(first)
    ensures
      var all := Limited(From(site, base, 1, base, maxPages), limit);
      var rest := Followed(site, Some(Answer(Some(base), first.next)), |first.items|, limit, maxPages);
      if all.Ok? then rest.Ok? && all.value == Prefix(first.items + rest.value, limit) else rest.Err?
  {
    PageThenBehind(site, base, 1, base, maxPages);
  }

  /** A limit only shortens: what it leaves is the start of what there is without it. */
  lemma LimitIsPrefix<T>(trail: Trail<T>, limit: int)
    ensures Limited(trail, 0).Ok? ==> Limited(trail, limit) == Ok(Prefix(Limited(trail, 0).value, limit))
  {
  }
}
