/** Printing links and reading them back (sections 3 and 3.3 of RFC 8288). */
module LinkRoundTrip {
  import opened Wrappers
  import opened LinkHeader
  import opened LinkParser

  /** A parameter, with the space before it, its value quoted or bare. */
  datatype Param = Param(pad: string, name: string, value: string, bare: bool)

  /** A link, with the space before it. */
  datatype Link = Link(pad: string, uri: string, params: seq<Param>)

  predicate AllSpace(text: string) {
    forall i :: 0 <= i < |text| ==> IsSpace(text[i])
  }

  /** A parameter name that can stand unquoted. */
  predicate IsName(name: string) {
    name != "" && forall i :: 0 <= i < |name| ==> !IsSpace(name[i]) && name[i] !in {'=', '"', '<', '>', ';', ','}
  }

  predicate OneLine(text: string) {
    forall i :: 0 <= i < |text| ==> !IsLineBreak(text[i])
  }

  /** A value that can stand bare. */
  predicate IsToken(text: string) {
    text != "" && forall i :: 0 <= i < |text| ==> !IsSpace(text[i]) && text[i] !in {'"', '<', '>', ';', ','}
  }

  predicate PrintableParam(p: Param) {
    AllSpace(p.pad) && IsName(p.name) && if p.bare then IsToken(p.value) else OneLine(p.value)
  }

  const Bracketed := Scan(false, false, true)

  const InQuotes := Scan(true, false, false)

  /** A target without a closing bracket, whose quotes, if it has any, pair up. */
  predicate PrintableUri(uri: string) {
    '>' !in uri && After(uri, Bracketed) == Bracketed
  }

  predicate PrintableLink(l: Link) {
    AllSpace(l.pad) && PrintableUri(l.uri) && forall k :: 0 <= k < |l.params| ==> PrintableParam(l.params[k])
  }

  // ---- printing ----

  function Escape(text: string): string {
    if text == "" then ""
    else (if text[0] in {'"', '\\'} then ['\\', text[0]] else [text[0]]) + Escape(text[1..])
  }

  function Quote(text: string): string {
    ['"'] + Escape(text) + ['"']
  }

  function PrintValue(p: Param): string {
    if p.bare then p.value else Quote(p.value)
  }

  function PrintParam(p: Param): string {
    p.pad + (p.name + ("=" + PrintValue(p)))
  }

  /** The texts between the semicolons behind a link's target. */
  function ParamTexts(params: seq<Param>): (texts: seq<string>)
    ensures |texts| == |params| + 1 && texts[0] == ""
    ensures forall k :: 0 <= k < |params| ==> texts[k + 1] == PrintParam(params[k])
  {
    [""] + seq(|params|, k requires 0 <= k < |params| => PrintParam(params[k]))
  }

  function PrintParams(params: seq<Param>): string {
    Join(ParamTexts(params), ';')
  }

  function PrintLink(l: Link): string {
    l.pad + ("<" + (l.uri + (">" + PrintParams(l.params))))
  }

  function LinkTexts(links: seq<Link>): (texts: seq<string>)
    ensures |texts| == |links|
    ensures forall k :: 0 <= k < |links| ==> texts[k] == PrintLink(links[k])
  {
    seq(|links|, k requires 0 <= k < |links| => PrintLink(links[k]))
  }

  function PrintLinks(links: seq<Link>): string {
    Join(LinkTexts(links), ',')
  }

  // ---- splitting what was joined ----

  /** Whether a text stays in one part, and leaves the scan as it found it. */
  predicate Whole(text: string, separator: char) {
    Uncut(text, separator, Outside) && After(text, Outside) == Outside
  }

  lemma WholeJoins(first: string, second: string, separator: char)
    requires Whole(first, separator) && Whole(second, separator)
    ensures Whole(first + second, separator)
  {
    ScanJoins(first, second, separator, Outside);
  }

  /** Splitting what was joined gives the parts back, if each of them is whole. */
  lemma {:induction false} SplitRestores(parts: seq<string>, separator: char)
    requires |parts| > 0 && separator !in {'"', '<', '>'}
    requires forall k :: 0 <= k < |parts| ==> Whole(parts[k], separator)
    ensures Parts(Join(parts, separator), separator, Outside) == parts
  {
    if |parts| == 1 {
      UncutIsOnePart(parts[0], separator, Outside);
    } else {
      SplitRestores(parts[1..], separator);
      CutApart(parts[0], separator, Join(parts[1..], separator), Outside);
    }
  }

  lemma {:induction false} PlainIsWhole(text: string, separator: char)
    requires forall i :: 0 <= i < |text| ==> text[i] !in {'"', '<', '>', separator}
    ensures Whole(text, separator)
  {
    if text != "" {
      PlainIsWhole(text[1..], separator);
    }
  }

  lemma {:induction false} JoinIsWhole(parts: seq<string>, inner: char, separator: char)
    requires inner !in {'"', '<', '>', separator}
    requires forall k :: 0 <= k < |parts| ==> Whole(parts[k], separator)
    ensures Whole(Join(parts, inner), separator)
  {
    if |parts| > 1 {
      JoinIsWhole(parts[1..], inner, separator);
      PlainIsWhole([inner], separator);
      WholeJoins(parts[0], [inner], separator);
      WholeJoins(parts[0] + [inner], Join(parts[1..], inner), separator);
    } else {
      PlainIsWhole("", separator);
    }
  }

  lemma {:induction false} EscapedStaysQuoted(text: string, separator: char)
    ensures Uncut(Escape(text), separator, InQuotes) && After(Escape(text), InQuotes) == InQuotes
  {
    if text != "" {
      EscapedStaysQuoted(text[1..], separator);
      var c := text[0];
      if c in {'"', '\\'} {
        assert ['\\', c][1..] == [c] && [c][1..] == "";
        ScanJoins(['\\', c], Escape(text[1..]), separator, InQuotes);
      } else {
        assert [c][1..] == "";
        ScanJoins([c], Escape(text[1..]), separator, InQuotes);
      }
    }
  }

  lemma QuoteIsWhole(text: string, separator: char)
    ensures Whole(Quote(text), separator)
  {
    EscapedStaysQuoted(text, separator);
    var mark := ['"'];
    assert mark[1..] == "";
    ScanJoins(mark, Escape(text), separator, Outside);
    ScanJoins(mark + Escape(text), mark, separator, Outside);
  }

  lemma ParamIsWhole(p: Param, separator: char)
    requires PrintableParam(p) && separator in {',', ';'}
    ensures Whole(PrintParam(p), separator)
  {
    PlainIsWhole(p.pad, separator);
    PlainIsWhole(p.name, separator);
    PlainIsWhole("=", separator);
    if p.bare {
      PlainIsWhole(p.value, separator);
    } else {
      QuoteIsWhole(p.value, separator);
    }
    WholeJoins("=", PrintValue(p), separator);
    WholeJoins(p.name, "=" + PrintValue(p), separator);
    WholeJoins(p.pad, p.name + ("=" + PrintValue(p)), separator);
  }

  lemma ParamTextsAreWhole(params: seq<Param>, separator: char)
    requires forall k :: 0 <= k < |params| ==> PrintableParam(params[k])
    requires separator in {',', ';'}
    ensures forall k :: 0 <= k <= |params| ==> Whole(ParamTexts(params)[k], separator)
  {
    forall k | 0 <= k <= |params| ensures Whole(ParamTexts(params)[k], separator) {
      if k == 0 {
        PlainIsWhole("", separator);
      } else {
        ParamIsWhole(params[k - 1], separator);
      }
    }
  }

  lemma {:induction false} BracketsDoNotCut(uri: string, separator: char, at: Scan)
    requires at.angled && '>' !in uri
    ensures Uncut(uri, separator, at)
  {
    if uri != "" {
      BracketsDoNotCut(uri[1..], separator, Next(at, uri[0]));
    }
  }

  lemma UriIsWhole(uri: string, separator: char)
    requires PrintableUri(uri) && separator !in {'"', '<', '>'}
    ensures Whole(['<'] + uri + ['>'], separator)
  {
    var open, close := ['<'], ['>'];
    assert open[1..] == close[1..] == "";
    BracketsDoNotCut(uri, separator, Bracketed);
    assert After(open, Outside) == After("", Next(Outside, '<'));
    ScanJoins(open, uri, separator, Outside);
    ScanJoins(open + uri, close, separator, Outside);
    assert After(close, Bracketed) == After("", Next(Bracketed, '>'));
  }

  lemma LinkIsWhole(l: Link)
    requires PrintableLink(l)
    ensures Whole(PrintLink(l), ',')
  {
    ParamTextsAreWhole(l.params, ',');
    JoinIsWhole(ParamTexts(l.params), ';', ',');
    UriIsWhole(l.uri, ',');
    WholeJoins("<" + l.uri + ">", PrintParams(l.params), ',');
    PlainIsWhole(l.pad, ',');
    WholeJoins(l.pad, "<" + l.uri + ">" + PrintParams(l.params), ',');
    assert PrintLink(l) == l.pad + ("<" + l.uri + ">" + PrintParams(l.params));
  }

  // ---- reading each piece ----

  lemma {:induction false} PadIsSkipped(pad: string, text: string)
    requires AllSpace(pad)
    ensures SkipSpace(pad + text) == SkipSpace(text)
  {
    if pad == "" {
      assert pad + text == text;
    } else {
      assert (pad + text)[1..] == pad[1..] + text;
      PadIsSkipped(pad[1..], text);
    }
  }

  lemma {:induction false} IndexBehind(text: string, c: char, rest: string)
    requires c !in text
    ensures IndexOf(text + [c] + rest, c) == Some(|text|)
  {
    if text != "" {
      assert (text + [c] + rest)[1..] == text[1..] + [c] + rest;
      IndexBehind(text[1..], c, rest);
    }
  }

  lemma TargetIsRead(l: Link)
    requires PrintableLink(l)
    ensures TargetOf(PrintLink(l)) == Some(Target(l.uri, PrintParams(l.params)))
  {
    var rest := PrintParams(l.params);
    var text := "<" + (l.uri + (">" + rest));
    PadIsSkipped(l.pad, text);
    assert text[1..] == l.uri + ['>'] + rest;
    IndexBehind(l.uri, '>', rest);
  }

  lemma {:induction false} EscapedIsOneLine(text: string)
    requires OneLine(text)
    ensures OneLine(Escape(text))
  {
    if text != "" {
      EscapedIsOneLine(text[1..]);
    }
  }

  lemma {:induction false} NameIsMeasured(name: string, rest: string)
    requires forall i :: 0 <= i < |name| ==> !IsSpace(name[i]) && name[i] != '='
    requires rest != "" && rest[0] == '='
    ensures NameLength(name + rest) == |name|
  {
    if name == "" {
      assert name + rest == rest;
    } else {
      assert (name + rest)[1..] == name[1..] + rest;
      NameIsMeasured(name[1..], rest);
    }
  }

  lemma ParameterIsRead(p: Param)
    requires PrintableParam(p)
    ensures ParameterOf(PrintParam(p)) == Some(Parameter(p.name, PrintValue(p)))
  {
    var rest := "=" + PrintValue(p);
    var text := p.name + rest;
    PadIsSkipped(p.pad, text);
    NameIsMeasured(p.name, rest);
    assert text[0] == p.name[0];
    assert SkipSpace(PrintParam(p)) == text;
    assert text[|p.name|..] == rest && text[..|p.name|] == p.name;
    assert rest[1..] == PrintValue(p);
    if !p.bare {
      EscapedIsOneLine(p.value);
    }
  }

  lemma {:induction false} QuotedIsRead(text: string)
    requires OneLine(text)
    ensures Unquoted(Escape(text) + ['"']) == Some(text)
  {
    var all := Escape(text) + ['"'];
    if text == "" {
      assert all[1..] == "";
    } else {
      var rest := Escape(text[1..]) + ['"'];
      QuotedIsRead(text[1..]);
      if text[0] in {'"', '\\'} {
        assert all[2..] == rest;
      } else {
        assert all[1..] == rest;
      }
      assert text == [text[0]] + text[1..];
    }
  }

  /** A parameter that was printed is read as next exactly when it is a relation that lists next. */
  lemma NextIsRead(p: Param)
    requires PrintableParam(p)
    ensures IsNext(PrintParam(p)) <==> SameFolded(p.name, "rel") && ListsNext(p.value)
  {
    ParameterIsRead(p);
    if !p.bare {
      QuotedIsRead(p.value);
      assert Quote(p.value)[1..] == Escape(p.value) + ['"'];
    }
    assert RelationOf(PrintValue(p)) == Some(p.value);
  }

  // ---- the round trip ----

  /** Whether a link's relation lists next. */
  predicate LinksNext(l: Link) {
    exists k :: 0 <= k < |l.params| && SameFolded(l.params[k].name, "rel") && ListsNext(l.params[k].value)
  }

  function FirstToNext(links: seq<Link>): Option<string> {
    if |links| == 0 then None else if LinksNext(links[0]) then Some(links[0].uri) else FirstToNext(links[1..])
  }

  /** Among the texts behind a target, the ones read as next are the relations that list it. */
  lemma TextsAreRead(params: seq<Param>)
    requires forall k :: 0 <= k < |params| ==> PrintableParam(params[k])
    ensures !IsNext(ParamTexts(params)[0])
    ensures forall k :: 0 <= k < |params| ==>
              (IsNext(ParamTexts(params)[k + 1]) <==> SameFolded(params[k].name, "rel") && ListsNext(params[k].value))
  {
    forall k | 0 <= k < |params|
      ensures IsNext(ParamTexts(params)[k + 1]) <==> SameFolded(params[k].name, "rel") && ListsNext(params[k].value)
    {
      NextIsRead(params[k]);
    }
  }

  lemma ParamsAreSplit(params: seq<Param>)
    requires forall k :: 0 <= k < |params| ==> PrintableParam(params[k])
    ensures Parts(PrintParams(params), ';', Outside) == ParamTexts(params)
  {
    ParamTextsAreWhole(params, ';');
    SplitRestores(ParamTexts(params), ';');
  }

  lemma LinkIsRead(l: Link)
    requires PrintableLink(l)
    ensures IsNextLink(PrintLink(l)) <==> LinksNext(l)
  {
    var texts := ParamTexts(l.params);
    TargetIsRead(l);
    ParamsAreSplit(l.params);
    TextsAreRead(l.params);
    if LinksNext(l) {
      var k :| 0 <= k < |l.params| && SameFolded(l.params[k].name, "rel") && ListsNext(l.params[k].value);
      assert IsNext(texts[k + 1]);
    }
    if k :| 0 <= k < |texts| && IsNext(texts[k]) {
      assert k > 0 && l.params[k - 1] == l.params[k - 1];
      assert IsNext(texts[(k - 1) + 1]);
    }
  }

  lemma {:induction false} FirstIsRead(links: seq<Link>, values: seq<string>)
    requires |values| == |links|
    requires forall k :: 0 <= k < |links| ==> PrintableLink(links[k]) && values[k] == PrintLink(links[k])
    ensures FirstNext(values) == FirstToNext(links)
  {
    if |links| > 0 {
      LinkIsRead(links[0]);
      TargetIsRead(links[0]);
      FirstIsRead(links[1..], values[1..]);
    }
  }

  /** Reading any printed list of links gives the target of the first whose relation lists next, or nothing. */
  lemma RoundTrip(links: seq<Link>)
    requires forall k :: 0 <= k < |links| ==> PrintableLink(links[k])
    ensures FirstNext(Parts(PrintLinks(links), ',', Outside)) == FirstToNext(links)
  {
    if |links| == 0 {
      assert !IsNextLink("");
    } else {
      var values := LinkTexts(links);
      forall k | 0 <= k < |links| ensures Whole(PrintLink(links[k]), ',') {
        LinkIsWhole(links[k]);
      }
      SplitRestores(values, ',');
      FirstIsRead(links, values);
    }
  }

  lemma {:induction false} BracketsStay(uri: string, at: Scan)
    requires '>' !in uri && '"' !in uri && at == Bracketed
    ensures After(uri, at) == at
  {
    if uri != "" {
      assert uri[0] in uri;
      BracketsStay(uri[1..], Next(at, uri[0]));
    }
  }

  /** A target with no quote and no closing bracket in it is printable. */
  lemma PlainUriIsPrintable(uri: string)
    requires '>' !in uri && '"' !in uri
    ensures PrintableUri(uri)
  {
    BracketsStay(uri, Bracketed);
  }

  // ---- what a relation lists ----

  /** Whether a stretch of a text stands between spaces, or the text's ends. */
  predicate IsWord(text: string, i: nat, j: nat) {
    && i < j <= |text|
    && (forall k :: i <= k < j ==> !IsSpace(text[k]))
    && (i == 0 || IsSpace(text[i - 1])) && (j == |text| || IsSpace(text[j]))
  }

  ghost predicate HasNext(text: string) {
    exists i: nat, j: nat :: IsWord(text, i, j) && SameFolded(text[i..j], "next")
  }

  lemma {:induction false} SkipSpaceSkips(text: string) returns (m: nat)
    ensures m <= |text| && SkipSpace(text) == text[m..]
    ensures forall k :: 0 <= k < m ==> IsSpace(text[k])
    ensures m < |text| ==> !IsSpace(text[m])
  {
    if text != "" && IsSpace(text[0]) {
      m := SkipSpaceSkips(text[1..]);
      m := m + 1;
    } else {
      m := 0;
    }
  }

  lemma WordBehind(text: string, at: nat, i: nat, j: nat)
    requires 0 < at <= |text| && IsSpace(text[at - 1]) && i <= j <= |text| - at
    ensures IsWord(text[at..], i, j) <==> IsWord(text, at + i, at + j)
    ensures text[at..][i..j] == text[at + i..at + j]
  {
    var rest := text[at..];
    if IsWord(rest, i, j) {
      assert forall k :: at + i <= k < at + j ==> text[k] == rest[k - at];
    }
  }

  /** Next is a word of a text exactly when it is its first, or a word of what stands behind a space. */
  lemma NextBehind(text: string, n: nat, at: nat)
    requires n < at <= |text|
    requires forall k :: 0 <= k < n ==> !IsSpace(text[k])
    requires forall k :: n <= k < at ==> IsSpace(text[k])
    ensures HasNext(text) <==> SameFolded(text[..n], "next") || HasNext(text[at..])
  {
    assert text[0..n] == text[..n];
    if SameFolded(text[..n], "next") {
      assert IsWord(text, 0, n);
    }
    if HasNext(text[at..]) {
      var i: nat, j: nat :| IsWord(text[at..], i, j) && SameFolded(text[at..][i..j], "next");
      WordBehind(text, at, i, j);
    }
    if HasNext(text) {
      var i: nat, j: nat :| IsWord(text, i, j) && SameFolded(text[i..j], "next");
      if i < n {
        assert IsSpace(text[n]);
        assert i == 0 && j == n;
      } else {
        assert !IsSpace(text[i]);
        WordBehind(text, at, i - at, j - at);
      }
    }
  }

  lemma LoneWord(text: string)
    requires WordLength(text) == |text|
    ensures HasNext(text) <==> SameFolded(text, "next")
  {
    assert text[0..|text|] == text;
    if SameFolded(text, "next") {
      assert IsWord(text, 0, |text|);
    }
    if HasNext(text) {
      var i: nat, j: nat :| IsWord(text, i, j) && SameFolded(text[i..j], "next");
      assert i == 0 && j == |text|;
    }
  }

  lemma NextAmong(first: string, rest: seq<string>)
    ensures OneIsNext([first] + rest) <==> SameFolded(first, "next") || OneIsNext(rest)
  {
    var all := [first] + rest;
    assert all[0] == first;
    if OneIsNext(rest) {
      var k :| 0 <= k < |rest| && SameFolded(rest[k], "next");
      assert all[k + 1] == rest[k];
    }
  }

  /** Where a text goes on behind the space at `n`. */
  lemma NextWordAt(text: string, n: nat) returns (at: nat)
    requires n < |text| && IsSpace(text[n])
    ensures n < at <= |text| && SkipSpace(text[n..]) == text[at..]
    ensures forall k :: n <= k < at ==> IsSpace(text[k])
  {
    var behind := text[n..];
    var m := SkipSpaceSkips(behind);
    at := n + m;
    assert behind[0] == text[n];
    assert forall k :: n <= k < at ==> text[k] == behind[k - n];
    assert behind[m..] == text[at..];
  }

  /** A relation lists next exactly when next stands in it as a word. */
  lemma {:induction false} ListsNextIsAWord(text: string)
    ensures ListsNext(text) <==> HasNext(text)
    decreases |text|
  {
    var n := WordLength(text);
    if n == |text| {
      LoneWord(text);
      NextAmong(text, []);
    } else {
      var at := NextWordAt(text, n);
      var rest := text[at..];
      ListsNextIsAWord(rest);
      NextBehind(text, n, at);
      NextAmong(text[..n], Words(rest));
    }
  }

  // ---- the first relation parameter (section 3.3 of RFC 8288) ----

  predicate IsRel(p: Param) {
    SameFolded(p.name, "rel")
  }

  /** Whether parameter `k` is the one section 3.3 has a link's relation read from. */
  predicate IsFirstRel(l: Link, k: nat) {
    k < |l.params| && IsRel(l.params[k]) && forall j :: 0 <= j < k ==> !IsRel(l.params[j])
  }

  /** Whether a link is a link to the next page as section 3.3 reads it. */
  predicate FirstRelListsNext(l: Link) {
    exists k :: 0 <= k < |l.params| && IsFirstRel(l, k) && ListsNext(l.params[k].value)
  }

  /** Whether a link's first relation does not list next and a later one does. */
  predicate LaterRelOverrides(l: Link) {
    exists j, k :: 0 <= j < k < |l.params| && IsFirstRel(l, j) && !ListsNext(l.params[j].value)
                   && IsRel(l.params[k]) && ListsNext(l.params[k].value)
  }

  lemma {:induction false} FirstRelBefore(l: Link, k: nat) returns (first: nat)
    requires k < |l.params| && IsRel(l.params[k])
    ensures first <= k && IsFirstRel(l, first)
    decreases k
  {
    if j :| 0 <= j < k && IsRel(l.params[j]) {
      first := FirstRelBefore(l, j);
    } else {
      first := k;
    }
  }

  lemma LinksNextByFirstRel(l: Link)
    ensures FirstRelListsNext(l) ==> LinksNext(l)
    ensures LaterRelOverrides(l) ==> LinksNext(l) && !FirstRelListsNext(l)
    ensures LinksNext(l) && !FirstRelListsNext(l) ==> LaterRelOverrides(l)
  {
    if LaterRelOverrides(l) {
      var j, k :| 0 <= j < k < |l.params| && IsFirstRel(l, j) && !ListsNext(l.params[j].value)
                  && IsRel(l.params[k]) && ListsNext(l.params[k].value);
      assert forall i :: 0 <= i < |l.params| && IsFirstRel(l, i) ==> i == j;
    }
    if LinksNext(l) && !FirstRelListsNext(l) {
      var k :| 0 <= k < |l.params| && IsRel(l.params[k]) && ListsNext(l.params[k].value);
      var first := FirstRelBefore(l, k);
    }
  }

  /** A printed link is read as section 3.3 has it exactly when no later relation overrides its first. */
  lemma AgreesExactly(l: Link)
    requires PrintableLink(l)
    ensures (IsNextLink(PrintLink(l)) <==> FirstRelListsNext(l)) <==> !LaterRelOverrides(l)
  {
    LinkIsRead(l);
    LinksNextByFirstRel(l);
  }

  predicate AtMostOneRel(l: Link) {
    forall j, k :: 0 <= j < k < |l.params| ==> !(IsRel(l.params[j]) && IsRel(l.params[k]))
  }

  /** With one relation to a link, or none, the two readings are the same. */
  lemma OneRelAgrees(l: Link)
    requires PrintableLink(l) && AtMostOneRel(l)
    ensures IsNextLink(PrintLink(l)) <==> FirstRelListsNext(l)
  {
    AgreesExactly(l);
  }

  /** The place of the first link any of whose relations lists next; the number of links if there is none. */
  function NextAt(links: seq<Link>): (i: nat)
    ensures i <= |links| && (i < |links| ==> LinksNext(links[i]))
  {
    if |links| == 0 || LinksNext(links[0]) then 0 else 1 + NextAt(links[1..])
  }

  /** The place of the first link whose first relation lists next; the number of links if there is none. */
  function FirstRelNextAt(links: seq<Link>): (i: nat)
    ensures i <= |links| && (i < |links| ==> FirstRelListsNext(links[i]))
  {
    if |links| == 0 || FirstRelListsNext(links[0]) then 0 else 1 + FirstRelNextAt(links[1..])
  }

  function TargetAt(links: seq<Link>, i: nat): Option<string> {
    if i < |links| then Some(links[i].uri) else None
  }

  /** Whether the link that is read as the next page's is one only by a relation that is not its first. */
  predicate Overridden(links: seq<Link>) {
    NextAt(links) < |links| && LaterRelOverrides(links[NextAt(links)])
  }

  lemma {:induction false} FirstToNextIsAt(links: seq<Link>)
    ensures FirstToNext(links) == TargetAt(links, NextAt(links))
  {
    if |links| > 0 {
      FirstToNextIsAt(links[1..]);
    }
  }

  /** The two readings choose the same link of a list exactly when the one chosen is not overridden. */
  lemma {:induction false} ListAgreesExactly(links: seq<Link>)
    ensures NextAt(links) == FirstRelNextAt(links) <==> !Overridden(links)
  {
    if |links| > 0 {
      LinksNextByFirstRel(links[0]);
      ListAgreesExactly(links[1..]);
    }
  }

  /**
   A printed list is read as section 3.3 has it if the link chosen is not overridden, and, where
   targets tell the links apart, only if it is not.
   */
  lemma RoundTripByFirstRel(links: seq<Link>)
    requires forall k :: 0 <= k < |links| ==> PrintableLink(links[k])
    ensures
      var found, meant := FirstNext(Parts(PrintLinks(links), ',', Outside)), TargetAt(links, FirstRelNextAt(links));
      && (!Overridden(links) ==> found == meant)
      && ((forall i, j :: 0 <= i < j < |links| ==> links[i].uri != links[j].uri) ==>
            (found == meant <==> !Overridden(links)))
  {
    RoundTrip(links);
    FirstToNextIsAt(links);
    ListAgreesExactly(links);
  }

  lemma {:induction false} LoneWords(text: string)
    requires forall i :: 0 <= i < |text| ==> !IsSpace(text[i])
    ensures WordLength(text) == |text|
  {
    if text != "" {
      LoneWords(text[1..]);
    }
  }

  lemma NextListsNext()
    ensures ListsNext("next") && !ListsNext("prev")
  {
    LoneWords("prev");
    LoneWords("next");
    NextAmong("prev", []);
    NextAmong("next", []);
    assert "prev"[0] == 'p';
  }

  lemma RelIsAName()
    ensures IsName("rel") && SameFolded("rel", "rel") && OneLine("prev") && OneLine("next")
  {
  }

  /** A link with two relations of which only the second lists next is misread, whatever they are. */
  lemma SecondRelMisleads(uri: string, rel: string, first: string, later: string) returns (l: Link)
    requires PrintableUri(uri) && IsName(rel) && SameFolded(rel, "rel") && OneLine(first) && OneLine(later)
    requires !ListsNext(first) && ListsNext(later)
    ensures l == Link("", uri, [Param("", rel, first, false), Param("", rel, later, false)])
    ensures PrintableLink(l) && LaterRelOverrides(l)
    ensures IsNextLink(PrintLink(l)) && !FirstRelListsNext(l)
  {
    l := Link("", uri, [Param("", rel, first, false), Param("", rel, later, false)]);
    assert IsFirstRel(l, 0) && IsRel(l.params[1]);
    LinkIsRead(l);
    LinksNextByFirstRel(l);
  }

  /** For one: the link to `a` whose relations are prev and next. */
  lemma PrevThenNextMisleads() returns (l: Link)
    ensures l == Link("", "a", [Param("", "rel", "prev", false), Param("", "rel", "next", false)])
    ensures PrintableLink(l) && LaterRelOverrides(l)
    ensures IsNextLink(PrintLink(l)) && !FirstRelListsNext(l)
  {
    NextListsNext();
    RelIsAName();
    PlainUriIsPrintable("a");
    l := SecondRelMisleads("a", "rel", "prev", "next");
  }
}
