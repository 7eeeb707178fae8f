/**
 The TypeScript client's Link header parser: splitting outside quoted strings and URI
 references, and finding the target of the first link whose relation lists next.
 */
module LinkHeader {
  // ---- splitting ----

  /** What the scan knows of the text so far. */
  datatype Scan = Scan(quoted: bool, escaped: bool, angled: bool)

  const Outside := Scan(false, false, false)

  function Next(at: Scan, c: char): Scan {
    if at.escaped then at.(escaped := false)
    else if at.quoted && c == '\\' then at.(escaped := true)
    else if c == '"' then at.(quoted := !at.quoted)
    else if !at.quoted && c == '<' then at.(angled := true)
    else if !at.quoted && c == '>' then at.(angled := false)
    else at
  }

  /** Whether a character is a separator that cuts. */
  predicate Cuts(at: Scan, c: char, separator: char) {
    at == Outside && c == separator && c != '"' && c != '<' && c != '>'
  }

  function After(text: string, at: Scan): Scan {
    if text == "" then at else After(text[1..], Next(at, text[0]))
  }

  predicate Uncut(text: string, separator: char, at: Scan) {
    text != "" ==> !Cuts(at, text[0], separator) && Uncut(text[1..], separator, Next(at, text[0]))
  }

  function Parts(text: string, separator: char, at: Scan): (parts: seq<string>)
    ensures |parts| > 0
  {
    if text == "" then [""]
    else
      var rest := Parts(text[1..], separator, Next(at, text[0]));
      if Cuts(at, text[0], separator) then [""] + rest else [[text[0]] + rest[0]] + rest[1..]
  }

  function Join(parts: seq<string>, separator: char): string {
    if |parts| == 0 then "" else if |parts| == 1 then parts[0]
    else parts[0] + [separator] + Join(parts[1..], separator)
  }

  /** Joining the parts restores every text, well formed or not. */
  lemma {:induction false} JoinRestores(text: string, separator: char, at: Scan)
    ensures Join(Parts(text, separator, at), separator) == text
  {
    if text != "" {
      var rest := Parts(text[1..], separator, Next(at, text[0]));
      JoinRestores(text[1..], separator, Next(at, text[0]));
      assert text == [text[0]] + text[1..];
      var parts := Parts(text, separator, at);
      assert parts[1..] == if Cuts(at, text[0], separator) then rest else rest[1..];
    }
  }

  lemma {:induction false} UncutIsOnePart(text: string, separator: char, at: Scan)
    requires Uncut(text, separator, at)
    ensures Parts(text, separator, at) == [text]
  {
    if text != "" {
      UncutIsOnePart(text[1..], separator, Next(at, text[0]));
      assert text == [text[0]] + text[1..];
    }
  }

  /** A part ends at the first separator that cuts, and the scan starts over behind it. */
  lemma {:induction false} CutApart(text: string, separator: char, rest: string, at: Scan)
    requires Uncut(text, separator, at) && Cuts(After(text, at), separator, separator)
    ensures Parts(text + [separator] + rest, separator, at) == [text] + Parts(rest, separator, Outside)
  {
    var all := text + [separator] + rest;
    if text == "" {
      assert all[1..] == rest;
    } else {
      CutApart(text[1..], separator, rest, Next(at, text[0]));
      assert all[1..] == text[1..] + [separator] + rest;
      assert text == [text[0]] + text[1..];
    }
  }

  lemma {:induction false} ScanJoins(first: string, second: string, separator: char, at: Scan)
    ensures After(first + second, at) == After(second, After(first, at))
    ensures Uncut(first + second, separator, at) <==>
              Uncut(first, separator, at) && Uncut(second, separator, After(first, at))
  {
    if first == "" {
      assert first + second == second;
    } else {
      assert (first + second)[1..] == first[1..] + second;
      ScanJoins(first[1..], second, separator, Next(at, first[0]));
    }
  }

  /** What a scan has found when it has come to `i`: the parts before `start`, and no cut since. */
  ghost predicate Splitting(value: string, separator: char, parts: seq<string>, start: nat, i: nat, at: Scan)
    requires start <= i <= |value|
  {
    && parts + Parts(value[start..], separator, Outside) == Parts(value, separator, Outside)
    && Uncut(value[start..i], separator, Outside)
    && After(value[start..i], Outside) == at
  }

  lemma SplittingGoesOn(value: string, separator: char, parts: seq<string>, start: nat, i: nat, at: Scan)
    requires start <= i < |value| && Splitting(value, separator, parts, start, i, at)
    ensures
      if Cuts(at, value[i], separator) then Splitting(value, separator, parts + [value[start..i]], i + 1, i + 1, Outside)
      else Splitting(value, separator, parts, start, i + 1, Next(at, value[i]))
  {
    var part := value[start..i];
    if Cuts(at, value[i], separator) {
      CutApart(part, separator, value[i + 1..], Outside);
      assert value[start..] == part + [separator] + value[i + 1..];
    } else {
      ScanJoins(part, [value[i]], separator, Outside);
      assert value[start..i + 1] == part + [value[i]];
      assert [value[i]][1..] == "";
    }
  }

  method SplitOutsideQuotes(value: string, separator: char) returns (parts: seq<string>)
    ensures parts == Parts(value, separator, Outside)
  {
    parts := [];
    var start := 0;
    var quoted, escaped, angled := false, false, false;
    for i := 0 to |value|
      invariant start <= i && Splitting(value, separator, parts, start, i, Scan(quoted, escaped, angled))
    {
      var c := value[i];
      SplittingGoesOn(value, separator, parts, start, i, Scan(quoted, escaped, angled));
      if escaped {
        escaped := false;
        continue;
      }
      if quoted && c == '\\' {
        escaped := true;
        continue;
      }
      if c == '"' {
        quoted := !quoted;
      } else if !quoted && c == '<' {
        angled := true;
      } else if !quoted && c == '>' {
        angled := false;
      } else if !quoted && !angled && c == separator {
        parts := parts + [value[start..i]];
        start := i + 1;
      }
    }
    assert value[start..] == value[start..|value|];
    UncutIsOnePart(value[start..], separator, Outside);
    parts := parts + [value[start..]];
  }
}
