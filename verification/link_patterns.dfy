/** The parser's patterns, each matching exactly the texts it is written for. */
module LinkPatterns {
  import opened Wrappers
  import opened LinkHeader
  import opened LinkParser
  import opened LinkRoundTrip

  // ---- characters ----

  /** Only the letters A to Z are folded, each to its own. */
  lemma LettersFold(i: nat)
    requires i < 26
    ensures Lower(('A' as int + i) as char) == ('a' as int + i) as char == Lower(('a' as int + i) as char)
  {
  }

  /** The characters that are space, and those that end a line, by their numbers. */
  lemma SpaceByNumber(c: char)
    ensures
      var n := c as int;
      && (IsSpace(c) <==>
            || 9 <= n <= 13 || n == 32 || n == 160 || n == 5760 || 8192 <= n <= 8202
            || n == 8232 || n == 8233 || n == 8239 || n == 8287 || n == 12288 || n == 65279)
      && (IsLineBreak(c) <==> n == 10 || n == 13 || n == 8232 || n == 8233)
  {
  }

  // ---- space ----

  lemma {:induction false} SpaceApart(text: string) returns (pad: string)
    ensures AllSpace(pad) && text == pad + SkipSpace(text)
    ensures SkipSpace(text) != "" ==> !IsSpace(SkipSpace(text)[0])
  {
    if text != "" && IsSpace(text[0]) {
      var rest := SpaceApart(text[1..]);
      assert text == [text[0]] + text[1..];
      pad := [text[0]] + rest;
    } else {
      pad := "";
    }
  }

  lemma {:induction false} TrailApart(text: string) returns (trail: string)
    ensures AllSpace(trail) && text == TrimEnd(text) + trail
    ensures TrimEnd(text) != "" ==> !IsSpace(TrimEnd(text)[|TrimEnd(text)| - 1])
    decreases |text|
  {
    if text != "" && IsSpace(text[|text| - 1]) {
      trail := TrailApart(text[..|text| - 1]);
      trail := trail + [text[|text| - 1]];
    } else {
      trail := "";
    }
  }

  // ---- a link's target ----

  /** Space, an opening bracket, a target, a closing bracket and the rest. */
  predicate Bracketing(value: string, pad: string, uri: string, rest: string) {
    AllSpace(pad) && value == pad + ("<" + (uri + (">" + rest)))
  }

  lemma SplitAt(text: string, i: nat)
    requires i < |text|
    ensures text == text[..i] + ([text[i]] + text[i + 1..])
  {
  }

  lemma TargetIsSpelled(value: string) returns (pad: string)
    requires TargetOf(value).Some?
    ensures '>' !in TargetOf(value).value.uri
    ensures Bracketing(value, pad, TargetOf(value).value.uri, TargetOf(value).value.rest)
  {
    pad := SpaceApart(value);
    BracketsApart(SkipSpace(value));
  }

  lemma BracketsApart(text: string)
    requires text != "" && text[0] == '<' && IndexOf(text[1..], '>').Some?
    ensures
      var behind, i := text[1..], IndexOf(text[1..], '>').value;
      text == "<" + (behind[..i] + (">" + behind[i + 1..]))
  {
    SplitAt(text[1..], IndexOf(text[1..], '>').value);
  }

  lemma SpelledTargetIsRead(pad: string, uri: string, rest: string)
    requires AllSpace(pad) && '>' !in uri
    ensures TargetOf(pad + ("<" + (uri + (">" + rest)))) == Some(Target(uri, rest))
  {
    var text := "<" + (uri + (">" + rest));
    PadIsSkipped(pad, text);
    var behind := text[1..];
    assert behind == uri + ['>'] + rest;
    IndexBehind(uri, '>', rest);
    assert behind[..|uri|] == uri && behind[|uri| + 1..] == rest;
  }

  /** A link's target is read exactly from space, an opening bracket, and all up to the first closing one. */
  lemma TargetExactly(value: string, uri: string, rest: string)
    ensures TargetOf(value) == Some(Target(uri, rest)) <==>
            '>' !in uri && exists pad :: Bracketing(value, pad, uri, rest)
  {
    if TargetOf(value) == Some(Target(uri, rest)) {
      var pad := TargetIsSpelled(value);
    }
    if '>' !in uri {
      if pad :| Bracketing(value, pad, uri, rest) {
        SpelledTargetIsRead(pad, uri, rest);
      }
    }
  }

  // ---- a parameter ----

  /** A text of one line, with no space at either end. */
  predicate IsTrimmed(text: string) {
    OneLine(text) && (text != "" ==> !IsSpace(text[0]) && !IsSpace(text[|text| - 1]))
  }

  predicate IsNamePart(name: string) {
    name != "" && forall i :: 0 <= i < |name| ==> !IsSpace(name[i]) && name[i] != '='
  }

  /** The texts a parameter is written as: a name, an equals sign and a value, with space anywhere between. */
  ghost predicate Spells(part: string, name: string, value: string) {
    exists pad, before, behind, trail :: Parted(part, name, value, pad, before, behind, trail)
  }

  predicate Parted(
    part: string, name: string, value: string, pad: string, before: string, behind: string, trail: string)
  {
    && AllSpace(pad) && AllSpace(before) && AllSpace(behind) && AllSpace(trail)
    && part == pad + (name + (before + ("=" + (behind + (value + trail)))))
  }

  lemma {:induction false} NameMeasured(name: string, rest: string)
    requires forall i :: 0 <= i < |name| ==> !IsSpace(name[i]) && name[i] != '='
    requires rest != "" && (rest[0] == '=' || IsSpace(rest[0]))
    ensures NameLength(name + rest) == |name|
  {
    if name == "" {
      assert name + rest == rest;
    } else {
      assert (name + rest)[1..] == name[1..] + rest;
      NameMeasured(name[1..], rest);
    }
  }

  lemma {:induction false} NameIsNamePart(text: string)
    ensures forall i :: 0 <= i < NameLength(text) ==> !IsSpace(text[i]) && text[i] != '='
  {
    if text != "" && text[0] != '=' && !IsSpace(text[0]) {
      NameIsNamePart(text[1..]);
      assert forall i :: 0 < i < NameLength(text) ==> text[i] == text[1..][i - 1];
    }
  }

  lemma {:induction false} TrailIsTrimmed(value: string, trail: string)
    requires AllSpace(trail) && (value != "" ==> !IsSpace(value[|value| - 1]))
    ensures TrimEnd(value + trail) == value
    decreases |trail|
  {
    if trail == "" {
      assert value + trail == value;
    } else {
      var less := trail[..|trail| - 1];
      assert (value + trail)[..|value + trail| - 1] == value + less;
      TrailIsTrimmed(value, less);
    }
  }

  lemma PartsAreParted(
    name: string, value: string, pad: string, before: string, behind: string, trail: string,
    text: string, mid: string, rest: string, inner: string, tail: string)
    requires AllSpace(pad) && AllSpace(before) && AllSpace(behind) && AllSpace(trail)
    requires text == name + mid && mid == before + rest && rest == "=" + inner
    requires inner == behind + tail && tail == value + trail
    ensures Parted(pad + text, name, value, pad, before, behind, trail)
  {
  }

  /** The texts a parameter that is read leaves behind, pattern by pattern. */
  lemma ParameterPieces(part: string) returns (mid: string, inner: string)
    requires ParameterOf(part).Some?
    ensures
      var p := ParameterOf(part).value;
      && IsNamePart(p.name) && SkipSpace(part) == p.name + mid && SkipSpace(mid) == "=" + inner
      && p.value == TrimEnd(SkipSpace(inner)) && OneLine(p.value)
  {
    var text := SkipSpace(part);
    NameIsNamePart(text);
    mid := text[NameLength(text)..];
    var rest := SkipSpace(mid);
    inner := rest[1..];
    assert text == text[..NameLength(text)] + mid;
    assert rest == "=" + inner;
  }

  lemma TrimmedBothEnds(text: string, trail: string)
    requires text == TrimEnd(text) + trail && (text != "" ==> !IsSpace(text[0]))
    requires TrimEnd(text) != "" ==> !IsSpace(TrimEnd(text)[|TrimEnd(text)| - 1])
    requires OneLine(TrimEnd(text))
    ensures IsTrimmed(TrimEnd(text))
  {
    assert TrimEnd(text) != "" ==> TrimEnd(text)[0] == text[0];
  }

  /** A parameter that is read was written so: its parts are found where the pattern has them. */
  lemma ReadParameterSpells(part: string)
    requires ParameterOf(part).Some?
    ensures
      var p := ParameterOf(part).value;
      IsNamePart(p.name) && IsTrimmed(p.value) && Spells(part, p.name, p.value)
  {
    var p := ParameterOf(part).value;
    var mid, inner := ParameterPieces(part);
    var tail := SkipSpace(inner);
    var pad, before, behind, trail := PadsOf(part, mid, inner, tail);
    TrimmedBothEnds(tail, trail);
    PartsAreParted(p.name, p.value, pad, before, behind, trail, SkipSpace(part), mid, SkipSpace(mid), inner, tail);
  }

  lemma PadsOf(part: string, mid: string, inner: string, tail: string)
    returns (pad: string, before: string, behind: string, trail: string)
    requires tail == SkipSpace(inner)
    ensures AllSpace(pad) && AllSpace(before) && AllSpace(behind) && AllSpace(trail)
    ensures part == pad + SkipSpace(part) && mid == before + SkipSpace(mid)
    ensures inner == behind + tail && tail == TrimEnd(tail) + trail
    ensures tail != "" ==> !IsSpace(tail[0])
    ensures TrimEnd(tail) != "" ==> !IsSpace(TrimEnd(tail)[|TrimEnd(tail)| - 1])
  {
    pad := SpaceApart(part);
    before := SpaceApart(mid);
    behind := SpaceApart(inner);
    trail := TrailApart(tail);
  }

  /** A name is measured and what stands behind it found, whatever space there is. */
  lemma NameIsFound(pad: string, name: string, before: string, rest: string)
    requires AllSpace(pad) && IsNamePart(name) && AllSpace(before) && rest != "" && rest[0] == '='
    ensures
      var text := name + (before + rest);
      && SkipSpace(pad + text) == text && NameLength(text) == |name|
      && text[..|name|] == name && SkipSpace(text[|name|..]) == rest
  {
    var text := name + (before + rest);
    assert text[0] == name[0];
    PadIsSkipped(pad, text);
    assert (before + rest)[0] == if before != "" then before[0] else '=';
    NameMeasured(name, before + rest);
    assert text[|name|..] == before + rest;
    PadIsSkipped(before, rest);
    assert '=' in rest && !IsSpace('=');
  }

  /** And whatever is written so is read. */
  lemma SpelledParameterIsRead(part: string, name: string, value: string)
    requires IsNamePart(name) && IsTrimmed(value) && Spells(part, name, value)
    ensures ParameterOf(part) == Some(Parameter(name, value))
  {
    var pad, before, behind, trail :| Parted(part, name, value, pad, before, behind, trail);
    var tail := value + trail;
    var rest := "=" + (behind + tail);
    NameIsFound(pad, name, before, rest);
    assert rest[1..] == behind + tail;
    PadIsSkipped(behind, tail);
    ValueIsTrimmed(value, trail);
  }

  lemma ValueIsTrimmed(value: string, trail: string)
    requires IsTrimmed(value) && AllSpace(trail)
    ensures TrimEnd(SkipSpace(value + trail)) == value
  {
    if value == "" {
      PadIsSkipped(trail, "");
      assert value + trail == trail + "";
    } else {
      assert (value + trail)[0] == value[0];
      TrailIsTrimmed(value, trail);
    }
  }

  /** A parameter is read exactly from the texts it is written as. */
  lemma ParameterExactly(part: string, name: string, value: string)
    ensures ParameterOf(part) == Some(Parameter(name, value)) <==>
            IsNamePart(name) && IsTrimmed(value) && Spells(part, name, value)
  {
    if ParameterOf(part) == Some(Parameter(name, value)) {
      ReadParameterSpells(part);
    }
    if IsNamePart(name) && IsTrimmed(value) && Spells(part, name, value) {
      SpelledParameterIsRead(part, name, value);
    }
  }

  // ---- a quoted value ----

  /** Whether a scan never leaves the quotes it is in. */
  predicate Inside(text: string, at: Scan) {
    at.quoted && (text != "" ==> Inside(text[1..], Next(at, text[0])))
  }

  lemma {:induction false} InsideJoins(first: string, second: string, at: Scan)
    ensures Inside(first + second, at) <==> Inside(first, at) && Inside(second, After(first, at))
  {
    if first == "" {
      assert first + second == second;
    } else {
      assert (first + second)[1..] == first[1..] + second;
      InsideJoins(first[1..], second, Next(at, first[0]));
    }
  }

  /** Whether the quotes a text was opened by first close at `n`, with nothing but space behind. */
  predicate ClosesAt(text: string, n: nat) {
    && n < |text| && text[n] == '"' && AllSpace(text[n + 1..])
    && Inside(text[..n], InQuotes) && After(text[..n], InQuotes) == InQuotes
  }

  lemma ClosesBehind(text: string, k: nat, n: nat)
    requires n + k < |text| && Inside(text[..k], InQuotes) && After(text[..k], InQuotes) == InQuotes
    ensures ClosesAt(text, n + k) <==> ClosesAt(text[k..], n)
  {
    var rest := text[k..];
    assert text[..n + k] == text[..k] + rest[..n];
    ScanJoins(text[..k], rest[..n], ' ', InQuotes);
    InsideJoins(text[..k], rest[..n], InQuotes);
    assert rest[n + 1..] == text[n + k + 1..];
  }

  lemma EscapeIsScanned(text: string)
    requires |text| >= 2 && text[0] == '\\'
    ensures Inside(text[..2], InQuotes) && After(text[..2], InQuotes) == InQuotes
  {
    var escaped := Next(InQuotes, text[0]);
    assert text[..2] == [text[0], text[1]] && text[..2][1..] == [text[1]] && [text[1]][1..] == "";
    assert escaped == Scan(true, true, false) && Next(escaped, text[1]) == InQuotes;
    assert After([text[1]], escaped) == After("", InQuotes) && Inside("", InQuotes);
    assert Inside([text[1]], escaped);
  }

  lemma PlainIsScanned(text: string)
    requires text != "" && text[0] != '\\' && text[0] != '"'
    ensures Inside(text[..1], InQuotes) && After(text[..1], InQuotes) == InQuotes
  {
    assert text[..1][1..] == "";
  }

  /** A quoted value is read only if its quotes close where the splitter has them close, at the end. */
  lemma {:induction false} UnquotedCloses(text: string) returns (n: nat)
    requires Unquoted(text).Some?
    ensures ClosesAt(text, n)
    decreases |text|
  {
    if text[0] == '"' {
      n := 0;
      var pad := SpaceApart(text[1..]);
      assert text[..0] == "" && text[1..] == pad;
    } else if text[0] == '\\' {
      EscapeIsScanned(text);
      n := UnquotedCloses(text[2..]);
      ClosesBehind(text, 2, n);
      n := n + 2;
    } else {
      PlainIsScanned(text);
      n := UnquotedCloses(text[1..]);
      ClosesBehind(text, 1, n);
      n := n + 1;
    }
  }

  /** On one line that is all it takes. */
  lemma {:induction false} ClosedIsUnquoted(text: string, n: nat)
    requires OneLine(text) && ClosesAt(text, n)
    ensures Unquoted(text).Some?
    decreases |text|
  {
    if n == 0 {
      PadIsSkipped(text[1..], "");
      assert text[1..] + "" == text[1..];
    } else {
      var inside := text[..n];
      assert inside[0] == text[0] && Inside(inside[1..], Next(InQuotes, inside[0]));
      assert text[0] != '"';
      if text[0] == '\\' {
        assert n != 1 by {
          assert After(inside, InQuotes) == After(inside[1..], Next(InQuotes, '\\'));
          assert After("", Next(InQuotes, '\\')) != InQuotes;
        }
        EscapeIsScanned(text);
        ClosesBehind(text, 2, n - 2);
        ClosedIsUnquoted(text[2..], n - 2);
      } else {
        PlainIsScanned(text);
        ClosesBehind(text, 1, n - 1);
        ClosedIsUnquoted(text[1..], n - 1);
      }
    }
  }

  /** A quoted value on one line is read exactly when its quotes close, for the first time, at its end. */
  lemma UnquotedExactly(text: string)
    requires OneLine(text)
    ensures Unquoted(text).Some? <==> exists n :: ClosesAt(text, n)
  {
    if Unquoted(text).Some? {
      var n := UnquotedCloses(text);
    }
    if n :| ClosesAt(text, n) {
      ClosedIsUnquoted(text, n);
    }
  }

  /** A bare value is read as it is, exactly when it is not empty and has no space, comma or semicolon. */
  lemma BareExactly(value: string)
    requires value == "" || value[0] != '"'
    ensures RelationOf(value).Some? <==>
            value != "" && forall i :: 0 <= i < |value| ==> !IsSpace(value[i]) && value[i] != ';' && value[i] != ','
    ensures RelationOf(value).Some? ==> RelationOf(value).value == value
  {
  }
}
