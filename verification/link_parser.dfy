/** Finding the next page: each pattern the parser matches, and the loop over links and parameters. */
module LinkParser {
  import opened Wrappers
  import opened LinkHeader

  predicate IsLineBreak(c: char) {
    c in {'\n', '\r', '\U{2028}', '\U{2029}'}
  }

  predicate IsSpace(c: char) {
    || IsLineBreak(c)
    || c in {' ', '\t', '\U{000B}', '\U{000C}', '\U{00A0}', '\U{1680}', '\U{202F}', '\U{205F}', '\U{3000}', '\U{FEFF}'}
    || '\U{2000}' <= c <= '\U{200A}'
  }

  /** Lower case, of the letters an attribute or a relation name is compared by. */
  function Lower(c: char): char {
    if 'A' <= c <= 'Z' then (c as int + 32) as char else c
  }

  predicate SameFolded(text: string, lower: string) {
    |text| == |lower| && forall i :: 0 <= i < |text| ==> Lower(text[i]) == lower[i]
  }

  function SkipSpace(text: string): string {
    if text != "" && IsSpace(text[0]) then SkipSpace(text[1..]) else text
  }

  function TrimEnd(text: string): string {
    if text != "" && IsSpace(text[|text| - 1]) then TrimEnd(text[..|text| - 1]) else text
  }

  function IndexOf(text: string, c: char): (i: Option<nat>)
    ensures i.Some? ==> i.value < |text| && text[i.value] == c && c !in text[..i.value]
    ensures i.None? ==> c !in text
  {
    if text == "" then None
    else if text[0] == c then Some(0)
    else match IndexOf(text[1..], c)
      case None => None
      case Some(i) => Some(i + 1)
  }

  datatype Target = Target(uri: string, rest: string)

  /** A link's target, between the first angle brackets, and its parameters behind it. */
  function TargetOf(value: string): Option<Target> {
    var text := SkipSpace(value);
    if text == "" || text[0] != '<' then None
    else match IndexOf(text[1..], '>')
      case None => None
      case Some(end) => Some(Target(text[1..][..end], text[1..][end + 1..]))
  }

  datatype Parameter = Parameter(name: string, value: string)

  /** The length of the name a parameter starts with. */
  function NameLength(text: string): (n: nat)
    ensures n <= |text|
  {
    if text == "" || text[0] == '=' || IsSpace(text[0]) then 0 else 1 + NameLength(text[1..])
  }

  function ParameterOf(part: string): Option<Parameter> {
    var text := SkipSpace(part);
    var n := NameLength(text);
    var rest := SkipSpace(text[n..]);
    if n == 0 || rest == "" || rest[0] != '=' then None
    else
      var value := TrimEnd(SkipSpace(rest[1..]));
      if exists i :: 0 <= i < |value| && IsLineBreak(value[i]) then None else Some(Parameter(text[..n], value))
  }

  /** What a quoted string says, given what follows its opening quote; nothing but space may follow it. */
  function Unquoted(text: string): Option<string> {
    if text == "" then None
    else if text[0] == '"' then if SkipSpace(text[1..]) == "" then Some("") else None
    else if text[0] == '\\' then
      if |text| == 1 || IsLineBreak(text[1]) then None
      else match Unquoted(text[2..])
        case None => None
        case Some(rest) => Some([text[1]] + rest)
    else match Unquoted(text[1..])
      case None => None
      case Some(rest) => Some([text[0]] + rest)
  }

  /** What a relation parameter's value says, quoted or bare. */
  function RelationOf(value: string): Option<string> {
    if value != "" && value[0] == '"' then Unquoted(value[1..])
    else if value != "" && forall i :: 0 <= i < |value| ==> !IsSpace(value[i]) && value[i] !in {';', ','} then Some(value)
    else None
  }

  /** The stretch of a relation before its first space. */
  function WordLength(text: string): (n: nat)
    ensures n <= |text| && forall i :: 0 <= i < n ==> !IsSpace(text[i])
    ensures n < |text| ==> IsSpace(text[n])
  {
    if text == "" || IsSpace(text[0]) then 0 else 1 + WordLength(text[1..])
  }

  lemma SkipSpaceShortens(text: string)
    ensures |SkipSpace(text)| <= |text|
  {
  }

  function Words(text: string): seq<string>
    decreases |text|
  {
    var n := WordLength(text);
    if n == |text| then [text]
    else
      SkipSpaceShortens(text[n + 1..]);
      [text[..n]] + Words(SkipSpace(text[n..]))
  }

  predicate OneIsNext(words: seq<string>) {
    exists k :: 0 <= k < |words| && SameFolded(words[k], "next")
  }

  predicate ListsNext(relation: string) {
    OneIsNext(Words(relation))
  }

  /** Whether a parameter is a relation that lists next. */
  predicate IsNext(part: string) {
    var parameter := ParameterOf(part);
    && parameter.Some? && SameFolded(parameter.value.name, "rel")
    && RelationOf(parameter.value.value).Some? && ListsNext(RelationOf(parameter.value.value).value)
  }

  /** Whether a link, as it stands between the commas, is a link to the next page. */
  predicate IsNextLink(value: string) {
    && TargetOf(value).Some?
    && exists k :: 0 <= k < |Parts(TargetOf(value).value.rest, ';', Outside)|
                   && IsNext(Parts(TargetOf(value).value.rest, ';', Outside)[k])
  }

  /** The target of the first of these that links to the next page. */
  function FirstNext(values: seq<string>): Option<string> {
    if |values| == 0 then None
    else if IsNextLink(values[0]) then Some(TargetOf(values[0]).value.uri)
    else FirstNext(values[1..])
  }

  /** The inner loop: whether one of a link's parameters is a relation that lists next. */
  method AnyNext(parameters: seq<string>) returns (found: bool)
    ensures found <==> exists k :: 0 <= k < |parameters| && IsNext(parameters[k])
  {
    for k := 0 to |parameters|
      invariant forall j :: 0 <= j < k ==> !IsNext(parameters[j])
    {
      var parameter := ParameterOf(parameters[k]);
      if parameter.None? || !SameFolded(parameter.value.name, "rel") {
        continue;
      }
      var relation := RelationOf(parameter.value.value);
      if relation.None? {
        continue;
      }
      if ListsNext(relation.value) {
        return true;
      }
    }
    return false;
  }

  method NextLink(header: Option<string>) returns (target: Option<string>)
    ensures target == FirstNext(Parts(if header.Some? then header.value else "", ',', Outside))
  {
    var values := SplitOutsideQuotes(if header.Some? then header.value else "", ',');
    for i := 0 to |values|
      invariant FirstNext(values) == FirstNext(values[i..])
    {
      var value := values[i];
      assert values[i..][1..] == values[i + 1..];
      var found := TargetOf(value);
      if found.None? {
        continue;
      }
      var parameters := SplitOutsideQuotes(found.value.rest, ';');
      var isNext := AnyNext(parameters);
      if isNext {
        return Some(found.value.uri);
      }
    }
    return None;
  }
}
