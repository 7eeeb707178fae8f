/**
 The generator's two walks over the schemas: out from the request bodies to everything they
 mention, and along a chain of aliases to a string. Names may repeat; the first schema of a name
 is the one it means.
 */
module SchemaGraph {
  import opened Wrappers

  datatype FieldType =
    | Text
    | SensitiveText
    | DateTime
    | Date
    | Bool
    | Int32
    | Int64
    | Json
    | Named(name: string)
    | List(inner: FieldType)
    | Map(inner: FieldType)

  datatype Field = Field(wireName: string, kind: FieldType)

  datatype Shape = Struct(fields: seq<Field>) | Alias(kind: FieldType)

  datatype Schema = Schema(name: string, shape: Shape, requestSide: bool)

  datatype Operation = Operation(id: string, body: Option<string>)

  datatype Service = Service(operations: seq<Operation>)

  function NameIn(kind: FieldType): Option<string> {
    match kind
    case Named(name) => Some(name)
    case List(inner) => NameIn(inner)
    case Map(inner) => NameIn(inner)
    case _ => None
  }

  datatype Layer = Listed | Mapped

  /** A type inside any layers of lists and maps. */
  function Wrapped(layers: seq<Layer>, kind: FieldType): FieldType {
    if |layers| == 0 then kind
    else if layers[0].Listed? then List(Wrapped(layers[1..], kind)) else Map(Wrapped(layers[1..], kind))
  }

  lemma {:induction false} NameInWrapped(layers: seq<Layer>, name: string)
    ensures NameIn(Wrapped(layers, Named(name))) == Some(name)
  {
    if |layers| > 0 {
      NameInWrapped(layers[1..], name);
    }
  }

  /** A type names a schema exactly when it is that name inside lists and maps, however many. */
  lemma {:induction false} NameInAnyDepth(kind: FieldType, name: string)
    ensures NameIn(kind) == Some(name) <==> exists layers :: kind == Wrapped(layers, Named(name))
  {
    if layers :| kind == Wrapped(layers, Named(name)) {
      NameInWrapped(layers, name);
    }
    match kind
    case List(inner) =>
      NameInAnyDepth(inner, name);
      if layers :| inner == Wrapped(layers, Named(name)) {
        assert ([Listed] + layers)[1..] == layers;
        assert kind == Wrapped([Listed] + layers, Named(name));
      }
    case Map(inner) =>
      NameInAnyDepth(inner, name);
      if layers :| inner == Wrapped(layers, Named(name)) {
        assert ([Mapped] + layers)[1..] == layers;
        assert kind == Wrapped([Mapped] + layers, Named(name));
      }
    case Named(other) =>
      assert kind == Wrapped([], Named(other));
    case _ =>
  }

  /** The schema a name means. */
  function FirstNamed(schemas: seq<Schema>, name: string): (i: Option<nat>)
    ensures i.Some? ==> i.value < |schemas| && schemas[i.value].name == name
    ensures i.Some? ==> forall j :: 0 <= j < i.value ==> schemas[j].name != name
    ensures i.None? ==> forall j :: 0 <= j < |schemas| ==> schemas[j].name != name
  {
    if |schemas| == 0 then None
    else
      var earlier := FirstNamed(schemas[..|schemas| - 1], name);
      if earlier.None? && schemas[|schemas| - 1].name == name then Some(|schemas| - 1) else earlier
  }

  // ---- what is on the request side ----

  ghost predicate IsBody(services: seq<Service>, name: string) {
    exists i, j :: 0 <= i < |services| && 0 <= j < |services[i].operations|
                   && services[i].operations[j].body == Some(name)
  }

  /** Whether a shape has `name` in it, however deep in lists and maps. */
  predicate Mentions(shape: Shape, name: string) {
    match shape
    case Struct(fields) => exists k :: 0 <= k < |fields| && NameIn(fields[k].kind) == Some(name)
    case Alias(kind) => NameIn(kind) == Some(name)
  }

  /** Whether the path leads from a request body, each name mentioned by the schema before it. */
  ghost predicate IsPath(schemas: seq<Schema>, services: seq<Service>, path: seq<string>) {
    && |path| > 0 && IsBody(services, path[0])
    && forall k :: 0 < k < |path| ==> Leads(schemas, path[k - 1], path[k])
  }

  predicate Leads(schemas: seq<Schema>, name: string, next: string) {
    var i := FirstNamed(schemas, name);
    i.Some? && Mentions(schemas[i.value].shape, next)
  }

  /** A name leads to those its schema has, in a field or as what it stands for, at any depth of lists and maps. */
  lemma LeadsExactly(schemas: seq<Schema>, name: string, next: string)
    ensures Leads(schemas, name, next) <==>
            exists i, layers ::
              && 0 <= i < |schemas| && schemas[i].name == name && (forall j :: 0 <= j < i ==> schemas[j].name != name)
              && Has(schemas[i].shape, Wrapped(layers, Named(next)))
  {
    var found := FirstNamed(schemas, name);
    if Leads(schemas, name, next) {
      var shape := schemas[found.value].shape;
      match shape
      case Struct(fields) =>
        var k :| 0 <= k < |fields| && NameIn(fields[k].kind) == Some(next);
        NameInAnyDepth(fields[k].kind, next);
        var layers :| fields[k].kind == Wrapped(layers, Named(next));
        assert Has(schemas[found.value].shape, Wrapped(layers, Named(next)));
      case Alias(kind) =>
        NameInAnyDepth(kind, next);
        var layers :| kind == Wrapped(layers, Named(next));
        assert Has(schemas[found.value].shape, Wrapped(layers, Named(next)));
    }
    if i, layers :|
      && 0 <= i < |schemas| && schemas[i].name == name && (forall j :: 0 <= j < i ==> schemas[j].name != name)
      && Has(schemas[i].shape, Wrapped(layers, Named(next)))
    {
      assert found == Some(i);
      NameInWrapped(layers, next);
    }
  }

  /** Whether a shape has a field of a type, or stands for it. */
  predicate Has(shape: Shape, kind: FieldType) {
    match shape
    case Struct(fields) => exists k :: 0 <= k < |fields| && fields[k].kind == kind
    case Alias(stands) => stands == kind
  }

  ghost predicate FromBody(schemas: seq<Schema>, services: seq<Service>, name: string) {
    exists path :: IsPath(schemas, services, path) && path[|path| - 1] == name
  }

  /** Whether marking is all that has happened to the schemas. */
  predicate OnlyMarked(before: seq<Schema>, now: seq<Schema>) {
    |now| == |before| && forall i :: 0 <= i < |now| ==> now[i].(requestSide := before[i].requestSide) == before[i]
  }

  lemma BodyIsFromBody(schemas: seq<Schema>, services: seq<Service>, name: string)
    requires IsBody(services, name)
    ensures FromBody(schemas, services, name)
  {
    assert IsPath(schemas, services, [name]);
  }

  lemma MentionedIsFromBody(schemas: seq<Schema>, services: seq<Service>, name: string, next: string)
    requires FromBody(schemas, services, name) && Leads(schemas, name, next)
    ensures FromBody(schemas, services, next)
  {
    var path :| IsPath(schemas, services, path) && path[|path| - 1] == name;
    assert IsPath(schemas, services, path + [next]);
  }

  /** A set of names that has the bodies and whatever its names lead to has every name there is. */
  lemma {:induction false} ClosedHasPath(schemas: seq<Schema>, services: seq<Service>, names: set<string>,
        path: seq<string>)
    requires forall name :: IsBody(services, name) ==> name in names
    requires forall name, next :: name in names && Leads(schemas, name, next) ==> next in names
    requires IsPath(schemas, services, path)
    ensures path[|path| - 1] in names
  {
    if |path| > 1 {
      ClosedHasPath(schemas, services, names, path[..|path| - 1]);
      assert Leads(schemas, path[|path| - 2], path[|path| - 1]);
    }
  }

  method BodiesOf(services: seq<Service>) returns (bodies: seq<string>)
    ensures forall name :: name in bodies <==> IsBody(services, name)
  {
    bodies := [];
    for i := 0 to |services|
      invariant forall name :: name in bodies <==> IsBody(services[..i], name)
    {
      var operations := services[i].operations;
      ghost var earlier := bodies;
      for j := 0 to |operations|
        invariant forall name :: name in bodies <==>
                    name in earlier || exists k :: 0 <= k < j && operations[k].body == Some(name)
      {
        if operations[j].body.Some? {
          bodies := bodies + [operations[j].body.value];
        }
      }
    }
    assert services[..|services|] == services;
  }

  method NamesIn(shape: Shape) returns (names: seq<string>)
    ensures forall name :: name in names <==> Mentions(shape, name)
  {
    names := [];
    match shape
    case Struct(fields) =>
      for k := 0 to |fields|
        invariant forall name :: name in names <==> Mentions(Struct(fields[..k]), name)
      {
        var named := NameIn(fields[k].kind);
        if named.Some? {
          names := names + [named.value];
        }
      }
      assert fields[..|fields|] == fields;
    case Alias(kind) =>
      var named := NameIn(kind);
      if named.Some? {
        names := [named.value];
      }
  }

  ghost function NameSet(shape: Shape): (names: set<string>)
    ensures forall name :: name in names <==> Mentions(shape, name)
  {
    match shape
    case Struct(fields) =>
      set k | 0 <= k < |fields| && NameIn(fields[k].kind).Some? :: NameIn(fields[k].kind).value
    case Alias(kind) =>
      var named := NameIn(kind);
      if named.Some? then {named.value} else {}
  }

  /** The names a walk can come across. */
  ghost function Universe(schemas: seq<Schema>, bodies: seq<string>): (names: set<string>)
    ensures forall name :: name in bodies ==> name in names
    ensures forall i, name :: 0 <= i < |schemas| && Mentions(schemas[i].shape, name) ==> name in names
  {
    if |schemas| == 0 then set name | name in bodies
    else Universe(schemas[..|schemas| - 1], bodies) + NameSet(schemas[|schemas| - 1].shape)
  }

  /** A walk never has a name pending that is not in its universe. */
  lemma PendingIsKnown(schemas: seq<Schema>, services: seq<Service>, bodies: seq<string>, seen: set<string>,
        rest: seq<string>, name: string)
    requires Walked(schemas, services, seen, rest + [name])
    requires forall body :: IsBody(services, body) ==> body in bodies
    ensures name in Universe(schemas, bodies)
  {
    assert name in rest + [name];
    var path :| IsPath(schemas, services, path) && path[|path| - 1] == name;
    if |path| > 1 {
      assert Leads(schemas, path[|path| - 2], name);
    }
  }

  lemma FirstNamedUnmarked(before: seq<Schema>, now: seq<Schema>, name: string)
    requires OnlyMarked(before, now)
    ensures FirstNamed(now, name) == FirstNamed(before, name)
  {
  }

  /** What a walk that has seen some names and has others pending has found out. */
  ghost predicate Walked(schemas: seq<Schema>, services: seq<Service>, seen: set<string>, pending: seq<string>) {
    && (forall name :: name in seen || name in pending ==> FromBody(schemas, services, name))
    && (forall name :: IsBody(services, name) ==> name in seen || name in pending)
    && (forall name, next :: name in seen && Leads(schemas, name, next) ==> next in seen || next in pending)
  }

  lemma WalkBegins(schemas: seq<Schema>, services: seq<Service>, bodies: seq<string>)
    requires forall name :: name in bodies <==> IsBody(services, name)
    ensures Walked(schemas, services, {}, bodies)
  {
    forall name | IsBody(services, name) ensures FromBody(schemas, services, name) {
      BodyIsFromBody(schemas, services, name);
    }
  }

  lemma WalkGoesOn(schemas: seq<Schema>, services: seq<Service>, seen: set<string>, rest: seq<string>,
        name: string, names: seq<string>)
    requires Walked(schemas, services, seen, rest + [name])
    requires forall next :: next in names <==> Leads(schemas, name, next)
    ensures Walked(schemas, services, seen + {name}, rest + names)
  {
    assert name in rest + [name];
    forall next | next in names ensures FromBody(schemas, services, next) {
      MentionedIsFromBody(schemas, services, name, next);
    }
  }

  /** A walk with nothing pending has seen exactly what the bodies lead to. */
  lemma WalkEnds(schemas: seq<Schema>, services: seq<Service>, seen: set<string>, name: string)
    requires Walked(schemas, services, seen, [])
    ensures FromBody(schemas, services, name) <==> name in seen
  {
    if FromBody(schemas, services, name) {
      var path :| IsPath(schemas, services, path) && path[|path| - 1] == name;
      ClosedHasPath(schemas, services, seen, path);
    }
  }

  /** The one schema a marked name marks. */
  predicate MarkedBy(before: seq<Schema>, now: seq<Schema>, seen: set<string>)
    requires |before| == |now|
  {
    forall i :: 0 <= i < |now| ==>
      (now[i].requestSide <==>
        before[i].requestSide || (before[i].name in seen && FirstNamed(before, before[i].name) == Some(i)))
  }

  /** Marks the schema a name means, if there is one, and lists the names it mentions. */
  method Mark(schemas: array<Schema>, name: string, ghost before: seq<Schema>, ghost seen: set<string>)
    returns (names: seq<string>)
    requires OnlyMarked(before, schemas[..]) && MarkedBy(before, schemas[..], seen)
    modifies schemas
    ensures OnlyMarked(before, schemas[..]) && MarkedBy(before, schemas[..], seen + {name})
    ensures forall next :: next in names <==> Leads(before, name, next)
  {
    names := [];
    var found := FirstNamed(schemas[..], name);
    FirstNamedUnmarked(before, schemas[..], name);
    if found.Some? {
      schemas[found.value] := schemas[found.value].(requestSide := true);
      names := NamesIn(schemas[found.value].shape);
    }
  }

  /** A schema is marked exactly when it is the one its name means and a body leads to that name. */
  ghost predicate RequestSideMarked(before: seq<Schema>, now: seq<Schema>, services: seq<Service>)
    requires |before| == |now|
  {
    forall i :: 0 <= i < |now| ==>
      (now[i].requestSide <==>
        before[i].requestSide
        || (FirstNamed(before, before[i].name) == Some(i) && FromBody(before, services, before[i].name)))
  }

  lemma WalkMarks(before: seq<Schema>, now: seq<Schema>, services: seq<Service>, seen: set<string>)
    requires |before| == |now| && Walked(before, services, seen, []) && MarkedBy(before, now, seen)
    ensures RequestSideMarked(before, now, services)
  {
    forall i | 0 <= i < |now| ensures FromBody(before, services, before[i].name) <==> before[i].name in seen {
      WalkEnds(before, services, seen, before[i].name);
    }
  }

  lemma LastApart(names: seq<string>)
    requires |names| > 0
    ensures names == names[..|names| - 1] + [names[|names| - 1]]
  {
  }

  /** One step of the walk: a name seen before is passed over, a new one marks its schema. */
  method Visit(schemas: array<Schema>, name: string, rest: seq<string>, seen: set<string>,
               ghost before: seq<Schema>, ghost services: seq<Service>)
    returns (nowSeen: set<string>, pending: seq<string>)
    requires OnlyMarked(before, schemas[..]) && MarkedBy(before, schemas[..], seen)
    requires Walked(before, services, seen, rest + [name])
    modifies schemas
    ensures OnlyMarked(before, schemas[..]) && MarkedBy(before, schemas[..], nowSeen)
    ensures Walked(before, services, nowSeen, pending)
    ensures nowSeen == seen + {name} && (name in seen ==> pending == rest)
  {
    if name in seen {
      nowSeen, pending := seen, rest;
    } else {
      var names := Mark(schemas, name, before, seen);
      WalkGoesOn(before, services, seen, rest, name, names);
      nowSeen, pending := seen + {name}, rest + names;
    }
  }

  /** Walks out from every request body, marking what it comes to. */
  method MarkRequestSide(schemas: array<Schema>, services: seq<Service>)
    modifies schemas
    ensures OnlyMarked(old(schemas[..]), schemas[..])
    ensures RequestSideMarked(old(schemas[..]), schemas[..], services)
  {
    ghost var before := schemas[..];
    var pending := BodiesOf(services);
    ghost var bodies := pending;
    WalkBegins(before, services, pending);
    var seen: set<string> := {};
    while |pending| > 0
      invariant OnlyMarked(before, schemas[..]) && MarkedBy(before, schemas[..], seen)
      invariant Walked(before, services, seen, pending)
      decreases Universe(before, bodies) - seen, |pending|
    {
      var name := pending[|pending| - 1];
      var rest := pending[..|pending| - 1];
      LastApart(pending);
      PendingIsKnown(before, services, bodies, seen, rest, name);
      seen, pending := Visit(schemas, name, rest, seen, before, services);
    }
    WalkMarks(before, schemas[..], services, seen);
  }

  // ---- what resolves to a string ----

  /** Whether following `steps` aliases from `name` comes to one of a string. */
  predicate StringAfter(schemas: seq<Schema>, name: string, steps: nat)
    decreases steps
  {
    var i := FirstNamed(schemas, name);
    && i.Some? && schemas[i.value].shape.Alias?
    && (if steps == 0 then schemas[i.value].shape.kind.Text?
        else schemas[i.value].shape.kind.Named? && StringAfter(schemas, schemas[i.value].shape.kind.name, steps - 1))
  }

  ghost predicate IsString(schemas: seq<Schema>, name: string) {
    exists steps :: StringAfter(schemas, name, steps)
  }

  /** A chain of aliases comes to a string once. */
  lemma {:induction false} StringAfterOnce(schemas: seq<Schema>, name: string, j: nat, k: nat)
    requires StringAfter(schemas, name, j) && StringAfter(schemas, name, k)
    ensures j == k
    decreases j
  {
    if j > 0 && k > 0 {
      StringAfterOnce(schemas, schemas[FirstNamed(schemas, name).value].shape.kind.name, j - 1, k - 1);
    }
  }

  /** The schemas a chain that comes to a string passes through. */
  ghost function Passed(schemas: seq<Schema>, name: string, steps: nat): set<nat>
    requires StringAfter(schemas, name, steps)
    decreases steps
  {
    var i := FirstNamed(schemas, name).value;
    {i} + if steps == 0 then {} else Passed(schemas, schemas[i].shape.kind.name, steps - 1)
  }

  /** Every schema passed through comes to the string in its own, smaller, number of steps. */
  lemma {:induction false} PassedOn(schemas: seq<Schema>, name: string, steps: nat, i: nat) returns (left: nat)
    requires StringAfter(schemas, name, steps) && i in Passed(schemas, name, steps)
    ensures i < |schemas| && left <= steps && StringAfter(schemas, schemas[i].name, left)
    decreases steps
  {
    var first := FirstNamed(schemas, name).value;
    if i == first {
      left := steps;
    } else {
      left := PassedOn(schemas, schemas[first].shape.kind.name, steps - 1, i);
    }
  }

  /** A chain passes through a new schema at each step. */
  lemma {:induction false} PassedAreMany(schemas: seq<Schema>, name: string, steps: nat)
    requires StringAfter(schemas, name, steps)
    ensures |Passed(schemas, name, steps)| == steps + 1
    decreases steps
  {
    if steps > 0 {
      var first := FirstNamed(schemas, name).value;
      var next := schemas[first].shape.kind.name;
      PassedAreMany(schemas, next, steps - 1);
      if first in Passed(schemas, next, steps - 1) {
        var left := PassedOn(schemas, next, steps - 1, first);
        StringAfterOnce(schemas, name, left, steps);
      }
    }
  }

  /** A chain is never longer than there are schemas. */
  lemma ChainsAreShort(schemas: seq<Schema>, name: string, steps: nat)
    requires StringAfter(schemas, name, steps)
    ensures steps < |schemas|
  {
    PassedAreMany(schemas, name, steps);
    forall i | i in Passed(schemas, name, steps) ensures i < |schemas| {
      var _ := PassedOn(schemas, name, steps, i);
    }
    SubsetIsNoLarger(Passed(schemas, name, steps), Below(|schemas|));
  }

  ghost function Below(n: nat): (numbers: set<nat>)
    ensures |numbers| == n
    ensures forall i: nat :: i in numbers <==> i < n
  {
    if n == 0 then {} else Below(n - 1) + {n - 1}
  }

  lemma {:induction false} SubsetIsNoLarger(a: set<nat>, b: set<nat>)
    requires a <= b
    ensures |a| <= |b|
  {
    if a != {} {
      var x :| x in a;
      SubsetIsNoLarger(a - {x}, b - {x});
    }
  }

  /** Whether the path goes from the schema a name means, alias by alias, to one of a string. */
  predicate IsAliasPath(schemas: seq<Schema>, name: string, path: seq<nat>) {
    && |path| > 0 && (forall k :: 0 <= k < |path| ==> path[k] < |schemas|)
    && FirstNamed(schemas, name) == Some(path[0])
    && schemas[path[|path| - 1]].shape == Alias(Text)
    && forall k :: 0 <= k < |path| - 1 ==>
         && schemas[path[k]].shape.Alias? && schemas[path[k]].shape.kind.Named?
         && FirstNamed(schemas, schemas[path[k]].shape.kind.name) == Some(path[k + 1])
  }

  lemma {:induction false} StringAfterPath(schemas: seq<Schema>, name: string, path: seq<nat>)
    requires IsAliasPath(schemas, name, path)
    ensures StringAfter(schemas, name, |path| - 1)
    decreases |path|
  {
    if |path| > 1 {
      var next := schemas[path[0]].shape.kind.name;
      assert IsAliasPath(schemas, next, path[1..]);
      StringAfterPath(schemas, next, path[1..]);
    }
  }

  lemma {:induction false} PathOfString(schemas: seq<Schema>, name: string, steps: nat) returns (path: seq<nat>)
    requires StringAfter(schemas, name, steps)
    ensures |path| == steps + 1 && IsAliasPath(schemas, name, path)
    decreases steps
  {
    var i := FirstNamed(schemas, name).value;
    if steps == 0 {
      path := [i];
    } else {
      var rest := PathOfString(schemas, schemas[i].shape.kind.name, steps - 1);
      path := [i] + rest;
    }
  }

  /** A name is a string exactly when some path of aliases leads from it to one. */
  lemma IsStringByPath(schemas: seq<Schema>, name: string)
    ensures IsString(schemas, name) <==> exists path :: IsAliasPath(schemas, name, path)
  {
    if IsString(schemas, name) {
      var steps :| StringAfter(schemas, name, steps);
      var path := PathOfString(schemas, name, steps);
    }
    if path :| IsAliasPath(schemas, name, path) {
      StringAfterPath(schemas, name, path);
    }
  }

  /** As many looks as there are schemas, and one, are enough to tell whether a name is a string. */
  method ResolvesToString(schemas: seq<Schema>, name: string) returns (answer: bool)
    ensures answer <==> IsString(schemas, name)
  {
    var current := name;
    for look := 0 to |schemas| + 1
      invariant forall k: nat :: StringAfter(schemas, name, k) <==> k >= look && StringAfter(schemas, current, k - look)
    {
      var found := FirstNamed(schemas, current);
      assert StringAfter(schemas, name, look) <==> StringAfter(schemas, current, 0);
      if found.Some? && schemas[found.value].shape.Alias? && schemas[found.value].shape.kind.Text? {
        return true;
      } else if found.Some? && schemas[found.value].shape.Alias? && schemas[found.value].shape.kind.Named? {
        current := schemas[found.value].shape.kind.name;
      } else {
        return false;
      }
    }
    forall k: nat ensures !StringAfter(schemas, name, k) {
      if StringAfter(schemas, name, k) {
        ChainsAreShort(schemas, name, k);
      }
    }
    return false;
  }
}
