/**
 Schemas reachable through `$ref` (section 4.7.23 of the OpenAPI Specification 3.0.3), computed by two
 different worklists: one keeps a set of names to process, the other a stack.
 */
module SchemaReferences {
  import opened Json
  import opened Wrappers

  const MARKER := "#/components/schemas/"

  predicate LineBreak(c: char) {
    c == '\n' || c == '\r' || c == '\U{2028}' || c == '\U{2029}'
  }

  /** What the pattern .+ takes from the start of a string. */
  function FirstLine(s: string): string {
    if s == "" || LineBreak(s[0]) then "" else [s[0]] + FirstLine(s[1..])
  }

  /** The name captured at the leftmost marker that is followed by one. */
  function RefTarget(s: string): Option<string> {
    if |s| < |MARKER| then None
    else if MARKER <= s && FirstLine(s[|MARKER|..]) != "" then Some(FirstLine(s[|MARKER|..]))
    else RefTarget(s[1..])
  }

  lemma {:induction false} FirstLineOfOneLine(s: string)
    requires forall i :: 0 <= i < |s| ==> !LineBreak(s[i])
    ensures FirstLine(s) == s
  {
    if s != "" {
      FirstLineOfOneLine(s[1..]);
    }
  }

  /** A reference written for a schema name leads back to that name. */
  lemma RefTargetRoundTrip(name: string)
    requires name != "" && forall i :: 0 <= i < |name| ==> !LineBreak(name[i])
    ensures RefTarget("#/components/schemas/" + name) == Some(name)
  {
    assert (MARKER + name)[|MARKER|..] == name;
    FirstLineOfOneLine(name);
  }

  /** A reference ends with its line. */
  lemma ReferenceEndsWithItsLine(name: string, c: char, rest: string)
    requires name != "" && forall i :: 0 <= i < |name| ==> !LineBreak(name[i])
    requires c == '\n' || c == '\r' || c == '\U{2028}' || c == '\U{2029}'
    ensures RefTarget("#/components/schemas/" + name + [c] + rest) == Some(name)
  {
    var line := name + [c] + rest;
    assert MARKER + name + [c] + rest == MARKER + line;
    assert (MARKER + line)[|MARKER|..] == line;
    FirstLineIs(line);
    var first := FirstLine(line);
    assert line[|name|] == c && forall i :: 0 <= i < |name| ==> line[i] == name[i];
    assert |first| == |name|;
    assert first == name;
  }

  /** A reference starts at a position: the marker is there, followed by a character that is no line break. */
  ghost predicate MarkedAt(s: string, i: nat) {
    i + |MARKER| < |s| && s[i..i + |MARKER|] == MARKER && !LineBreak(s[i + |MARKER|])
  }

  lemma {:induction false} FirstLineIs(s: string)
    ensures var line := FirstLine(s);
      && line <= s && (forall i :: 0 <= i < |line| ==> !LineBreak(line[i]))
      && (|line| < |s| ==> LineBreak(s[|line|]))
  {
    if s != "" && !LineBreak(s[0]) {
      FirstLineIs(s[1..]);
    }
  }

  /** A string refers to the rest of the line after its leftmost marked position, and to nothing if it has none. */
  lemma {:induction false} RefTargetIsLeftmost(s: string)
    ensures RefTarget(s).None? <==> forall i: nat :: !MarkedAt(s, i)
    ensures forall i: nat :: MarkedAt(s, i) && (forall k: nat :: k < i ==> !MarkedAt(s, k)) ==>
              RefTarget(s) == Some(FirstLine(s[i + |MARKER|..]))
  {
    MarkedFirst(s);
    if s != "" {
      RefTargetIsLeftmost(s[1..]);
      forall i: nat ensures MarkedAt(s, i + 1) <==> MarkedAt(s[1..], i) {
        MarkedLater(s, i);
      }
      forall i: nat | MarkedAt(s, i) && forall k: nat :: k < i ==> !MarkedAt(s, k)
        ensures RefTarget(s) == Some(FirstLine(s[i + |MARKER|..]))
      {
        if i > 0 {
          assert MarkedAt(s[1..], i - 1);
          assert forall k: nat :: k < i - 1 ==> (MarkedAt(s[1..], k) <==> MarkedAt(s, k + 1));
          assert s[1..][i - 1 + |MARKER|..] == s[i + |MARKER|..];
        }
      }
      if RefTarget(s).None? {
        forall i: nat ensures !MarkedAt(s, i) {
          if i > 0 {
            assert MarkedAt(s, i - 1 + 1) <==> MarkedAt(s[1..], i - 1);
          }
        }
      }
      if forall i: nat :: !MarkedAt(s, i) {
        forall i: nat ensures !MarkedAt(s[1..], i) {
          assert !MarkedAt(s, i + 1);
        }
      }
    }
  }

  lemma MarkedFirst(s: string)
    ensures MarkedAt(s, 0) <==> |s| >= |MARKER| && MARKER <= s && FirstLine(s[|MARKER|..]) != ""
  {
    if |s| >= |MARKER| {
      assert s[0..|MARKER|] == s[..|MARKER|];
      assert MARKER <= s <==> s[..|MARKER|] == MARKER;
    }
  }

  lemma MarkedLater(s: string, i: nat)
    requires s != ""
    ensures MarkedAt(s, i + 1) <==> MarkedAt(s[1..], i)
  {
    if i + 1 + |MARKER| < |s| {
      assert s[1..][i..i + |MARKER|] == s[i + 1..i + 1 + |MARKER|];
    }
  }

  /** The schema names a value refers to, at any depth. */
  function Refs(j: Json): set<string> {
    match j
    case Arr(items) => set i, r | 0 <= i < |items| && r in Refs(items[i]) :: r
    case Obj(fields) => OwnRef(fields) + set k, r | k in fields && r in Refs(fields[k]) :: r
    case _ => {}
  }

  function OwnRef(fields: map<string, Json>): set<string> {
    if "$ref" !in fields || !fields["$ref"].Str? then {}
    else
      match RefTarget(fields["$ref"].s)
      case None => {}
      case Some(name) => {name}
  }

  /** One step into a value: a field of an object, or an item of an array. */
  datatype Hop = Field(name: string) | Item(index: nat)

  /** What lies at the end of a path, if the path leads anywhere. */
  function Follow(j: Json, path: seq<Hop>): Option<Json>
    decreases path
  {
    if path == [] then Some(j)
    else
      match path[0]
      case Field(name) => if j.Obj? && name in j.fields then Follow(j.fields[name], path[1..]) else None
      case Item(index) => if j.Arr? && index < |j.items| then Follow(j.items[index], path[1..]) else None
  }

  /** The path leads to an object whose $ref is a string that refers to this name. */
  ghost predicate RefersAt(j: Json, path: seq<Hop>, name: string) {
    && Follow(j, path).Some?
    && var end := Follow(j, path).value;
    && end.Obj? && "$ref" in end.fields && end.fields["$ref"].Str? && RefTarget(end.fields["$ref"].s) == Some(name)
  }

  lemma {:induction false} ReferenceIsSomewhere(j: Json, name: string) returns (path: seq<Hop>)
    requires name in Refs(j)
    ensures RefersAt(j, path, name)
    decreases j
  {
    match j
    case Arr(items) =>
      var i :| 0 <= i < |items| && name in Refs(items[i]);
      var rest := ReferenceIsSomewhere(items[i], name);
      path := [Item(i)] + rest;
      assert path[1..] == rest;
    case Obj(fields) =>
      if name in OwnRef(fields) {
        path := [];
      } else {
        var k :| k in fields && name in Refs(fields[k]);
        var rest := ReferenceIsSomewhere(fields[k], name);
        path := [Field(k)] + rest;
        assert path[1..] == rest;
      }
  }

  lemma {:induction false} ReferenceIsCollected(j: Json, path: seq<Hop>, name: string)
    requires RefersAt(j, path, name)
    ensures name in Refs(j)
    decreases path
  {
    if path == [] {
      assert name in OwnRef(j.fields);
    } else {
      match path[0]
      case Field(k) => ReferenceIsCollected(j.fields[k], path[1..], name);
      case Item(i) => ReferenceIsCollected(j.items[i], path[1..], name);
    }
  }

  /** A value refers to a name exactly when some path through its fields and items leads to such a reference. */
  lemma RefsAreAlongPaths(j: Json, name: string)
    ensures name in Refs(j) <==> exists path :: RefersAt(j, path, name)
  {
    if name in Refs(j) {
      var path := ReferenceIsSomewhere(j, name);
    }
    if path :| RefersAt(j, path, name) {
      ReferenceIsCollected(j, path, name);
    }
  }

  type Schemas = map<string, Json>

  predicate Present(all: Schemas, name: string) {
    name in all && Truthy(all[name])
  }

  // ----- reachability -----

  /** Each name is a present schema that refers to the next one. */
  ghost predicate Chain(all: Schemas, names: seq<string>) {
    |names| > 1 ==>
      var init, last := names[..|names| - 1], names[|names| - 1];
      Chain(all, init) && Present(all, init[|init| - 1]) && last in Refs(all[init[|init| - 1]])
  }

  ghost predicate ReachableBy(all: Schemas, roots: set<string>, name: string, names: seq<string>) {
    names != [] && Chain(all, names) && names[0] in roots && names[|names| - 1] == name
  }

  ghost predicate Reachable(all: Schemas, roots: set<string>, name: string) {
    exists names :: ReachableBy(all, roots, name, names)
  }

  ghost function Mentioned(all: Schemas, roots: set<string>): set<string> {
    roots + set n, r | n in all && r in Refs(all[n]) :: r
  }

  /** Every reachable name, whether or not the document defines it. */
  ghost function Reach(all: Schemas, roots: set<string>): set<string> {
    set n | n in Mentioned(all, roots) && Reachable(all, roots, n)
  }

  ghost predicate Closed(all: Schemas, roots: set<string>, names: set<string>) {
    roots <= names && forall n :: n in names && Present(all, n) ==> Refs(all[n]) <= names
  }

  lemma RootIsReachable(all: Schemas, roots: set<string>, root: string)
    requires root in roots
    ensures root in Reach(all, roots)
  {
    assert ReachableBy(all, roots, root, [root]);
  }

  lemma ReferenceIsReachable(all: Schemas, roots: set<string>, n: string, r: string)
    requires n in Reach(all, roots) && Present(all, n) && r in Refs(all[n])
    ensures r in Reach(all, roots)
  {
    var names :| ReachableBy(all, roots, n, names);
    assert ReachableBy(all, roots, r, names + [r]);
  }

  lemma {:induction false} ChainStaysInside(all: Schemas, roots: set<string>, names: seq<string>, inside: set<string>)
    requires names != [] && Chain(all, names) && names[0] in roots && Closed(all, roots, inside)
    ensures names[|names| - 1] in inside
  {
    if |names| > 1 {
      ChainStaysInside(all, roots, names[..|names| - 1], inside);
    }
  }

  /** The reachable names hold the roots and whatever the present ones among them refer to. */
  lemma ReachIsClosed(all: Schemas, roots: set<string>)
    ensures Closed(all, roots, Reach(all, roots))
  {
    forall root | root in roots ensures root in Reach(all, roots) {
      RootIsReachable(all, roots, root);
    }
    forall n, r | n in Reach(all, roots) && Present(all, n) && r in Refs(all[n]) ensures r in Reach(all, roots) {
      ReferenceIsReachable(all, roots, n, r);
    }
  }

  lemma ReachIsInside(all: Schemas, roots: set<string>, inside: set<string>)
    requires Closed(all, roots, inside)
    ensures Reach(all, roots) <= inside
  {
    forall n | n in Reach(all, roots) ensures n in inside {
      var names :| ReachableBy(all, roots, n, names);
      ChainStaysInside(all, roots, names, inside);
    }
  }

  ghost predicate LeastClosed(all: Schemas, roots: set<string>, names: set<string>) {
    && Closed(all, roots, names)
    && forall inside: set<string> :: Closed(all, roots, inside) ==> names <= inside
  }

  /** The reachable names are the least fixpoint: closed under references, and inside every closed set. */
  lemma ReachIsLeastClosed(all: Schemas, roots: set<string>)
    ensures LeastClosed(all, roots, Reach(all, roots))
  {
    ReachIsClosed(all, roots);
    forall inside: set<string> | Closed(all, roots, inside) ensures Reach(all, roots) <= inside {
      ReachIsInside(all, roots, inside);
    }
  }

  lemma ReachHoldsTheReachable(all: Schemas, roots: set<string>, name: string)
    ensures name in Reach(all, roots) <==> Reachable(all, roots, name)
  {
    if Reachable(all, roots, name) {
      var names :| ReachableBy(all, roots, name, names);
      ReachIsClosed(all, roots);
      ChainStaysInside(all, roots, names, Reach(all, roots));
    }
  }

  /** The present schemas among the given names. */
  function Restrict(all: Schemas, names: set<string>): Schemas {
    map n | n in names && Present(all, n) :: all[n]
  }

  lemma ClosedInRestricted(all: Schemas, kept: set<string>, roots: set<string>, names: set<string>)
    requires Closed(all, roots, names)
    ensures Closed(Restrict(all, kept), roots, names)
  {
  }

  lemma ClosedOutsideRestricted(all: Schemas, kept: set<string>, roots: set<string>, names: set<string>)
    requires Closed(Restrict(all, kept), roots, names) && names <= kept
    ensures Closed(all, roots, names)
  {
    forall n | n in names && Present(all, n) ensures Refs(all[n]) <= names {
      assert Present(Restrict(all, kept), n);
    }
  }

  lemma LeastInsideRestricted(all: Schemas, few: set<string>, many: set<string>, wide: set<string>,
                              narrow: set<string>, inner: set<string>)
    requires few <= many && Closed(all, many, wide)
    requires LeastClosed(all, few, narrow) && LeastClosed(Restrict(all, wide), few, inner)
    ensures narrow == inner && narrow <= wide
  {
    assert Closed(all, few, wide);
    ClosedInRestricted(all, wide, few, narrow);
    ClosedOutsideRestricted(all, wide, few, inner);
  }

  lemma RestrictTwice(all: Schemas, wide: set<string>, narrow: set<string>)
    requires narrow <= wide
    ensures Restrict(Restrict(all, wide), narrow) == Restrict(all, narrow)
  {
  }

  /**
   Fewer roots reach the same names in a table already restricted to what more roots reach, so filtering
   by reachability twice is filtering once.
   */
  lemma ReachInsideRestricted(all: Schemas, few: set<string>, many: set<string>)
    requires few <= many
    ensures Reach(Restrict(all, Reach(all, many)), few) == Reach(all, few) <= Reach(all, many)
  {
    var wide := Reach(all, many);
    ReachIsLeastClosed(all, many);
    ReachIsLeastClosed(all, few);
    ReachIsLeastClosed(Restrict(all, wide), few);
    LeastInsideRestricted(all, few, many, wide, Reach(all, few), Reach(Restrict(all, wide), few));
  }

  // ----- the services' code -----

  /** Adds to `found` every name a value refers to, by walking it. */
  method CollectRefs(obj: Json, found: set<string>) returns (r: set<string>)
    ensures r == found + Refs(obj)
    decreases obj
  {
    r := found;
    match obj
    case Arr(items) =>
      for i := 0 to |items|
        invariant forall n :: n in r <==> n in found || InItems(items, i, n)
      {
        r := CollectRefs(items[i], r);
        assert forall n :: InItems(items, i + 1, n) <==> InItems(items, i, n) || n in Refs(items[i]);
      }
      assert forall n :: n in Refs(obj) <==> InItems(items, |items|, n);
    case Obj(fields) =>
      if "$ref" in fields && fields["$ref"].Str? {
        var target := RefTarget(fields["$ref"].s);
        if target.Some? {
          r := r + {target.value};
        }
      }
      var todo := fields.Keys;
      while todo != {}
        invariant todo <= fields.Keys
        invariant forall n :: n in r <==> n in found || n in OwnRef(fields) || InFields(fields, todo, n)
        decreases |todo|
      {
        var key :| key in todo;
        r := CollectRefs(fields[key], r);
        assert forall n :: InFields(fields, todo - {key}, n) <==> InFields(fields, todo, n) || n in Refs(fields[key]);
        todo := todo - {key};
      }
      assert forall n :: n in Refs(obj) <==> n in OwnRef(fields) || InFields(fields, {}, n);
    case _ =>
      assert Refs(obj) == {};
  }

  /** One of the first `count` items refers to the name. */
  ghost predicate InItems(items: seq<Json>, count: nat, name: string)
    requires count <= |items|
  {
    exists k :: 0 <= k < count && name in Refs(items[k])
  }

  /** Some field outside `todo` refers to the name. */
  ghost predicate InFields(fields: map<string, Json>, todo: set<string>, name: string) {
    exists k :: k in fields && k !in todo && name in Refs(fields[k])
  }

  method ExtractSchemaRefs(obj: Json) returns (refs: set<string>)
    ensures refs == Refs(obj)
  {
    refs := CollectRefs(obj, {});
  }

  /** The set worklist: without a schema table, just the names referred to; with one, the present ones reached. */
  method CollectUsedSchemas(paths: Json, allSchemas: Option<Schemas>) returns (used: set<string>)
    ensures allSchemas.None? ==> used == Refs(paths)
    ensures allSchemas.Some? ==> used == Restrict(allSchemas.value, Reach(allSchemas.value, Refs(paths))).Keys
  {
    var schemasToProcess := CollectRefs(paths, {});
    if allSchemas.None? {
      return schemasToProcess;
    }
    var all := allSchemas.value;
    ghost var reach := Reach(all, Refs(paths));
    ReachIsLeastClosed(all, Refs(paths));
    used := ProcessSchemas(all, schemasToProcess, reach);
    PresentPartIsReached(all, Refs(paths), used, reach);
  }

  lemma PresentPartIsReached(all: Schemas, roots: set<string>, used: set<string>, reach: set<string>)
    requires LeastClosed(all, roots, reach)
    requires used <= reach && forall n :: n in used ==> Present(all, n)
    requires forall n :: n in roots && Present(all, n) ==> n in used
    requires forall n, r :: n in used && r in Refs(all[n]) && Present(all, r) ==> r in used
    ensures used == Restrict(all, reach).Keys
  {
    var absent := set n | n in reach && !Present(all, n);
    assert Closed(all, roots, used + absent);
  }

  method ProcessSchemas(all: Schemas, roots: set<string>, ghost reach: set<string>) returns (used: set<string>)
    requires Closed(all, roots, reach)
    ensures used <= reach && forall n :: n in used ==> Present(all, n)
    ensures forall n :: n in roots && Present(all, n) ==> n in used
    ensures forall n, r :: n in used && r in Refs(all[n]) && Present(all, r) ==> r in used
  {
    used := {};
    var todo := roots;
    while todo != {}
      invariant used <= reach && todo <= reach && forall n :: n in used ==> Present(all, n)
      invariant forall n :: n in roots && Present(all, n) ==> n in used || n in todo
      invariant forall n, r :: n in used && r in Refs(all[n]) && Present(all, r) ==> r in used || r in todo
      decreases |all.Keys - used|, |todo|
    {
      var candidate :| candidate in todo;
      todo := todo - {candidate};
      if candidate in used || !Present(all, candidate) {
        continue;
      }
      assert all.Keys - (used + {candidate}) == (all.Keys - used) - {candidate};
      used := used + {candidate};
      todo := CollectRefs(all[candidate], todo);
    }
  }

  method Listed(names: set<string>) returns (list: seq<string>)
    ensures forall n :: n in list <==> n in names
  {
    list := [];
    var todo := names;
    while todo != {}
      invariant todo <= names
      invariant forall n :: n in list <==> n in names && n !in todo
      decreases |todo|
    {
      var n :| n in todo;
      list, todo := list + [n], todo - {n};
    }
  }

  /** The stack worklist, started from names already in use: missing names are collected too. */
  method CloseUnderReferences(allSchemas: Schemas, usedSchemas: set<string>) returns (finalUsed: set<string>)
    ensures finalUsed == Reach(allSchemas, usedSchemas)
  {
    ghost var reach := Reach(allSchemas, usedSchemas);
    ReachIsLeastClosed(allSchemas, usedSchemas);
    finalUsed := DrainStack(allSchemas, usedSchemas, reach);
  }

  method DrainStack(all: Schemas, usedSchemas: set<string>, ghost reach: set<string>) returns (finalUsed: set<string>)
    requires Closed(all, usedSchemas, reach)
    ensures finalUsed <= reach && Closed(all, usedSchemas, finalUsed)
  {
    finalUsed := usedSchemas;
    var queue := Listed(usedSchemas);
    while |queue| > 0
      invariant usedSchemas <= finalUsed <= reach
      invariant forall n :: n in queue ==> n in finalUsed
      invariant forall n :: n in finalUsed && n !in queue && Present(all, n) ==> Refs(all[n]) <= finalUsed
      decreases |reach - finalUsed|, |queue|
    {
      var schemaName := queue[|queue| - 1];
      ghost var popped := queue;
      queue := queue[..|queue| - 1];
      assert forall n :: n in popped ==> n in queue || n == schemaName;
      if !Present(all, schemaName) {
        continue;
      }
      var refs := ExtractSchemaRefs(all[schemaName]);
      finalUsed, queue := PushNew(refs, finalUsed, queue, reach);
    }
  }

  lemma MarkingShrinks(reach: set<string>, used: set<string>, refs: set<string>)
    requires refs <= reach && used + refs != used
    ensures |reach - (used + refs)| < |reach - used|
  {
    var unseen := refs - used;
    assert unseen != {} by {
      assert used + unseen == used + refs;
    }
    assert reach - used == (reach - (used + refs)) + unseen;
  }

  /** Adds the references not seen yet to the names in use and to the stack. */
  method PushNew(refs: set<string>, finalUsed: set<string>, queue: seq<string>, ghost reach: set<string>)
    returns (used': set<string>, queue': seq<string>)
    requires refs <= reach
    requires forall n :: n in queue ==> n in finalUsed
    ensures used' == finalUsed + refs
    ensures forall n :: n in queue' <==> n in queue || n in refs - finalUsed
    ensures |reach - used'| < |reach - finalUsed| || (used' == finalUsed && queue' == queue)
  {
    used', queue' := finalUsed, queue;
    var todo := refs;
    while todo != {}
      invariant todo <= refs
      invariant used' == finalUsed + (refs - todo)
      invariant forall n :: n in queue' <==> n in queue || (n in refs && n !in todo && n !in finalUsed)
      invariant used' == finalUsed ==> queue' == queue
      decreases |todo|
    {
      var ref :| ref in todo;
      todo := todo - {ref};
      if ref in used' {
        continue;
      }
      used', queue' := used' + {ref}, queue' + [ref];
    }
    if used' != finalUsed {
      MarkingShrinks(reach, finalUsed, refs);
    }
  }
}
