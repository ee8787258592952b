/**
 Response sanitizing on object graphs, with cycles and sharing: a recursive walk that remembers the
 objects it has opened and stops at a depth bound.
 */
module SanitizeGraphs {
  import opened SanitizeTrees
  import opened Strings

  /** What a container holds under a key: a primitive, or a reference to an object of the heap. */
  datatype Slot = Primitive(id: int) | Ref(ref: nat)

  datatype Cell = Cell(key: Label, slot: Slot)

  datatype Object = Container(kind: Kind, cells: seq<Cell>) | Unopened

  type Heap = map<nat, Object>

  /** The result: new containers, tagged with the object they were made from, and references handed back as they are. */
  datatype Out = OutAtom(id: int) | Original(ref: nat) | Fresh(source: nat, kind: Kind, entries: seq<OutEntry>)

  datatype OutEntry = OutEntry(key: Label, out: Out)

  predicate IsContainer(h: Heap, s: Slot) {
    s.Ref? && s.ref in h && h[s.ref].Container?
  }

  predicate IsArraySlot(h: Heap, s: Slot) {
    IsContainer(h, s) && h[s.ref].kind.ArrayKind?
  }

  predicate CellsHaveArrayData(h: Heap, cells: seq<Cell>) {
    exists i :: 0 <= i < |cells| && cells[i].key == DATA && IsArraySlot(h, cells[i].slot)
  }

  predicate CellsHaveMeta(cells: seq<Cell>) {
    exists i :: 0 <= i < |cells| && cells[i].key == META
  }

  function CellShape(h: Heap, kind: Kind, cells: seq<Cell>): Shape {
    match kind
    case ArrayKind => ArrayShape
    case MapKind => CollectionShape
    case SetKind => CollectionShape
    case RecordKind => if CellsHaveArrayData(h, cells) && CellsHaveMeta(cells) then PageShape else RecordShape
  }

  function AsItIs(s: Slot): Out {
    match s
    case Primitive(id) => OutAtom(id)
    case Ref(ref) => Original(ref)
  }

  datatype Walked = Walked(out: Out, visited: set<nat>)

  datatype WalkedCells = WalkedCells(entries: seq<OutEntry>, visited: set<nat>)

  function CellsOf(h: Heap, s: Slot): seq<Cell> {
    if IsContainer(h, s) then h[s.ref].cells else []
  }

  function Sanitized(rule: Rule, maxDepth: nat, h: Heap, s: Slot, depth: nat, isRoot: bool, isArrayItemRoot: bool,
                     visited: set<nat>): Walked
    decreases Levels(maxDepth, depth), |CellsOf(h, s)| + 1
  {
    if depth > maxDepth || !IsContainer(h, s) || s.ref in visited then Walked(AsItIs(s), visited)
    else
      var o := h[s.ref];
      var r := SanitizedCells(rule, maxDepth, h, o.cells, CellShape(h, o.kind, o.cells), depth, isRoot,
                              isArrayItemRoot, visited + {s.ref});
      Walked(Fresh(s.ref, o.kind, r.entries), r.visited)
  }

  function SanitizedCells(rule: Rule, maxDepth: nat, h: Heap, cells: seq<Cell>, shape: Shape, depth: nat,
                          isRoot: bool, isArrayItemRoot: bool, visited: set<nat>): WalkedCells
    requires depth <= maxDepth
    decreases Levels(maxDepth, depth), |cells|
  {
    if cells == [] then WalkedCells([], visited)
    else
      var before := SanitizedCells(rule, maxDepth, h, cells[..|cells| - 1], shape, depth, isRoot, isArrayItemRoot,
                                   visited);
      var last := cells[|cells| - 1];
      WithCell(rule, maxDepth, h, before, last, ActionOn(rule, shape, last.key, isRoot, isArrayItemRoot), depth)
  }

  /** The cells walked so far, and one more. */
  function WithCell(rule: Rule, maxDepth: nat, h: Heap, before: WalkedCells, cell: Cell, action: Action,
                    depth: nat): WalkedCells
    requires depth <= maxDepth
    decreases Levels(maxDepth, depth), 0
  {
    match action
    case Drop => before
    case Keep => WalkedCells(before.entries + [OutEntry(cell.key, AsItIs(cell.slot))], before.visited)
    case Descend(root, itemRoot) =>
      var r := Sanitized(rule, maxDepth, h, cell.slot, depth + 1, root, itemRoot, before.visited);
      WalkedCells(before.entries + [OutEntry(cell.key, r.out)], r.visited)
  }

  // ----- on every graph -----

  /** How many containers of the result were made from an object. */
  function Copies(out: Out, ref: nat): nat
    decreases out
  {
    if out.Fresh? then (if out.source == ref then 1 else 0) + CopiesInEntries(out.entries, ref) else 0
  }

  function CopiesInEntries(entries: seq<OutEntry>, ref: nat): nat
    decreases entries
  {
    if entries == [] then 0
    else CopiesInEntries(entries[..|entries| - 1], ref) + CopiesInEntry(entries[|entries| - 1], ref)
  }

  function CopiesInEntry(e: OutEntry, ref: nat): nat
    decreases e
  {
    Copies(e.out, ref)
  }

  /** How deep containers made by the walk nest. */
  function Nesting(out: Out): nat
    decreases out
  {
    if out.Fresh? then 1 + NestingOfEntries(out.entries) else 0
  }

  function NestingOfEntries(entries: seq<OutEntry>): nat
    decreases entries
  {
    if entries == [] then 0
    else
      var init, last := NestingOfEntries(entries[..|entries| - 1]), NestingOfEntry(entries[|entries| - 1]);
      if init < last then last else init
  }

  function NestingOfEntry(e: OutEntry): nat
    decreases e
  {
    Nesting(e.out)
  }

  lemma OneMoreEntry(entries: seq<OutEntry>, e: OutEntry, ref: nat)
    ensures CopiesInEntries(entries + [e], ref) == CopiesInEntries(entries, ref) + Copies(e.out, ref)
    ensures var n, m := NestingOfEntries(entries), Nesting(e.out);
      NestingOfEntries(entries + [e]) == if n < m then m else n
  {
    assert (entries + [e])[..|entries|] == entries;
  }

  /**
   Whatever the graph, the walk opens an object at most once: it makes one container from each object
   it newly marks and none from any other.
   */
  lemma {:induction false} OpensEachObjectOnce(rule: Rule, maxDepth: nat, h: Heap, s: Slot, depth: nat, isRoot: bool,
                                               isArrayItemRoot: bool, visited: set<nat>, ref: nat)
    ensures var r := Sanitized(rule, maxDepth, h, s, depth, isRoot, isArrayItemRoot, visited);
      && visited <= r.visited <= visited + h.Keys
      && Copies(r.out, ref) == (if ref in r.visited && ref !in visited then 1 else 0)
    decreases Levels(maxDepth, depth), |CellsOf(h, s)| + 1
  {
    if !(depth > maxDepth || !IsContainer(h, s) || s.ref in visited) {
      var o := h[s.ref];
      CellsOpenEachObjectOnce(rule, maxDepth, h, o.cells, CellShape(h, o.kind, o.cells), depth, isRoot,
                              isArrayItemRoot, visited + {s.ref}, ref);
    }
  }

  lemma {:induction false} CellsOpenEachObjectOnce(rule: Rule, maxDepth: nat, h: Heap, cells: seq<Cell>, shape: Shape,
                                                   depth: nat, isRoot: bool, isArrayItemRoot: bool, visited: set<nat>,
                                                   ref: nat)
    requires depth <= maxDepth
    ensures var r := SanitizedCells(rule, maxDepth, h, cells, shape, depth, isRoot, isArrayItemRoot, visited);
      && visited <= r.visited <= visited + h.Keys
      && CopiesInEntries(r.entries, ref) == (if ref in r.visited && ref !in visited then 1 else 0)
    decreases Levels(maxDepth, depth), |cells|
  {
    if cells != [] {
      var init, last := cells[..|cells| - 1], cells[|cells| - 1];
      CellsOpenEachObjectOnce(rule, maxDepth, h, init, shape, depth, isRoot, isArrayItemRoot, visited, ref);
      var before := SanitizedCells(rule, maxDepth, h, init, shape, depth, isRoot, isArrayItemRoot, visited);
      var action := ActionOn(rule, shape, last.key, isRoot, isArrayItemRoot);
      CellOpensEachObjectOnce(rule, maxDepth, h, before, last, action, depth, ref);
    }
  }

  lemma {:induction false} CellOpensEachObjectOnce(rule: Rule, maxDepth: nat, h: Heap, before: WalkedCells,
                                                   cell: Cell, action: Action, depth: nat, ref: nat)
    requires depth <= maxDepth
    ensures var r := WithCell(rule, maxDepth, h, before, cell, action, depth);
      && before.visited <= r.visited <= before.visited + h.Keys
      && CopiesInEntries(r.entries, ref)
         == CopiesInEntries(before.entries, ref) + (if ref in r.visited && ref !in before.visited then 1 else 0)
    decreases Levels(maxDepth, depth), 0
  {
    if action.Keep? {
      OneMoreEntry(before.entries, OutEntry(cell.key, AsItIs(cell.slot)), ref);
    } else if action.Descend? {
      OpensEachObjectOnce(rule, maxDepth, h, cell.slot, depth + 1, action.isRoot, action.isArrayItemRoot,
                          before.visited, ref);
      var r := Sanitized(rule, maxDepth, h, cell.slot, depth + 1, action.isRoot, action.isArrayItemRoot,
                         before.visited);
      OneMoreEntry(before.entries, OutEntry(cell.key, r.out), ref);
    }
  }

  /** The containers made by the walk never nest beyond the depth bound. */
  lemma {:induction false} NestingIsBounded(rule: Rule, maxDepth: nat, h: Heap, s: Slot, depth: nat, isRoot: bool,
                                            isArrayItemRoot: bool, visited: set<nat>)
    ensures var out := Sanitized(rule, maxDepth, h, s, depth, isRoot, isArrayItemRoot, visited).out;
      Nesting(out) <= Levels(maxDepth, depth)
    decreases Levels(maxDepth, depth), |CellsOf(h, s)| + 1
  {
    if !(depth > maxDepth || !IsContainer(h, s) || s.ref in visited) {
      var o := h[s.ref];
      NestingOfCellsIsBounded(rule, maxDepth, h, o.cells, CellShape(h, o.kind, o.cells), depth, isRoot,
                              isArrayItemRoot, visited + {s.ref});
    }
  }

  lemma {:induction false} NestingOfCellsIsBounded(rule: Rule, maxDepth: nat, h: Heap, cells: seq<Cell>, shape: Shape,
                                                   depth: nat, isRoot: bool, isArrayItemRoot: bool, visited: set<nat>)
    requires depth <= maxDepth
    ensures var r := SanitizedCells(rule, maxDepth, h, cells, shape, depth, isRoot, isArrayItemRoot, visited);
      NestingOfEntries(r.entries) < Levels(maxDepth, depth)
    decreases Levels(maxDepth, depth), |cells|
  {
    if cells != [] {
      var init, last := cells[..|cells| - 1], cells[|cells| - 1];
      NestingOfCellsIsBounded(rule, maxDepth, h, init, shape, depth, isRoot, isArrayItemRoot, visited);
      var before := SanitizedCells(rule, maxDepth, h, init, shape, depth, isRoot, isArrayItemRoot, visited);
      var action := ActionOn(rule, shape, last.key, isRoot, isArrayItemRoot);
      NestingWithCellIsBounded(rule, maxDepth, h, before, last, action, depth);
    }
  }

  lemma {:induction false} NestingWithCellIsBounded(rule: Rule, maxDepth: nat, h: Heap, before: WalkedCells,
                                                    cell: Cell, action: Action, depth: nat)
    requires depth <= maxDepth && NestingOfEntries(before.entries) < Levels(maxDepth, depth)
    ensures NestingOfEntries(WithCell(rule, maxDepth, h, before, cell, action, depth).entries) < Levels(maxDepth, depth)
    decreases Levels(maxDepth, depth), 0
  {
    if action.Keep? {
      OneMoreEntry(before.entries, OutEntry(cell.key, AsItIs(cell.slot)), 0);
    } else if action.Descend? {
      NestingIsBounded(rule, maxDepth, h, cell.slot, depth + 1, action.isRoot, action.isArrayItemRoot, before.visited);
      var r := Sanitized(rule, maxDepth, h, cell.slot, depth + 1, action.isRoot, action.isArrayItemRoot,
                         before.visited);
      OneMoreEntry(before.entries, OutEntry(cell.key, r.out), 0);
    }
  }

  // ----- on tree-shaped graphs -----

  /** The heap below a slot is the tree, and no container occurs in it twice; `inside` are its containers. */
  ghost predicate TreeShaped(h: Heap, s: Slot, v: Value, inside: set<nat>)
    decreases v
  {
    match v
    case Atom(id) => s == Primitive(id) && inside == {}
    case Opaque(ref) => s == Ref(ref) && !IsContainer(h, s) && inside == {}
    case Node(kind, entries) =>
      && IsContainer(h, s) && h[s.ref].kind == kind
      && s.ref in inside
      && CellsTreeShaped(h, h[s.ref].cells, entries, inside - {s.ref})
  }

  ghost predicate CellsTreeShaped(h: Heap, cells: seq<Cell>, entries: seq<Entry>, inside: set<nat>)
    decreases entries
  {
    && |cells| == |entries|
    && if entries == [] then inside == {}
       else
         var last := |cells| - 1;
         exists below: set<nat> ::
           below <= inside && CellsTreeShaped(h, cells[..last], entries[..last], inside - below)
               && CellTreeShaped(h, cells[last], entries[last], below)
  }

  ghost predicate CellTreeShaped(h: Heap, cell: Cell, e: Entry, inside: set<nat>)
    decreases e
  {
    cell.key == e.key && TreeShaped(h, cell.slot, e.value, inside)
  }

  /** The result stands for a tree: new containers hold what they hold, and originals stand for what is below them. */
  ghost predicate StandsFor(h: Heap, out: Out, v: Value)
    decreases v
  {
    match out
    case OutAtom(id) => v == Atom(id)
    case Original(ref) => exists inside :: TreeShaped(h, Ref(ref), v, inside)
    case Fresh(_, kind, outs) => v.Node? && v.kind == kind && EntriesStandFor(h, outs, v.entries)
  }

  ghost predicate EntriesStandFor(h: Heap, outs: seq<OutEntry>, entries: seq<Entry>)
    decreases entries
  {
    && |outs| == |entries|
    && if entries == [] then true
       else
         var last := |outs| - 1;
         EntriesStandFor(h, outs[..last], entries[..last]) && EntryStandsFor(h, outs[last], entries[last])
  }

  ghost predicate EntryStandsFor(h: Heap, out: OutEntry, e: Entry)
    decreases e
  {
    out.key == e.key && StandsFor(h, out.out, e.value)
  }

  lemma UntouchedStandsForItself(h: Heap, s: Slot, v: Value, inside: set<nat>)
    requires TreeShaped(h, s, v, inside)
    ensures StandsFor(h, AsItIs(s), v)
  {
  }

  lemma SameKindOfSlot(h: Heap, s: Slot, v: Value, inside: set<nat>)
    requires TreeShaped(h, s, v, inside)
    ensures IsArraySlot(h, s) <==> IsArray(v)
  {
  }

  lemma {:induction false} MarksAgree(h: Heap, cells: seq<Cell>, entries: seq<Entry>, inside: set<nat>)
    requires CellsTreeShaped(h, cells, entries, inside)
    ensures CellsHaveArrayData(h, cells) <==> HasArrayData(entries)
    ensures CellsHaveMeta(cells) <==> HasMeta(entries)
    decreases entries
  {
    if entries != [] {
      var last := |cells| - 1;
      var below :| below <= inside && CellsTreeShaped(h, cells[..last], entries[..last], inside - below)
        && CellTreeShaped(h, cells[last], entries[last], below);
      MarksAgree(h, cells[..last], entries[..last], inside - below);
      assert entries == entries[..last] + [entries[last]];
      ExtendedEntries(entries[..last], entries[last]);
      SameKindOfSlot(h, cells[last].slot, entries[last].value, below);
      assert forall i :: 0 <= i < last ==> cells[..last][i] == cells[i];
      assert CellsHaveArrayData(h, cells) <==>
          CellsHaveArrayData(h, cells[..last]) || (cells[last].key == DATA && IsArraySlot(h, cells[last].slot));
      assert CellsHaveMeta(cells) <==> CellsHaveMeta(cells[..last]) || cells[last].key == META;
    }
  }

  /** On a tree-shaped graph the visited set never matters: the walk is the structural recursion on the tree. */
  lemma {:induction false} TreesAreWalkedStructurally(rule: Rule, maxDepth: nat, h: Heap, s: Slot, v: Value,
                                                      inside: set<nat>, depth: nat, isRoot: bool,
                                                      isArrayItemRoot: bool, visited: set<nat>)
    requires TreeShaped(h, s, v, inside) && inside !! visited
    ensures var r := Sanitized(rule, maxDepth, h, s, depth, isRoot, isArrayItemRoot, visited);
      && StandsFor(h, r.out, Walk(rule, maxDepth, v, depth, isRoot, isArrayItemRoot))
      && r.visited <= visited + inside
    decreases Levels(maxDepth, depth), |Entries(v)| + 1
  {
    if depth <= maxDepth && v.Node? {
      var o := h[s.ref];
      MarksAgree(h, o.cells, v.entries, inside - {s.ref});
      CellsAreWalkedStructurally(rule, maxDepth, h, o.cells, v.entries, inside - {s.ref},
                                 CellShape(h, o.kind, o.cells), depth, isRoot, isArrayItemRoot, visited + {s.ref});
    } else {
      UntouchedStandsForItself(h, s, v, inside);
    }
  }

  lemma {:induction false} CellsAreWalkedStructurally(rule: Rule, maxDepth: nat, h: Heap, cells: seq<Cell>,
                                                      entries: seq<Entry>, inside: set<nat>, shape: Shape, depth: nat,
                                                      isRoot: bool, isArrayItemRoot: bool, visited: set<nat>)
    requires depth <= maxDepth && CellsTreeShaped(h, cells, entries, inside) && inside !! visited
    ensures var r := SanitizedCells(rule, maxDepth, h, cells, shape, depth, isRoot, isArrayItemRoot, visited);
      && EntriesStandFor(h, r.entries, WalkEntries(rule, maxDepth, entries, shape, depth, isRoot, isArrayItemRoot))
      && r.visited <= visited + inside
    decreases Levels(maxDepth, depth), |entries|
  {
    if entries != [] {
      var n := |cells| - 1;
      var last, e := cells[n], entries[n];
      var below :|
          below <= inside && CellsTreeShaped(h, cells[..n], entries[..n], inside - below)
              && CellTreeShaped(h, last, e, below);
      CellsAreWalkedStructurally(rule, maxDepth, h, cells[..n], entries[..n], inside - below, shape, depth, isRoot,
                                 isArrayItemRoot, visited);
      var before := SanitizedCells(rule, maxDepth, h, cells[..n], shape, depth, isRoot, isArrayItemRoot, visited);
      var walked := WalkEntries(rule, maxDepth, entries[..n], shape, depth, isRoot, isArrayItemRoot);
      match ActionOn(rule, shape, last.key, isRoot, isArrayItemRoot)
      case Drop =>
      case Keep =>
        UntouchedStandsForItself(h, last.slot, e.value, below);
        StandForExtended(h, before.entries, walked, OutEntry(last.key, AsItIs(last.slot)), e);
      case Descend(root, itemRoot) =>
        TreesAreWalkedStructurally(rule, maxDepth, h, last.slot, e.value, below, depth + 1, root, itemRoot,
                                   before.visited);
        var r := Sanitized(rule, maxDepth, h, last.slot, depth + 1, root, itemRoot, before.visited);
        StandForExtended(h, before.entries, walked, OutEntry(last.key, r.out),
                         Entry(e.key, Walk(rule, maxDepth, e.value, depth + 1, root, itemRoot)));
    }
  }

  lemma StandForExtended(h: Heap, outs: seq<OutEntry>, entries: seq<Entry>, out: OutEntry, e: Entry)
    requires EntriesStandFor(h, outs, entries) && out.key == e.key && StandsFor(h, out.out, e.value)
    ensures EntriesStandFor(h, outs + [out], entries + [e])
  {
    assert (outs + [out])[..|outs|] == outs && (entries + [e])[..|entries|] == entries;
  }

  /** What the fused interceptor answers for a tree-shaped response stands for what the two older ones leave of it. */
  lemma ResponsesAreSanitizedStructurally(sensitive: set<string>, maxDepth: nat, h: Heap, s: Slot, v: Value,
                                          inside: set<nat>)
    requires TreeShaped(h, s, v, inside)
    ensures var r := Sanitized(Either(SensitiveRule(sensitive), TimestampRule()), maxDepth, h, s, 0, true, false, {});
      StandsFor(h, r.out, RemoveNestedTimestamps(maxDepth, RemoveSensitiveFields(sensitive, maxDepth, v)))
  {
    TreesAreWalkedStructurally(Either(SensitiveRule(sensitive), TimestampRule()), maxDepth, h, s, v, inside, 0, true,
                               false, {});
    FusedPassIsBothPasses(sensitive, maxDepth, v);
  }

  /** Sharing is where the walk departs from the tree: the second occurrence of an object is handed back as it is. */
  lemma SharedObjectIsHandedBack(rule: Rule, maxDepth: nat, h: Heap, s: Slot, depth: nat, isRoot: bool,
                                 isArrayItemRoot: bool, visited: set<nat>)
    requires IsContainer(h, s) && depth <= maxDepth
    ensures var r := Sanitized(rule, maxDepth, h, s, depth, isRoot, isArrayItemRoot, visited);
      forall d, root, itemRoot :: Sanitized(rule, maxDepth, h, s, d, root, itemRoot, r.visited)
          == Walked(Original(s.ref), r.visited)
  {
    OpensEachObjectOnce(rule, maxDepth, h, s, depth, isRoot, isArrayItemRoot, visited, s.ref);
    if s.ref !in visited {
      var o := h[s.ref];
      CellsOpenEachObjectOnce(rule, maxDepth, h, o.cells, CellShape(h, o.kind, o.cells), depth, isRoot,
                              isArrayItemRoot, visited + {s.ref}, s.ref);
    }
  }

  // ----- sharing -----

  /** The walk without its memory: every container within the depth bound is opened, as often as it is met. */
  function Plain(rule: Rule, maxDepth: nat, h: Heap, s: Slot, depth: nat, isRoot: bool, isArrayItemRoot: bool): Out
    decreases Levels(maxDepth, depth), |CellsOf(h, s)| + 1
  {
    if depth > maxDepth || !IsContainer(h, s) then AsItIs(s)
    else
      var o := h[s.ref];
      Fresh(s.ref, o.kind, PlainCells(rule, maxDepth, h, o.cells, CellShape(h, o.kind, o.cells), depth, isRoot,
                                      isArrayItemRoot))
  }

  function PlainCells(rule: Rule, maxDepth: nat, h: Heap, cells: seq<Cell>, shape: Shape, depth: nat, isRoot: bool,
                      isArrayItemRoot: bool): seq<OutEntry>
    requires depth <= maxDepth
    decreases Levels(maxDepth, depth), |cells|
  {
    if cells == [] then []
    else
      var init := PlainCells(rule, maxDepth, h, cells[..|cells| - 1], shape, depth, isRoot, isArrayItemRoot);
      var last := cells[|cells| - 1];
      match ActionOn(rule, shape, last.key, isRoot, isArrayItemRoot)
      case Drop => init
      case Keep => init + [OutEntry(last.key, AsItIs(last.slot))]
      case Descend(root, itemRoot) =>
        init + [OutEntry(last.key, Plain(rule, maxDepth, h, last.slot, depth + 1, root, itemRoot))]
  }

  /** Nothing is opened twice, and nothing that has been opened already. */
  ghost predicate OpenedOnce(out: Out, visited: set<nat>) {
    forall ref :: Copies(out, ref) <= if ref in visited then 0 else 1
  }

  ghost predicate EntriesOpenedOnce(entries: seq<OutEntry>, visited: set<nat>) {
    forall ref :: CopiesInEntries(entries, ref) <= if ref in visited then 0 else 1
  }

  lemma {:induction false} MemoryIsUnused(rule: Rule, maxDepth: nat, h: Heap, s: Slot, depth: nat, isRoot: bool,
                                          isArrayItemRoot: bool, visited: set<nat>)
    requires OpenedOnce(Plain(rule, maxDepth, h, s, depth, isRoot, isArrayItemRoot), visited)
    ensures Sanitized(rule, maxDepth, h, s, depth, isRoot, isArrayItemRoot, visited).out
         == Plain(rule, maxDepth, h, s, depth, isRoot, isArrayItemRoot)
    decreases Levels(maxDepth, depth), |CellsOf(h, s)| + 1
  {
    if depth <= maxDepth && IsContainer(h, s) {
      var o := h[s.ref];
      var out := Plain(rule, maxDepth, h, s, depth, isRoot, isArrayItemRoot);
      assert Copies(out, s.ref) == 1 + CopiesInEntries(out.entries, s.ref);
      forall ref ensures CopiesInEntries(out.entries, ref) <= if ref in visited + {s.ref} then 0 else 1 {
        assert Copies(out, ref) <= if ref in visited then 0 else 1;
      }
      MemoryIsUnusedInCells(rule, maxDepth, h, o.cells, CellShape(h, o.kind, o.cells), depth, isRoot, isArrayItemRoot,
                            visited + {s.ref});
    }
  }

  lemma {:induction false} MemoryIsUnusedInCells(rule: Rule, maxDepth: nat, h: Heap, cells: seq<Cell>, shape: Shape,
                                                 depth: nat, isRoot: bool, isArrayItemRoot: bool, visited: set<nat>)
    requires depth <= maxDepth
    requires EntriesOpenedOnce(PlainCells(rule, maxDepth, h, cells, shape, depth, isRoot, isArrayItemRoot), visited)
    ensures SanitizedCells(rule, maxDepth, h, cells, shape, depth, isRoot, isArrayItemRoot, visited).entries
         == PlainCells(rule, maxDepth, h, cells, shape, depth, isRoot, isArrayItemRoot)
    decreases Levels(maxDepth, depth), |cells|
  {
    if cells != [] {
      var init, last := cells[..|cells| - 1], cells[|cells| - 1];
      var plain := PlainCells(rule, maxDepth, h, init, shape, depth, isRoot, isArrayItemRoot);
      var all := PlainCells(rule, maxDepth, h, cells, shape, depth, isRoot, isArrayItemRoot);
      forall ref ensures CopiesInEntries(plain, ref) <= CopiesInEntries(all, ref) {
        if all != plain {
          OneMoreEntry(plain, all[|plain|], ref);
        }
      }
      MemoryIsUnusedInCells(rule, maxDepth, h, init, shape, depth, isRoot, isArrayItemRoot, visited);
      var action := ActionOn(rule, shape, last.key, isRoot, isArrayItemRoot);
      if action.Descend? {
        var before := SanitizedCells(rule, maxDepth, h, init, shape, depth, isRoot, isArrayItemRoot, visited);
        var out := Plain(rule, maxDepth, h, last.slot, depth + 1, action.isRoot, action.isArrayItemRoot);
        forall ref ensures Copies(out, ref) <= if ref in before.visited then 0 else 1 {
          OneMoreEntry(plain, OutEntry(last.key, out), ref);
          CellsOpenEachObjectOnce(rule, maxDepth, h, init, shape, depth, isRoot, isArrayItemRoot, visited, ref);
        }
        MemoryIsUnused(rule, maxDepth, h, last.slot, depth + 1, action.isRoot, action.isArrayItemRoot, before.visited);
      }
    }
  }

  /** A response is answered as if the walk had no memory. */
  ghost predicate AnsweredPlainly(rule: Rule, maxDepth: nat, h: Heap, s: Slot) {
    Sanitized(rule, maxDepth, h, s, 0, true, false, {}).out == Plain(rule, maxDepth, h, s, 0, true, false)
  }

  ghost predicate OpensNothingTwice(out: Out) {
    forall ref :: Copies(out, ref) <= 1
  }

  /**
   When sharing matters: on every graph, the visited set changes the answer exactly when the walk without
   it would open some object twice. Sharing behind a dropped field, inside meta or below the depth bound
   is harmless; any other sharing hands an object back unsanitized.
   */
  lemma VisitedSetMattersIffOpenedTwice(rule: Rule, maxDepth: nat, h: Heap, s: Slot)
    ensures AnsweredPlainly(rule, maxDepth, h, s) <==> OpensNothingTwice(Plain(rule, maxDepth, h, s, 0, true, false))
  {
    var plain := Plain(rule, maxDepth, h, s, 0, true, false);
    if AnsweredPlainly(rule, maxDepth, h, s) {
      forall ref ensures Copies(plain, ref) <= 1 {
        OpensEachObjectOnce(rule, maxDepth, h, s, 0, true, false, {}, ref);
      }
    }
    if OpensNothingTwice(plain) {
      assert OpenedOnce(plain, {});
      MemoryIsUnused(rule, maxDepth, h, s, 0, true, false, {});
    }
  }

  /** On a tree-shaped graph nothing is met twice, so the condition always holds there. */
  lemma {:induction false} TreesOpenNothingTwice(rule: Rule, maxDepth: nat, h: Heap, s: Slot, v: Value,
                                                 inside: set<nat>, depth: nat, isRoot: bool, isArrayItemRoot: bool,
                                                 ref: nat)
    requires TreeShaped(h, s, v, inside)
    ensures Copies(Plain(rule, maxDepth, h, s, depth, isRoot, isArrayItemRoot), ref) <= if ref in inside then 1 else 0
    decreases Levels(maxDepth, depth), |CellsOf(h, s)| + 1
  {
    if depth <= maxDepth && v.Node? {
      var o := h[s.ref];
      CellsOpenNothingTwice(rule, maxDepth, h, o.cells, v.entries, inside - {s.ref}, CellShape(h, o.kind, o.cells),
                            depth, isRoot, isArrayItemRoot, ref);
    }
  }

  lemma {:induction false} CellsOpenNothingTwice(rule: Rule, maxDepth: nat, h: Heap, cells: seq<Cell>,
                                                 entries: seq<Entry>, inside: set<nat>, shape: Shape, depth: nat,
                                                 isRoot: bool, isArrayItemRoot: bool, ref: nat)
    requires depth <= maxDepth && CellsTreeShaped(h, cells, entries, inside)
    ensures CopiesInEntries(PlainCells(rule, maxDepth, h, cells, shape, depth, isRoot, isArrayItemRoot), ref)
         <= if ref in inside then 1 else 0
    decreases Levels(maxDepth, depth), |cells|
  {
    if entries != [] {
      var n := |cells| - 1;
      var below :| below <= inside && CellsTreeShaped(h, cells[..n], entries[..n], inside - below)
        && CellTreeShaped(h, cells[n], entries[n], below);
      CellsOpenNothingTwice(rule, maxDepth, h, cells[..n], entries[..n], inside - below, shape, depth, isRoot,
                            isArrayItemRoot, ref);
      var plain := PlainCells(rule, maxDepth, h, cells[..n], shape, depth, isRoot, isArrayItemRoot);
      match ActionOn(rule, shape, cells[n].key, isRoot, isArrayItemRoot)
      case Drop =>
      case Keep => OneMoreEntry(plain, OutEntry(cells[n].key, AsItIs(cells[n].slot)), ref);
      case Descend(root, itemRoot) =>
        TreesOpenNothingTwice(rule, maxDepth, h, cells[n].slot, entries[n].value, below, depth + 1, root, itemRoot,
                              ref);
        OneMoreEntry(plain, OutEntry(cells[n].key,
                                     Plain(rule, maxDepth, h, cells[n].slot, depth + 1, root, itemRoot)), ref);
    }
  }

  /** An array that holds one record with a password twice. */
  const SHARED_RECORD: Heap := map[
    0 := Container(ArrayKind, [Cell(Position(0), Ref(1)), Cell(Position(1), Ref(1))]),
    1 := Container(RecordKind, [Cell(Field("password"), Primitive(7))])]

  /** The first occurrence loses its password; the second is the record itself, which still has it. */
  lemma SharedRecordKeepsItsPassword(sensitive: set<string>, maxDepth: nat)
    requires "password" in sensitive && maxDepth >= 1
    ensures var rule := Either(SensitiveRule(sensitive), TimestampRule());
      var out := Sanitized(rule, maxDepth, SHARED_RECORD, Ref(0), 0, true, false, {}).out;
      && out == Fresh(0, ArrayKind, [OutEntry(Position(0), Fresh(1, RecordKind, [])),
                                     OutEntry(Position(1), Original(1))])
      && SHARED_RECORD[1].cells[0].key == Field("password")
      && Plain(rule, maxDepth, SHARED_RECORD, Ref(0), 0, true, false)
         == Fresh(0, ArrayKind, [OutEntry(Position(0), Fresh(1, RecordKind, [])),
                                 OutEntry(Position(1), Fresh(1, RecordKind, []))])
  {
    var rule := Either(SensitiveRule(sensitive), TimestampRule());
    var items, fields := SHARED_RECORD[0].cells, SHARED_RECORD[1].cells;
    assert Lower("password") == "password";
    assert rule(fields[0].key, false);
    assert fields[..0] == [] && CellShape(SHARED_RECORD, RecordKind, fields) == RecordShape;
    assert SanitizedCells(rule, maxDepth, SHARED_RECORD, fields, RecordShape, 1, false, false, {0, 1})
        == WalkedCells([], {0, 1});
    assert PlainCells(rule, maxDepth, SHARED_RECORD, fields, RecordShape, 1, false, false) == [];
    var one := items[..1];
    assert one[..0] == [] && items[..2] == items;
    assert {0} + {1} == {0, 1};
    assert Sanitized(rule, maxDepth, SHARED_RECORD, Ref(1), 1, false, false, {0})
        == Walked(Fresh(1, RecordKind, []), {0, 1});
    assert SanitizedCells(rule, maxDepth, SHARED_RECORD, one, ArrayShape, 0, true, false, {0})
        == WalkedCells([OutEntry(Position(0), Fresh(1, RecordKind, []))], {0, 1});
    assert SanitizedCells(rule, maxDepth, SHARED_RECORD, items, ArrayShape, 0, true, false, {0})
        == WalkedCells([OutEntry(Position(0), Fresh(1, RecordKind, [])), OutEntry(Position(1), Original(1))],
                       {0, 1}) by {
      assert items[..|items| - 1] == one && |items| == 2;
      assert Sanitized(rule, maxDepth, SHARED_RECORD, Ref(1), 1, false, false, {0, 1}) == Walked(Original(1), {0, 1});
      assert ActionOn(rule, ArrayShape, items[1].key, true, false) == Descend(false, false);
    }
    assert {} + {0} == {0};
    assert PlainCells(rule, maxDepth, SHARED_RECORD, one, ArrayShape, 0, true, false)
        == [OutEntry(Position(0), Fresh(1, RecordKind, []))];
  }
}
