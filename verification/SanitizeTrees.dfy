/**
 Response sanitizing on tree-shaped values. The three interceptors are one walk under three drop rules:
 sensitive fields, timestamps below the root, or both at once.
 */
module SanitizeTrees {
  import opened Strings

  datatype Kind = ArrayKind | MapKind | SetKind | RecordKind

  /** Where an entry sits in its container: a record's field, an array's or set's position, a map's key. */
  datatype Label = Field(name: string) | Position(index: nat) | MapKey(id: nat)

  /** Atoms are primitives; opaque objects (dates, buffers, class instances) are never looked into. */
  datatype Value = Atom(id: int) | Opaque(ref: nat) | Node(kind: Kind, entries: seq<Entry>)

  datatype Entry = Entry(key: Label, value: Value)

  /** Says whether a record at root level or not drops the field under a key. */
  type Rule = (Label, bool) -> bool

  const TIMESTAMP_FIELDS := {"createdAt", "updatedAt", "deletedAt"}

  /** Sensitive field names are compared in lower case. */
  function SensitiveRule(sensitive: set<string>): Rule {
    (key: Label, isRoot: bool) => key.Field? && Lower(key.name) in sensitive
  }

  function TimestampRule(): Rule {
    (key: Label, isRoot: bool) => key.Field? && !isRoot && key.name in TIMESTAMP_FIELDS
  }

  function Either(r1: Rule, r2: Rule): Rule {
    (key: Label, isRoot: bool) => r1(key, isRoot) || r2(key, isRoot)
  }

  const DATA := Field("data")

  const META := Field("meta")

  /** A page is a record with an array under data and anything under meta. */
  datatype Shape = ArrayShape | CollectionShape | PageShape | RecordShape

  predicate IsArray(v: Value) {
    v.Node? && v.kind.ArrayKind?
  }

  predicate HasArrayData(entries: seq<Entry>) {
    exists i :: 0 <= i < |entries| && entries[i].key == DATA && IsArray(entries[i].value)
  }

  predicate HasMeta(entries: seq<Entry>) {
    exists i :: 0 <= i < |entries| && entries[i].key == META
  }

  function ShapeOf(kind: Kind, entries: seq<Entry>): Shape {
    match kind
    case ArrayKind => ArrayShape
    case MapKind => CollectionShape
    case SetKind => CollectionShape
    case RecordKind => if HasArrayData(entries) && HasMeta(entries) then PageShape else RecordShape
  }

  /** What the walk does with an entry. */
  datatype Action = Drop | Keep | Descend(isRoot: bool, isArrayItemRoot: bool)

  function ActionOn(rule: Rule, shape: Shape, key: Label, isRoot: bool, isArrayItemRoot: bool): Action {
    match shape
    case ArrayShape => Descend(isArrayItemRoot, false)
    case CollectionShape => Descend(false, false)
    case PageShape => if key == DATA then Descend(false, true) else Keep
    case RecordShape => if rule(key, isRoot) then Drop else Descend(false, false)
  }

  /** How many more levels the walk may open; what lies deeper is returned as it is. */
  function Levels(maxDepth: nat, depth: nat): nat {
    if depth <= maxDepth then maxDepth - depth + 1 else 0
  }

  function Entries(v: Value): seq<Entry> {
    if v.Node? then v.entries else []
  }

  function Walk(rule: Rule, maxDepth: nat, v: Value, depth: nat, isRoot: bool, isArrayItemRoot: bool): Value
    decreases Levels(maxDepth, depth), |Entries(v)| + 1
  {
    if depth > maxDepth || !v.Node? then v
    else Node(v.kind, WalkEntries(rule, maxDepth, v.entries, ShapeOf(v.kind, v.entries), depth, isRoot,
                                  isArrayItemRoot))
  }

  function WalkEntries(rule: Rule, maxDepth: nat, entries: seq<Entry>, shape: Shape, depth: nat, isRoot: bool,
                       isArrayItemRoot: bool)
    : seq<Entry>
    requires depth <= maxDepth
    decreases Levels(maxDepth, depth), |entries|
  {
    if entries == [] then []
    else
      var init := WalkEntries(rule, maxDepth, entries[..|entries| - 1], shape, depth, isRoot, isArrayItemRoot);
      var last := entries[|entries| - 1];
      match ActionOn(rule, shape, last.key, isRoot, isArrayItemRoot)
      case Drop => init
      case Keep => init + [last]
      case Descend(root, itemRoot) => init + [Entry(last.key,
                                                    Walk(rule, maxDepth, last.value, depth + 1, root, itemRoot))]
  }

  // ----- the three interceptors -----

  function SanitizeResponse(sensitive: set<string>, maxDepth: nat, v: Value): Value {
    Walk(Either(SensitiveRule(sensitive), TimestampRule()), maxDepth, v, 0, true, false)
  }

  function RemoveSensitiveFields(sensitive: set<string>, maxDepth: nat, v: Value): Value {
    Walk(SensitiveRule(sensitive), maxDepth, v, 0, true, false)
  }

  function RemoveNestedTimestamps(maxDepth: nat, v: Value): Value {
    Walk(TimestampRule(), maxDepth, v, 0, true, false)
  }

  // ----- fusion -----

  lemma WalkKeepsArrays(rule: Rule, maxDepth: nat, v: Value, depth: nat, isRoot: bool, isArrayItemRoot: bool)
    ensures IsArray(Walk(rule, maxDepth, v, depth, isRoot, isArrayItemRoot)) <==> IsArray(v)
  {
  }

  lemma ExtendedEntries(entries: seq<Entry>, last: Entry)
    ensures HasArrayData(entries + [last]) <==> HasArrayData(entries) || (last.key == DATA && IsArray(last.value))
    ensures HasMeta(entries + [last]) <==> HasMeta(entries) || last.key == META
  {
    var longer := entries + [last];
    assert longer[|entries|] == last;
    assert forall i :: 0 <= i < |entries| ==> longer[i] == entries[i];
  }

  /** The entries of a page keep its two marks; those of a plain record gain none. */
  lemma {:induction false} MarksSurvive(rule: Rule, maxDepth: nat, entries: seq<Entry>, shape: Shape, depth: nat,
                                        isRoot: bool, isArrayItemRoot: bool)
    requires depth <= maxDepth
    requires shape.PageShape? || shape.RecordShape?
    ensures var walked := WalkEntries(rule, maxDepth, entries, shape, depth, isRoot, isArrayItemRoot);
      && (shape.PageShape? ==>
          (HasArrayData(walked) <==> HasArrayData(entries)) && (HasMeta(walked) <==> HasMeta(entries)))
      && (HasArrayData(walked) ==> HasArrayData(entries))
      && (HasMeta(walked) ==> HasMeta(entries))
  {
    if entries != [] {
      var init, last := entries[..|entries| - 1], entries[|entries| - 1];
      assert entries == init + [last];
      MarksSurvive(rule, maxDepth, init, shape, depth, isRoot, isArrayItemRoot);
      ExtendedEntries(init, last);
      var before := WalkEntries(rule, maxDepth, init, shape, depth, isRoot, isArrayItemRoot);
      match ActionOn(rule, shape, last.key, isRoot, isArrayItemRoot)
      case Drop =>
      case Keep => ExtendedEntries(before, last);
      case Descend(root, itemRoot) =>
        WalkKeepsArrays(rule, maxDepth, last.value, depth + 1, root, itemRoot);
        ExtendedEntries(before, Entry(last.key, Walk(rule, maxDepth, last.value, depth + 1, root, itemRoot)));
    }
  }

  lemma ShapeSurvives(rule: Rule, maxDepth: nat, kind: Kind, entries: seq<Entry>, depth: nat, isRoot: bool,
                      isArrayItemRoot: bool)
    requires depth <= maxDepth
    ensures ShapeOf(kind, WalkEntries(rule, maxDepth, entries, ShapeOf(kind, entries), depth, isRoot, isArrayItemRoot))
         == ShapeOf(kind, entries)
  {
    if kind.RecordKind? {
      MarksSurvive(rule, maxDepth, entries, ShapeOf(kind, entries), depth, isRoot, isArrayItemRoot);
    }
  }

  /** Two walks, one after the other, are one walk that drops what either drops. */
  lemma {:induction false} WalksFuse(r1: Rule, r2: Rule, maxDepth: nat, v: Value, depth: nat, isRoot: bool,
                                     isArrayItemRoot: bool)
    ensures Walk(r2, maxDepth, Walk(r1, maxDepth, v, depth, isRoot, isArrayItemRoot), depth, isRoot, isArrayItemRoot)
         == Walk(Either(r1, r2), maxDepth, v, depth, isRoot, isArrayItemRoot)
    decreases Levels(maxDepth, depth), |Entries(v)| + 1
  {
    if depth <= maxDepth && v.Node? {
      ShapeSurvives(r1, maxDepth, v.kind, v.entries, depth, isRoot, isArrayItemRoot);
      EntryWalksFuse(r1, r2, maxDepth, v.entries, ShapeOf(v.kind, v.entries), depth, isRoot, isArrayItemRoot);
    }
  }

  lemma {:induction false} EntryWalksFuse(r1: Rule, r2: Rule, maxDepth: nat, entries: seq<Entry>, shape: Shape,
                                          depth: nat, isRoot: bool, isArrayItemRoot: bool)
    requires depth <= maxDepth
    ensures WalkEntries(r2, maxDepth, WalkEntries(r1, maxDepth, entries, shape, depth, isRoot, isArrayItemRoot),
                        shape, depth, isRoot, isArrayItemRoot)
         == WalkEntries(Either(r1, r2), maxDepth, entries, shape, depth, isRoot, isArrayItemRoot)
    decreases Levels(maxDepth, depth), |entries|
  {
    if entries != [] {
      var init, last := entries[..|entries| - 1], entries[|entries| - 1];
      EntryWalksFuse(r1, r2, maxDepth, init, shape, depth, isRoot, isArrayItemRoot);
      var before := WalkEntries(r1, maxDepth, init, shape, depth, isRoot, isArrayItemRoot);
      match ActionOn(r1, shape, last.key, isRoot, isArrayItemRoot)
      case Drop =>
      case Keep =>
        assert (before + [last])[..|before|] == before;
      case Descend(root, itemRoot) =>
        var walked := Entry(last.key, Walk(r1, maxDepth, last.value, depth + 1, root, itemRoot));
        assert (before + [walked])[..|before|] == before;
        WalksFuse(r1, r2, maxDepth, last.value, depth + 1, root, itemRoot);
    }
  }

  lemma {:induction false} SameRuleSameWalk(r1: Rule, r2: Rule, maxDepth: nat, v: Value, depth: nat, isRoot: bool,
                                            isArrayItemRoot: bool)
    requires forall key, root :: r1(key, root) == r2(key, root)
    ensures Walk(r1, maxDepth, v, depth, isRoot, isArrayItemRoot)
         == Walk(r2, maxDepth, v, depth, isRoot, isArrayItemRoot)
    decreases Levels(maxDepth, depth), |Entries(v)| + 1
  {
    if depth <= maxDepth && v.Node? {
      SameRuleSameEntries(r1, r2, maxDepth, v.entries, ShapeOf(v.kind, v.entries), depth, isRoot, isArrayItemRoot);
    }
  }

  lemma {:induction false} SameRuleSameEntries(r1: Rule, r2: Rule, maxDepth: nat, entries: seq<Entry>, shape: Shape,
                                               depth: nat, isRoot: bool, isArrayItemRoot: bool)
    requires depth <= maxDepth
    requires forall key, root :: r1(key, root) == r2(key, root)
    ensures WalkEntries(r1, maxDepth, entries, shape, depth, isRoot, isArrayItemRoot)
         == WalkEntries(r2, maxDepth, entries, shape, depth, isRoot, isArrayItemRoot)
    decreases Levels(maxDepth, depth), |entries|
  {
    if entries != [] {
      var last := entries[|entries| - 1];
      SameRuleSameEntries(r1, r2, maxDepth, entries[..|entries| - 1], shape, depth, isRoot, isArrayItemRoot);
      match ActionOn(r1, shape, last.key, isRoot, isArrayItemRoot)
      case Descend(root, itemRoot) => SameRuleSameWalk(r1, r2, maxDepth, last.value, depth + 1, root, itemRoot);
      case _ =>
    }
  }

  /**
   The fused interceptor does in one pass what the two older ones do in two; the two commute; and a
   sanitized response is left alone by sanitizing it again. At any depth bound, pages included.
   */
  lemma FusedPassIsBothPasses(sensitive: set<string>, maxDepth: nat, v: Value)
    ensures SanitizeResponse(sensitive, maxDepth, v)
         == RemoveNestedTimestamps(maxDepth, RemoveSensitiveFields(sensitive, maxDepth, v))
    ensures SanitizeResponse(sensitive, maxDepth, v)
         == RemoveSensitiveFields(sensitive, maxDepth, RemoveNestedTimestamps(maxDepth, v))
    ensures SanitizeResponse(sensitive, maxDepth, SanitizeResponse(sensitive, maxDepth, v))
         == SanitizeResponse(sensitive, maxDepth, v)
  {
    var s, t := SensitiveRule(sensitive), TimestampRule();
    var fused := Either(s, t);
    WalksFuse(s, t, maxDepth, v, 0, true, false);
    WalksFuse(t, s, maxDepth, v, 0, true, false);
    SameRuleSameWalk(Either(t, s), fused, maxDepth, v, 0, true, false);
    WalksFuse(fused, fused, maxDepth, v, 0, true, false);
    SameRuleSameWalk(Either(fused, fused), fused, maxDepth, v, 0, true, false);
  }

  // ----- what survives -----

  /** What is seen at the end of a path: an atom, an opaque object, or a container of some kind. */
  datatype Sight = SeesAtom(id: int) | SeesOpaque(ref: nat) | SeesNode(kind: Kind)

  function Look(v: Value): Sight {
    match v
    case Atom(id) => SeesAtom(id)
    case Opaque(ref) => SeesOpaque(ref)
    case Node(kind, _) => SeesNode(kind)
  }

  /** Following the labels from a value leads to the sight. */
  ghost predicate Leads(v: Value, path: seq<Label>, sight: Sight)
    decreases path
  {
    if path == [] then Look(v) == sight
    else v.Node? && exists i ::
        0 <= i < |v.entries| && v.entries[i].key == path[0] && Leads(v.entries[i].value, path[1..], sight)
  }

  /** The same, along a path that no record within the depth bound cuts. */
  ghost predicate LeadsUncut(rule: Rule, maxDepth: nat, v: Value, path: seq<Label>, sight: Sight, depth: nat,
                             isRoot: bool, isArrayItemRoot: bool)
    decreases path, 1
  {
    if depth > maxDepth || path == [] then Leads(v, path, sight)
    else
      && v.Node?
      && var action := ActionOn(rule, ShapeOf(v.kind, v.entries), path[0], isRoot, isArrayItemRoot);
      exists i :: 0 <= i < |v.entries| && v.entries[i].key == path[0]
        && LeadsThrough(rule, maxDepth, v.entries[i].value, action, path[1..], sight, depth)
  }

  ghost predicate LeadsThrough(rule: Rule, maxDepth: nat, v: Value, action: Action, path: seq<Label>, sight: Sight,
                               depth: nat)
    decreases path, 2
  {
    match action
    case Drop => false
    case Keep => Leads(v, path, sight)
    case Descend(root, itemRoot) => LeadsUncut(rule, maxDepth, v, path, sight, depth + 1, root, itemRoot)
  }

  /** What the walk makes of an entry it does not drop. */
  ghost predicate BecomesUnder(rule: Rule, maxDepth: nat, action: Action, depth: nat, before: Value, after: Value) {
    match action
    case Drop => false
    case Keep => after == before
    case Descend(root, itemRoot) => after == Walk(rule, maxDepth, before, depth + 1, root, itemRoot)
  }

  /** The entries of the result are what the walk makes of the entries it started from, under the same keys. */
  lemma {:induction false} EntryOrigin(rule: Rule, maxDepth: nat, entries: seq<Entry>, shape: Shape, depth: nat,
                                       isRoot: bool, isArrayItemRoot: bool, e: Entry)
    requires depth <= maxDepth
    ensures e in WalkEntries(rule, maxDepth, entries, shape, depth, isRoot, isArrayItemRoot) <==>
      exists i :: 0 <= i < |entries| && entries[i].key == e.key
        && BecomesUnder(rule, maxDepth, ActionOn(rule, shape, e.key, isRoot, isArrayItemRoot), depth,
                        entries[i].value, e.value)
    decreases |entries|
  {
    if entries != [] {
      var init := entries[..|entries| - 1];
      EntryOrigin(rule, maxDepth, init, shape, depth, isRoot, isArrayItemRoot, e);
      assert forall i :: 0 <= i < |init| ==> init[i] == entries[i];
    }
  }

  /** Sanitizing hides exactly what lies behind a dropped field: every other path leads where it led before. */
  lemma {:induction false} UncutPathsSurvive(rule: Rule, maxDepth: nat, v: Value, path: seq<Label>, sight: Sight,
                                             depth: nat, isRoot: bool, isArrayItemRoot: bool)
    ensures Leads(Walk(rule, maxDepth, v, depth, isRoot, isArrayItemRoot), path, sight)
       <==> LeadsUncut(rule, maxDepth, v, path, sight, depth, isRoot, isArrayItemRoot)
    decreases path, 0
  {
    if depth <= maxDepth && path != [] && v.Node? {
      var shape := ShapeOf(v.kind, v.entries);
      var walked := WalkEntries(rule, maxDepth, v.entries, shape, depth, isRoot, isArrayItemRoot);
      var action := ActionOn(rule, shape, path[0], isRoot, isArrayItemRoot);
      if k :| 0 <= k < |walked| && walked[k].key == path[0] && Leads(walked[k].value, path[1..], sight) {
        var e := walked[k];
        EntryOrigin(rule, maxDepth, v.entries, shape, depth, isRoot, isArrayItemRoot, e);
        assert e in walked;
        var i :|
            0 <= i < |v.entries| && v.entries[i].key == e.key
                && BecomesUnder(rule, maxDepth, action, depth, v.entries[i].value, e.value);
        EntryPathSurvives(rule, maxDepth, v.entries[i].value, e.value, action, path[1..], sight, depth);
      }
      if i :|
          0 <= i < |v.entries| && v.entries[i].key == path[0]
              && LeadsThrough(rule, maxDepth, v.entries[i].value, action, path[1..], sight, depth) {
        var x := v.entries[i].value;
        var y := if action.Descend? then Walk(rule, maxDepth, x, depth + 1, action.isRoot, action.isArrayItemRoot)
            else x;
        var e := Entry(path[0], y);
        EntryOrigin(rule, maxDepth, v.entries, shape, depth, isRoot, isArrayItemRoot, e);
        assert BecomesUnder(rule, maxDepth, action, depth, x, e.value);
        EntryPathSurvives(rule, maxDepth, x, e.value, action, path[1..], sight, depth);
        var k :| 0 <= k < |walked| && walked[k] == e;
      }
    }
  }

  lemma {:induction false} EntryPathSurvives(rule: Rule, maxDepth: nat, before: Value, after: Value, action: Action,
                                             path: seq<Label>, sight: Sight, depth: nat)
    requires BecomesUnder(rule, maxDepth, action, depth, before, after)
    ensures Leads(after, path, sight) <==> LeadsThrough(rule, maxDepth, before, action, path, sight, depth)
    decreases path, 1
  {
    if action.Descend? {
      UncutPathsSurvive(rule, maxDepth, before, path, sight, depth + 1, action.isRoot, action.isArrayItemRoot);
    }
  }

  // ----- where a sensitive field can survive -----

  /**
   No record the walk looks into has a sensitive field. It does not look below the depth bound, into opaque
   objects, or at anything of a page but its data: the page's own fields and all of its meta go unseen.
   */
  ghost predicate NoSensitiveField(sensitive: set<string>, maxDepth: nat, v: Value, depth: nat)
    decreases v
  {
    depth <= maxDepth && v.Node? ==>
      forall i :: 0 <= i < |v.entries| ==> NothingSensitiveIn(sensitive, maxDepth, ShapeOf(v.kind, v.entries),
                                                              v.entries[i], depth)
  }

  ghost predicate NothingSensitiveIn(sensitive: set<string>, maxDepth: nat, shape: Shape, e: Entry, depth: nat)
    decreases e
  {
    && (shape.RecordShape? && e.key.Field? ==> Lower(e.key.name) !in sensitive)
    && ((shape.PageShape? && e.key != DATA) || NoSensitiveField(sensitive, maxDepth, e.value, depth + 1))
  }

  lemma {:induction false} WalkOnlyDropsEntries(rule: Rule, maxDepth: nat, entries: seq<Entry>, shape: Shape,
                                                depth: nat, isRoot: bool, isArrayItemRoot: bool)
    requires depth <= maxDepth
    ensures |WalkEntries(rule, maxDepth, entries, shape, depth, isRoot, isArrayItemRoot)| <= |entries|
    decreases |entries|
  {
    if entries != [] {
      WalkOnlyDropsEntries(rule, maxDepth, entries[..|entries| - 1], shape, depth, isRoot, isArrayItemRoot);
    }
  }

  /** The walk drops nothing it looks into. */
  ghost predicate Untouched(rule: Rule, maxDepth: nat, v: Value, depth: nat, isRoot: bool, isArrayItemRoot: bool)
    decreases v
  {
    depth <= maxDepth && v.Node? ==>
      forall i :: 0 <= i < |v.entries| ==>
        UntouchedEntry(rule, maxDepth, ShapeOf(v.kind, v.entries), v.entries[i], depth, isRoot, isArrayItemRoot)
  }

  ghost predicate UntouchedEntry(rule: Rule, maxDepth: nat, shape: Shape, e: Entry, depth: nat, isRoot: bool,
                                 isArrayItemRoot: bool)
    decreases e
  {
    match ActionOn(rule, shape, e.key, isRoot, isArrayItemRoot)
    case Drop => false
    case Keep => true
    case Descend(root, itemRoot) => Untouched(rule, maxDepth, e.value, depth + 1, root, itemRoot)
  }

  lemma {:induction false} UnchangedIffUntouched(rule: Rule, maxDepth: nat, v: Value, depth: nat, isRoot: bool,
                                                 isArrayItemRoot: bool)
    ensures Walk(rule, maxDepth, v, depth, isRoot, isArrayItemRoot) == v
       <==> Untouched(rule, maxDepth, v, depth, isRoot, isArrayItemRoot)
    decreases Levels(maxDepth, depth), |Entries(v)| + 1
  {
    if depth <= maxDepth && v.Node? {
      EntriesUnchangedIffUntouched(rule, maxDepth, v.entries, ShapeOf(v.kind, v.entries), depth, isRoot,
                                   isArrayItemRoot);
    }
  }

  lemma {:induction false} EntriesUnchangedIffUntouched(rule: Rule, maxDepth: nat, entries: seq<Entry>, shape: Shape,
                                                        depth: nat, isRoot: bool, isArrayItemRoot: bool)
    requires depth <= maxDepth
    ensures WalkEntries(rule, maxDepth, entries, shape, depth, isRoot, isArrayItemRoot) == entries
       <==> forall i :: 0 <= i < |entries| ==>
              UntouchedEntry(rule, maxDepth, shape, entries[i], depth, isRoot, isArrayItemRoot)
    decreases Levels(maxDepth, depth), |entries|
  {
    if entries != [] {
      var init, last := entries[..|entries| - 1], entries[|entries| - 1];
      var walked := WalkEntries(rule, maxDepth, init, shape, depth, isRoot, isArrayItemRoot);
      EntriesUnchangedIffUntouched(rule, maxDepth, init, shape, depth, isRoot, isArrayItemRoot);
      WalkOnlyDropsEntries(rule, maxDepth, init, shape, depth, isRoot, isArrayItemRoot);
      assert entries == init + [last];
      match ActionOn(rule, shape, last.key, isRoot, isArrayItemRoot)
      case Drop =>
      case Keep => LastEntryUnchanged(walked, last, init, last);
      case Descend(root, itemRoot) =>
        UnchangedIffUntouched(rule, maxDepth, last.value, depth + 1, root, itemRoot);
        var e := Entry(last.key, Walk(rule, maxDepth, last.value, depth + 1, root, itemRoot));
        LastEntryUnchanged(walked, e, init, last);
    }
  }

  lemma {:induction false} UntouchedIffNothingSensitive(sensitive: set<string>, maxDepth: nat, v: Value, depth: nat,
                                                        isRoot: bool,
                                                        isArrayItemRoot: bool)
    ensures Untouched(SensitiveRule(sensitive), maxDepth, v, depth, isRoot, isArrayItemRoot)
       <==> NoSensitiveField(sensitive, maxDepth, v, depth)
    decreases v
  {
    if depth <= maxDepth && v.Node? {
      var rule, shape := SensitiveRule(sensitive), ShapeOf(v.kind, v.entries);
      forall i | 0 <= i < |v.entries|
        ensures UntouchedEntry(rule, maxDepth, shape, v.entries[i], depth, isRoot, isArrayItemRoot)
           <==> NothingSensitiveIn(sensitive, maxDepth, shape, v.entries[i], depth)
      {
        match ActionOn(rule, shape, v.entries[i].key, isRoot, isArrayItemRoot)
        case Descend(root, itemRoot) =>
          UntouchedIffNothingSensitive(sensitive, maxDepth, v.entries[i].value, depth + 1, root, itemRoot);
        case _ =>
      }
    }
  }

  lemma LastEntryUnchanged(walked: seq<Entry>, e: Entry, init: seq<Entry>, last: Entry)
    ensures walked + [e] == init + [last] <==> walked == init && e == last
  {
    if walked + [e] == init + [last] {
      assert (walked + [e])[..|walked|] == walked && (init + [last])[..|init|] == init;
      assert (walked + [e])[|walked|] == e;
    }
  }

  /**
   Sanitized responses have no sensitive field where the walk looks, and only there: the sensitive-field pass
   leaves a value alone exactly when no record it looks into has one.
   */
  lemma SensitiveFieldsSurviveOnlyUnseen(sensitive: set<string>, maxDepth: nat, v: Value)
    ensures NoSensitiveField(sensitive, maxDepth, SanitizeResponse(sensitive, maxDepth, v), 0)
    ensures RemoveSensitiveFields(sensitive, maxDepth, v) == v <==> NoSensitiveField(sensitive, maxDepth, v, 0)
  {
    var s := SensitiveRule(sensitive);
    var stamped := RemoveNestedTimestamps(maxDepth, v);
    var out := SanitizeResponse(sensitive, maxDepth, v);
    FusedPassIsBothPasses(sensitive, maxDepth, v);
    WalksFuse(s, s, maxDepth, stamped, 0, true, false);
    SameRuleSameWalk(Either(s, s), s, maxDepth, stamped, 0, true, false);
    UnchangedIffUntouched(s, maxDepth, out, 0, true, false);
    UnchangedIffUntouched(s, maxDepth, v, 0, true, false);
    UntouchedIffNothingSensitive(sensitive, maxDepth, out, 0, true, false);
    UntouchedIffNothingSensitive(sensitive, maxDepth, v, 0, true, false);
  }

  /** A page keeps every field of its own but data as it is, a password included, and everything below its meta. */
  lemma PageFieldsAreKept(sensitive: set<string>, maxDepth: nat, entries: seq<Entry>, e: Entry)
    requires HasArrayData(entries) && HasMeta(entries) && e in entries && e.key != DATA
    ensures SanitizeResponse(sensitive, maxDepth, Node(RecordKind, entries)).Node?
    ensures e in SanitizeResponse(sensitive, maxDepth, Node(RecordKind, entries)).entries
  {
    var rule := Either(SensitiveRule(sensitive), TimestampRule());
    EntryOrigin(rule, maxDepth, entries, PageShape, 0, true, false, e);
    var i :| 0 <= i < |entries| && entries[i] == e;
    assert BecomesUnder(rule, maxDepth, ActionOn(rule, PageShape, e.key, true, false), 0, entries[i].value, e.value);
  }

  // ----- where a timestamp survives -----

  ghost predicate IsTimestamp(key: Label) {
    key == Field("createdAt") || key == Field("updatedAt") || key == Field("deletedAt")
  }

  ghost predicate IsPage(v: Value) {
    && v.Node? && v.kind.RecordKind?
    && (exists e :: e in v.entries && e.key == Field("data") && e.value.Node? && e.value.kind.ArrayKind?)
    && (exists e :: e in v.entries && e.key == Field("meta"))
  }

  /**
   No record below a root that the walk looks into has a timestamp. The response is a root; so is each item of the
   data of a page, and nothing else. Of a page only its data is looked into.
   */
  ghost predicate NoNestedTimestamp(maxDepth: nat, v: Value, depth: nat, isRoot: bool, itemsAreRoots: bool)
    decreases v
  {
    depth <= maxDepth && v.Node? ==>
      forall i :: 0 <= i < |v.entries| ==> NoNestedTimestampIn(maxDepth, IsPage(v), v.kind, v.entries[i], depth,
                                                               isRoot, itemsAreRoots)
  }

  ghost predicate NoNestedTimestampIn(maxDepth: nat, ofPage: bool, kind: Kind, e: Entry, depth: nat, isRoot: bool,
                                      itemsAreRoots: bool)
    decreases e
  {
    match kind
    case ArrayKind => NoNestedTimestamp(maxDepth, e.value, depth + 1, itemsAreRoots, false)
    case MapKind => NoNestedTimestamp(maxDepth, e.value, depth + 1, false, false)
    case SetKind => NoNestedTimestamp(maxDepth, e.value, depth + 1, false, false)
    case RecordKind =>
      if ofPage then e.key == Field("data") ==> NoNestedTimestamp(maxDepth, e.value, depth + 1, false, true)
      else (isRoot || !IsTimestamp(e.key)) && NoNestedTimestamp(maxDepth, e.value, depth + 1, false, false)
  }

  lemma PageIffShaped(v: Value)
    requires v.Node?
    ensures IsPage(v) <==> ShapeOf(v.kind, v.entries).PageShape?
  {
    if IsPage(v) {
      var d :| d in v.entries && d.key == Field("data") && d.value.Node? && d.value.kind.ArrayKind?;
      var m :| m in v.entries && m.key == Field("meta");
      var i :| 0 <= i < |v.entries| && v.entries[i] == d;
      var j :| 0 <= j < |v.entries| && v.entries[j] == m;
      assert v.entries[i].key == DATA && IsArray(v.entries[i].value);
    }
  }

  lemma {:induction false} UntouchedIffNoNestedTimestamp(maxDepth: nat, v: Value, depth: nat, isRoot: bool,
                                                         itemsAreRoots: bool)
    ensures Untouched(TimestampRule(), maxDepth, v, depth, isRoot, itemsAreRoots)
       <==> NoNestedTimestamp(maxDepth, v, depth, isRoot, itemsAreRoots)
    decreases v
  {
    if depth <= maxDepth && v.Node? {
      PageIffShaped(v);
      forall i | 0 <= i < |v.entries|
        ensures UntouchedEntry(TimestampRule(), maxDepth, ShapeOf(v.kind, v.entries), v.entries[i], depth, isRoot,
                               itemsAreRoots)
           <==> NoNestedTimestampIn(maxDepth, IsPage(v), v.kind, v.entries[i], depth, isRoot, itemsAreRoots)
      {
        EntryUntouchedIffNoTimestamp(maxDepth, v, i, depth, isRoot, itemsAreRoots);
      }
    }
  }

  lemma {:induction false} EntryUntouchedIffNoTimestamp(maxDepth: nat, v: Value, i: nat, depth: nat, isRoot: bool,
                                                        itemsAreRoots: bool)
    requires v.Node? && i < |v.entries| && (IsPage(v) <==> ShapeOf(v.kind, v.entries).PageShape?)
    ensures UntouchedEntry(TimestampRule(), maxDepth, ShapeOf(v.kind, v.entries), v.entries[i], depth, isRoot,
                           itemsAreRoots)
       <==> NoNestedTimestampIn(maxDepth, IsPage(v), v.kind, v.entries[i], depth, isRoot, itemsAreRoots)
    decreases v, 0
  {
    var e, shape := v.entries[i], ShapeOf(v.kind, v.entries);
    assert e in v.entries;
    match ActionOn(TimestampRule(), shape, e.key, isRoot, itemsAreRoots)
    case Descend(root, itemRoot) => UntouchedIffNoNestedTimestamp(maxDepth, e.value, depth + 1, root, itemRoot);
    case _ =>
  }

  /**
   A sanitized response has no timestamp below its roots where the walk looks, and the timestamp pass leaves a value
   alone exactly when it has none.
   */
  lemma TimestampsSurviveOnlyAtRoots(sensitive: set<string>, maxDepth: nat, v: Value)
    ensures NoNestedTimestamp(maxDepth, SanitizeResponse(sensitive, maxDepth, v), 0, true, false)
    ensures NoNestedTimestamp(maxDepth, RemoveNestedTimestamps(maxDepth, v), 0, true, false)
    ensures RemoveNestedTimestamps(maxDepth, v) == v <==> NoNestedTimestamp(maxDepth, v, 0, true, false)
  {
    TimestampPassIsFinished(maxDepth, v);
    FusedPassIsBothPasses(sensitive, maxDepth, v);
    TimestampPassIsFinished(maxDepth, RemoveSensitiveFields(sensitive, maxDepth, v));
    UnchangedIffUntouched(TimestampRule(), maxDepth, v, 0, true, false);
    UntouchedIffNoNestedTimestamp(maxDepth, v, 0, true, false);
  }

  lemma TimestampPassIsFinished(maxDepth: nat, v: Value)
    ensures NoNestedTimestamp(maxDepth, RemoveNestedTimestamps(maxDepth, v), 0, true, false)
  {
    var t, out := TimestampRule(), RemoveNestedTimestamps(maxDepth, v);
    WalksFuse(t, t, maxDepth, v, 0, true, false);
    SameRuleSameWalk(Either(t, t), t, maxDepth, v, 0, true, false);
    UnchangedIffUntouched(t, maxDepth, out, 0, true, false);
    UntouchedIffNoNestedTimestamp(maxDepth, out, 0, true, false);
  }

  /** The same fields, in the same order. */
  ghost predicate SameKeys(v: Value, w: Value) {
    && v.Node? && w.Node? && v.kind == w.kind && |v.entries| == |w.entries|
    && forall i :: 0 <= i < |v.entries| ==> v.entries[i].key == w.entries[i].key
  }

  /** A walk that drops none of the entries makes one of each, under its key. */
  lemma {:induction false} NothingDropped(rule: Rule, maxDepth: nat, entries: seq<Entry>, shape: Shape, depth: nat,
                                          isRoot: bool,
                                          isArrayItemRoot: bool)
    requires depth <= maxDepth
    requires forall i :: 0 <= i < |entries| ==> !ActionOn(rule, shape, entries[i].key, isRoot, isArrayItemRoot).Drop?
    ensures var walked := WalkEntries(rule, maxDepth, entries, shape, depth, isRoot, isArrayItemRoot);
      && |walked| == |entries|
      && forall i :: 0 <= i < |entries| ==>
           && walked[i].key == entries[i].key
           && BecomesUnder(rule, maxDepth, ActionOn(rule, shape, entries[i].key, isRoot, isArrayItemRoot), depth,
                           entries[i].value, walked[i].value)
    decreases |entries|
  {
    if entries != [] {
      NothingDropped(rule, maxDepth, entries[..|entries| - 1], shape, depth, isRoot, isArrayItemRoot);
    }
  }

  /** A value walked as a root keeps all its fields, its timestamps included. */
  lemma RootKeepsItsFields(maxDepth: nat, v: Value, depth: nat, itemsAreRoots: bool)
    requires v.Node?
    ensures SameKeys(v, Walk(TimestampRule(), maxDepth, v, depth, true, itemsAreRoots))
  {
    if depth <= maxDepth {
      NothingDropped(TimestampRule(), maxDepth, v.entries, ShapeOf(v.kind, v.entries), depth, true, itemsAreRoots);
    }
  }

  /** Item k of the array under data, which is entry i of a page. */
  ghost predicate IsPageItem(v: Value, i: nat, k: nat) {
    && IsPage(v) && i < |v.entries| && v.entries[i].key == Field("data") && IsArray(v.entries[i].value)
    && k < |v.entries[i].value.entries| && v.entries[i].value.entries[k].value.Node?
  }

  /** The response itself keeps all its fields, and so does each item of the data of a page. */
  lemma RootsKeepTheirFields(maxDepth: nat, v: Value)
    requires v.Node?
    ensures SameKeys(v, RemoveNestedTimestamps(maxDepth, v))
    ensures forall i: nat, k: nat :: IsPageItem(v, i, k) ==>
      var data := RemoveNestedTimestamps(maxDepth, v).entries[i].value;
      data.Node? && k < |data.entries| && SameKeys(v.entries[i].value.entries[k].value, data.entries[k].value)
  {
    RootKeepsItsFields(maxDepth, v, 0, false);
    forall i: nat, k: nat | IsPageItem(v, i, k)
      ensures var data := RemoveNestedTimestamps(maxDepth, v).entries[i].value;
        data.Node? && k < |data.entries| && SameKeys(v.entries[i].value.entries[k].value, data.entries[k].value)
    {
      PageItemKeepsItsFields(maxDepth, v, i, k);
    }
  }

  lemma PageItemKeepsItsFields(maxDepth: nat, v: Value, i: nat, k: nat)
    requires IsPageItem(v, i, k)
    ensures var out := RemoveNestedTimestamps(maxDepth, v);
      && out.Node? && i < |out.entries|
      && var data := out.entries[i].value;
      data.Node? && k < |data.entries| && SameKeys(v.entries[i].value.entries[k].value, data.entries[k].value)
  {
    var rule, items := TimestampRule(), v.entries[i].value;
    PageIffShaped(v);
    NothingDropped(rule, maxDepth, v.entries, PageShape, 0, true, false);
    if maxDepth >= 1 {
      NothingDropped(rule, maxDepth, items.entries, ArrayShape, 1, false, true);
      RootKeepsItsFields(maxDepth, items.entries[k].value, 2, false);
    }
  }
}
