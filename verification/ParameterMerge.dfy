/**
 Merging of repeated operation parameters (section 4.7.12 of the OpenAPI Specification 3.0.3): parameters
 whose location and name agree up to letter case become one record.
 */
module ParameterMerge {
  import opened Json
  import opened Strings

  type Record = map<string, Json>

  /** The spelling of the two headers whose case is fixed; header names compare without case (RFC 7230, section 3.2). */
  function CanonicalHeaderName(name: string): string {
    if Lower(name) == "x-client-id" then "X-Client-Id"
    else if Lower(name) == "x-account-id" then "X-Account-Id"
    else name
  }

  lemma CanonicalNameFoldsAlike(name: string)
    ensures Lower(CanonicalHeaderName(name)) == Lower(name)
    ensures CanonicalHeaderName(CanonicalHeaderName(name)) == CanonicalHeaderName(name)
  {
    assert Lower("X-Client-Id") == "x-client-id";
    assert Lower("X-Account-Id") == "x-account-id";
  }

  /** A record whose location and name are both strings; anything else passes through untouched. */
  predicate IsKeyed(j: Json) {
    j.Obj? && "in" in j.fields && j.fields["in"].Str? && "name" in j.fields && j.fields["name"].Str?
  }

  /** Location and name, case-folded. */
  datatype Pair = Pair(location: string, name: string)

  function PairOf(r: Record): Pair
    requires IsKeyed(Obj(r))
  {
    Pair(Lower(r["in"].s), Lower(r["name"].s))
  }

  function KeyOf(p: Pair): string {
    p.location + ":" + p.name
  }

  /** A header's name in its canonical spelling. */
  function WithCanonicalName(r: Record, location: string): Record
    requires IsKeyed(Obj(r))
  {
    if location == "header" then r["name" := Str(CanonicalHeaderName(r["name"].s))] else r
  }

  /** `base`, with the attributes it lacks taken from `fallback`. */
  function Completed(base: Record, fallback: Record): Record {
    map k | k in base.Keys + fallback.Keys ::
      if (k in base && base[k] != Undefined) || k !in fallback then base[k] else fallback[k]
  }

  /** The record with more attributes is the base, the earlier one if they tie. */
  function Merged(existing: Record, candidate: Record, location: string): Record
    requires IsKeyed(Obj(existing)) && IsKeyed(Obj(candidate))
  {
    var larger := |candidate| > |existing|;
    WithCanonicalName(Completed(if larger then candidate else existing, if larger then existing else candidate),
                      location)
  }

  datatype Group = Group(key: string, record: Record)

  datatype Grouping = Grouping(passthrough: seq<Json>, groups: seq<Group>)

  ghost predicate WellKeyed(groups: seq<Group>) {
    forall i :: 0 <= i < |groups| ==> IsKeyed(Obj(groups[i].record)) && KeyOf(PairOf(groups[i].record)) == groups[i].key
  }

  /** The position of a key among the groups, or their number. */
  function Find(groups: seq<Group>, key: string): (i: nat)
    ensures i <= |groups|
    ensures i < |groups| ==> groups[i].key == key
    ensures forall j :: 0 <= j < i ==> groups[j].key != key
  {
    if groups == [] then 0 else if groups[0].key == key then 0 else 1 + Find(groups[1..], key)
  }

  lemma MergedKeepsKey(existing: Record, candidate: Record, location: string)
    requires IsKeyed(Obj(existing)) && IsKeyed(Obj(candidate))
    ensures IsKeyed(Obj(Merged(existing, candidate, location)))
    ensures PairOf(Merged(existing, candidate, location))
         == PairOf(if |candidate| > |existing| then candidate else existing)
  {
    var base := if |candidate| > |existing| then candidate else existing;
    CanonicalNameFoldsAlike(base["name"].s);
  }

  /** A header record already carries the canonical name. */
  ghost predicate SpelledCanonically(r: Record) {
    IsKeyed(Obj(r)) && WithCanonicalName(r, PairOf(r).location) == r
  }

  lemma CanonicalRecord(r: Record)
    requires IsKeyed(Obj(r))
    ensures var canonical := WithCanonicalName(r, PairOf(r).location);
      SpelledCanonically(canonical) && PairOf(canonical) == PairOf(r)
  {
    CanonicalNameFoldsAlike(r["name"].s);
    var canonical := WithCanonicalName(r, PairOf(r).location);
    assert canonical["in"] == r["in"];
    assert PairOf(canonical) == PairOf(r);
  }

  lemma MergedIsCanonical(existing: Record, candidate: Record)
    requires SpelledCanonically(existing) && IsKeyed(Obj(candidate))
    ensures SpelledCanonically(Merged(existing, candidate, PairOf(candidate).location))
  {
    MergedKeepsKey(existing, candidate, PairOf(candidate).location);
    if |candidate| > |existing| {
      CanonicalRecord(Completed(candidate, existing));
    } else {
      var base := Completed(existing, candidate);
      assert base["in"] == existing["in"] && base["name"] == existing["name"];
      CanonicalRecord(base);
    }
  }

  ghost predicate KeysDiffer(groups: seq<Group>) {
    forall i, j :: 0 <= i < j < |groups| ==> groups[i].key != groups[j].key
  }

  ghost predicate ValidGroups(groups: seq<Group>) {
    && WellKeyed(groups)
    && KeysDiffer(groups)
    && (forall i :: 0 <= i < |groups| ==> SpelledCanonically(groups[i].record))
  }

  ghost predicate ValidGrouping(g: Grouping) {
    ValidGroups(g.groups) && forall i :: 0 <= i < |g.passthrough| ==> !IsKeyed(g.passthrough[i])
  }

  /** The groups after a keyed parameter: it joins the group of its key, or starts one. */
  function AbsorbKeyed(groups: seq<Group>, record: Record): (r: seq<Group>)
    requires ValidGroups(groups) && IsKeyed(Obj(record))
    ensures ValidGroups(r)
  {
    var pair := PairOf(record);
    var key := KeyOf(pair);
    var i := Find(groups, key);
    if i == |groups| then
      CanonicalRecord(record);
      groups + [Group(key, WithCanonicalName(record, pair.location))]
    else
      MergedKeepsKey(groups[i].record, record, pair.location);
      MergedIsCanonical(groups[i].record, record);
      groups[i := Group(key, Merged(groups[i].record, record, pair.location))]
  }

  function Absorb(g: Grouping, parameter: Json): (r: Grouping)
    requires ValidGrouping(g)
    ensures ValidGrouping(r)
  {
    if IsKeyed(parameter) then g.(groups := AbsorbKeyed(g.groups, parameter.fields))
    else g.(passthrough := g.passthrough + [parameter])
  }

  function Grouped(parameters: seq<Json>): (r: Grouping)
    ensures ValidGrouping(r)
  {
    if parameters == [] then Grouping([], [])
    else Absorb(Grouped(parameters[..|parameters| - 1]), parameters[|parameters| - 1])
  }

  function Records(groups: seq<Group>): (r: seq<Json>)
    ensures |r| == |groups|
  {
    seq(|groups|, i requires 0 <= i < |groups| => Obj(groups[i].record))
  }

  function Normalized(parameters: seq<Json>): seq<Json> {
    var g := Grouped(parameters);
    g.passthrough + Records(g.groups)
  }

  // ----- order -----

  function Unkeyed(parameters: seq<Json>): seq<Json> {
    if parameters == [] then []
    else
      var init, last := Unkeyed(parameters[..|parameters| - 1]), parameters[|parameters| - 1];
      if IsKeyed(last) then init else init + [last]
  }

  /** The keys of the parameters, each at its first occurrence. */
  function FirstKeys(parameters: seq<Json>): seq<string> {
    if parameters == [] then []
    else
      var init, last := FirstKeys(parameters[..|parameters| - 1]), parameters[|parameters| - 1];
      if !IsKeyed(last) || KeyOf(PairOf(last.fields)) in init then init else init + [KeyOf(PairOf(last.fields))]
  }

  function Keys(groups: seq<Group>): (r: seq<string>)
    ensures |r| == |groups|
  {
    seq(|groups|, i requires 0 <= i < |groups| => groups[i].key)
  }

  lemma AbsorbOrder(g: Grouping, last: Json)
    requires ValidGrouping(g)
    ensures Absorb(g, last).passthrough == if IsKeyed(last) then g.passthrough else g.passthrough + [last]
    ensures Keys(Absorb(g, last).groups)
         == if !IsKeyed(last) || KeyOf(PairOf(last.fields)) in Keys(g.groups) then Keys(g.groups)
            else Keys(g.groups) + [KeyOf(PairOf(last.fields))]
  {
    if IsKeyed(last) {
      var keys, key := Keys(g.groups), KeyOf(PairOf(last.fields));
      var i := Find(g.groups, key);
      assert forall j :: 0 <= j < |g.groups| ==> keys[j] == g.groups[j].key;
      assert i < |g.groups| ==> keys[i] == key;
    }
  }

  /** Items that are not keyed come first, in order; the records follow, each where its key first occurred. */
  lemma {:induction false} OrderIsKept(parameters: seq<Json>)
    ensures Grouped(parameters).passthrough == Unkeyed(parameters)
    ensures Keys(Grouped(parameters).groups) == FirstKeys(parameters)
  {
    if parameters != [] {
      var init, last := parameters[..|parameters| - 1], parameters[|parameters| - 1];
      OrderIsKept(init);
      AbsorbOrder(Grouped(init), last);
    }
  }

  // ----- pairs -----

  ghost predicate IsPairOf(j: Json, p: Pair) {
    IsKeyed(j) && PairOf(j.fields) == p
  }

  /** Some parameter has this location and name. */
  ghost predicate PairIn(parameters: seq<Json>, p: Pair) {
    exists j :: 0 <= j < |parameters| && IsPairOf(parameters[j], p)
  }

  /** Some record has this location and name. */
  ghost predicate Kept(groups: seq<Group>, p: Pair) {
    exists i :: 0 <= i < |groups| && IsPairOf(Obj(groups[i].record), p)
  }

  /** Parameters that share a key share their location and name. */
  ghost predicate KeysTellPairsApart(parameters: seq<Json>) {
    forall p, q :: PairIn(parameters, p) && PairIn(parameters, q) && KeyOf(p) == KeyOf(q) ==> p == q
  }

  lemma PairInInitOrLast(parameters: seq<Json>, p: Pair)
    requires parameters != []
    ensures PairIn(parameters, p) <==>
        PairIn(parameters[..|parameters| - 1], p) || IsPairOf(parameters[|parameters| - 1], p)
  {
    var init := parameters[..|parameters| - 1];
    if PairIn(init, p) {
      var j :| 0 <= j < |init| && IsPairOf(init[j], p);
      assert IsPairOf(parameters[j], p);
    }
    if PairIn(parameters, p) {
      var j :| 0 <= j < |parameters| && IsPairOf(parameters[j], p);
      assert j < |init| ==> IsPairOf(init[j], p);
    }
  }

  lemma AbsorbedPairs(g: Grouping, last: Json, p: Pair)
    requires ValidGrouping(g) && Kept(Absorb(g, last).groups, p)
    ensures Kept(g.groups, p) || IsPairOf(last, p)
  {
    var after := Absorb(g, last).groups;
    var i :| 0 <= i < |after| && IsPairOf(Obj(after[i].record), p);
    if i < |g.groups| && after[i] == g.groups[i] {
      assert IsPairOf(Obj(g.groups[i].record), p);
    } else {
      var pair := PairOf(last.fields);
      if i < |g.groups| {
        MergedKeepsKey(g.groups[i].record, last.fields, pair.location);
        assert p != pair ==> IsPairOf(Obj(g.groups[i].record), p);
      } else {
        CanonicalNameFoldsAlike(last.fields["name"].s);
      }
    }
  }

  /** Every record's pair is the pair of some parameter. */
  lemma {:induction false} RecordsHaveParametersPairs(parameters: seq<Json>, p: Pair)
    requires Kept(Grouped(parameters).groups, p)
    ensures PairIn(parameters, p)
  {
    if parameters != [] {
      var init, last := parameters[..|parameters| - 1], parameters[|parameters| - 1];
      AbsorbedPairs(Grouped(init), last, p);
      PairInInitOrLast(parameters, p);
      if Kept(Grouped(init).groups, p) {
        RecordsHaveParametersPairs(init, p);
      }
    }
  }

  lemma AbsorbKeepsKeys(g: Grouping, last: Json, key: string)
    requires ValidGrouping(g)
    requires Find(g.groups, key) < |g.groups| || (IsKeyed(last) && KeyOf(PairOf(last.fields)) == key)
    ensures Find(Absorb(g, last).groups, key) < |Absorb(g, last).groups|
  {
    var at := Find(g.groups, key);
    assert Absorb(g, last).groups[at].key == key;
  }

  /** Every parameter's key has a record. */
  lemma {:induction false} EveryKeyHasARecord(parameters: seq<Json>, p: Pair)
    requires PairIn(parameters, p)
    ensures Find(Grouped(parameters).groups, KeyOf(p)) < |Grouped(parameters).groups|
  {
    PairInInitOrLast(parameters, p);
    var init, last := parameters[..|parameters| - 1], parameters[|parameters| - 1];
    if PairIn(init, p) {
      EveryKeyHasARecord(init, p);
    }
    AbsorbKeepsKeys(Grouped(init), last, KeyOf(p));
  }

  /** No two records share a pair. */
  lemma OneRecordPerPair(parameters: seq<Json>, i: nat, j: nat)
    requires i < |Grouped(parameters).groups| && j < |Grouped(parameters).groups|
    requires PairOf(Grouped(parameters).groups[i].record) == PairOf(Grouped(parameters).groups[j].record)
    ensures i == j
  {
    var groups := Grouped(parameters).groups;
    assert groups[i].key == groups[j].key;
  }

  lemma PairSurvives(parameters: seq<Json>, p: Pair)
    requires KeysTellPairsApart(parameters) && PairIn(parameters, p)
    ensures Kept(Grouped(parameters).groups, p)
  {
    var groups := Grouped(parameters).groups;
    EveryKeyHasARecord(parameters, p);
    var i := Find(groups, KeyOf(p));
    var q := PairOf(groups[i].record);
    assert IsPairOf(Obj(groups[i].record), q);
    RecordsHaveParametersPairs(parameters, q);
  }

  lemma KeptPairsWithOneKey(groups: seq<Group>, p: Pair, q: Pair)
    requires WellKeyed(groups) && KeysDiffer(groups)
    requires Kept(groups, p) && Kept(groups, q) && KeyOf(p) == KeyOf(q)
    ensures p == q
  {
    var m :| 0 <= m < |groups| && IsPairOf(Obj(groups[m].record), p);
    var n :| 0 <= n < |groups| && IsPairOf(Obj(groups[n].record), q);
    assert groups[m].key == groups[n].key;
  }

  /** Every parameter's pair survives exactly when the joined key tells the pairs of the list apart. */
  lemma NoPairIsLostIffKeysTellPairsApart(parameters: seq<Json>)
    ensures (forall p :: PairIn(parameters, p) ==> Kept(Grouped(parameters).groups, p)) <==>
      KeysTellPairsApart(parameters)
  {
    var groups := Grouped(parameters).groups;
    if KeysTellPairsApart(parameters) {
      forall p | PairIn(parameters, p) ensures Kept(groups, p) {
        PairSurvives(parameters, p);
      }
    }
    if forall p :: PairIn(parameters, p) ==> Kept(groups, p) {
      forall p, q | PairIn(parameters, p) && PairIn(parameters, q) && KeyOf(p) == KeyOf(q) ensures p == q {
        KeptPairsWithOneKey(groups, p, q);
      }
    }
  }

  /** Locations without a colon, as the specification's four are, are enough. */
  lemma PlainLocationsAreEnough(parameters: seq<Json>)
    requires forall p :: PairIn(parameters, p) ==> ':' !in p.location
    ensures KeysTellPairsApart(parameters)
  {
    forall p, q | PairIn(parameters, p) && PairIn(parameters, q) && KeyOf(p) == KeyOf(q) ensures p == q {
      CutAtFirstColonIsUnique(p.location, p.name, q.location, q.name);
    }
  }

  /** With a colon in a location, two different parameters fall together and one of them is lost. */
  lemma ColonInLocationLosesAPair()
    ensures var p := Obj(map["in" := Str("a:b"), "name" := Str("c")]);
      var q := Obj(map["in" := Str("a"), "name" := Str("b:c")]);
      !KeysTellPairsApart([p, q])
  {
    var p := Obj(map["in" := Str("a:b"), "name" := Str("c")]);
    var q := Obj(map["in" := Str("a"), "name" := Str("b:c")]);
    assert Lower("a:b") == "a:b" && Lower("c") == "c" && Lower("a") == "a" && Lower("b:c") == "b:c";
    assert IsPairOf([p, q][0], Pair("a:b", "c")) && IsPairOf([p, q][1], Pair("a", "b:c"));
    assert KeyOf(Pair("a:b", "c")) == "a:b:c" == KeyOf(Pair("a", "b:c"));
    assert |"a:b"| != |"a"|;
  }

  // ----- attributes -----

  ghost predicate Defined(r: Record, k: string) {
    k in r && r[k] != Undefined
  }

  ghost predicate MemberOf(parameters: seq<Json>, j: nat, key: string) {
    j < |parameters| && IsKeyed(parameters[j]) && KeyOf(PairOf(parameters[j].fields)) == key
  }

  ghost predicate Defines(parameters: seq<Json>, j: nat, key: string, k: string) {
    MemberOf(parameters, j, key) && Defined(parameters[j].fields, k)
  }

  ghost predicate Gives(parameters: seq<Json>, j: nat, key: string, k: string, value: Json) {
    Defines(parameters, j, key, k) && parameters[j].fields[k] == value
  }

  /** The record defines the attribute exactly when a parameter with its key does, and has the value of one of them. */
  ghost predicate Gathers(parameters: seq<Json>, group: Group, k: string) {
    && (Defined(group.record, k) <==> exists j: nat :: Defines(parameters, j, group.key, k))
    && (Defined(group.record, k) && k != "name" ==>
        exists j: nat :: Gives(parameters, j, group.key, k, group.record[k]))
  }

  lemma DefinedInInitOrLast(parameters: seq<Json>, key: string, k: string)
    requires parameters != []
    ensures var init, n := parameters[..|parameters| - 1], |parameters| - 1;
      && (forall j: nat :: Defines(parameters, j, key, k) <==>
          Defines(init, j, key, k) || (j == n && Defines(parameters, n, key, k)))
      && (forall j: nat, value :: Gives(init, j, key, k, value) ==> Gives(parameters, j, key, k, value))
  {
    MembersOfInitOrLast(parameters, key);
  }

  /** A parameter with another key changes nothing. */
  lemma GathersAsBefore(parameters: seq<Json>, group: Group, k: string)
    requires parameters != [] && Gathers(parameters[..|parameters| - 1], group, k)
    requires !MemberOf(parameters, |parameters| - 1, group.key)
    ensures Gathers(parameters, group, k)
  {
    DefinedInInitOrLast(parameters, group.key, k);
  }

  /** One with the same key is merged into the record. */
  lemma GathersMerged(parameters: seq<Json>, before: Group, k: string)
    requires parameters != [] && IsKeyed(Obj(before.record)) && MemberOf(parameters, |parameters| - 1, before.key)
    requires Gathers(parameters[..|parameters| - 1], before, k)
    ensures var last := parameters[|parameters| - 1].fields;
      Gathers(parameters, Group(before.key, Merged(before.record, last, PairOf(last).location)), k)
  {
    var n, last := |parameters| - 1, parameters[|parameters| - 1].fields;
    var merged := Merged(before.record, last, PairOf(last).location);
    DefinedInInitOrLast(parameters, before.key, k);
    MergedAttributes(before.record, last, PairOf(last).location, k);
    assert Defines(parameters, n, before.key, k) <==> Defined(last, k);
    if Defined(merged, k) && k != "name" && Defined(last, k) && merged[k] == last[k] {
      assert Gives(parameters, n, before.key, k, merged[k]);
    }
  }

  /** The first with its key starts a record. */
  lemma GathersFirst(parameters: seq<Json>, key: string, k: string)
    requires parameters != [] && MemberOf(parameters, |parameters| - 1, key)
    requires Find(Grouped(parameters[..|parameters| - 1]).groups, key)
         == |Grouped(parameters[..|parameters| - 1]).groups|
    ensures var last := parameters[|parameters| - 1].fields;
      Gathers(parameters, Group(key, WithCanonicalName(last, PairOf(last).location)), k)
  {
    var n, last := |parameters| - 1, parameters[|parameters| - 1].fields;
    DefinedInInitOrLast(parameters, key, k);
    NoEarlierMember(parameters[..n], key);
    assert Defines(parameters, n, key, k) <==> Defined(last, k);
    if Defined(last, k) && k != "name" {
      assert Gives(parameters, n, key, k, last[k]);
    }
  }

  lemma {:induction false} DefinedAttributes(parameters: seq<Json>, i: nat, k: string)
    requires i < |Grouped(parameters).groups|
    ensures Gathers(parameters, Grouped(parameters).groups[i], k)
  {
    var init, last := parameters[..|parameters| - 1], parameters[|parameters| - 1];
    var before, after := Grouped(init), Grouped(parameters);
    var group := after.groups[i];
    if i < |before.groups| {
      DefinedAttributes(init, i, k);
      assert before.groups[i].key == group.key;
    }
    if MemberOf(parameters, |init|, group.key) {
      assert Find(before.groups, group.key) == i;
      if i < |before.groups| {
        GathersMerged(parameters, before.groups[i], k);
      } else {
        GathersFirst(parameters, group.key, k);
      }
    } else {
      assert i < |before.groups| && before.groups[i] == group;
      GathersAsBefore(parameters, group, k);
    }
  }

  /**
   No attribute is lost and none is invented: a record defines exactly the attributes some parameter with
   its key defines, and each value is one of theirs; its name, which may be respelled, is one of theirs up to case.
   */
  lemma AttributesAreCollected(parameters: seq<Json>, i: nat, k: string)
    requires i < |Grouped(parameters).groups|
    ensures var group := Grouped(parameters).groups[i];
      && Gathers(parameters, group, k)
      && exists j: nat :: MemberOf(parameters, j, group.key) && NamedAlike(parameters[j].fields, group.record)
  {
    DefinedAttributes(parameters, i, k);
    var group := Grouped(parameters).groups[i];
    var pair := PairOf(group.record);
    assert IsPairOf(Obj(group.record), pair);
    RecordsHaveParametersPairs(parameters, pair);
    var j :| 0 <= j < |parameters| && IsPairOf(parameters[j], pair);
    assert MemberOf(parameters, j, group.key) && NamedAlike(parameters[j].fields, group.record);
  }

  ghost predicate NamedAlike(r: Record, other: Record) {
    IsKeyed(Obj(r)) && IsKeyed(Obj(other)) && Lower(r["name"].s) == Lower(other["name"].s)
  }

  lemma MembersOfInitOrLast(parameters: seq<Json>, key: string)
    requires parameters != []
    ensures forall j: nat :: MemberOf(parameters[..|parameters| - 1], j, key) ==>
              MemberOf(parameters, j, key) && parameters[j] == parameters[..|parameters| - 1][j]
    ensures forall j: nat :: MemberOf(parameters, j, key) ==>
              (j == |parameters| - 1 || (MemberOf(parameters[..|parameters| - 1], j, key)
                                         && parameters[j] == parameters[..|parameters| - 1][j]))
  {
  }

  lemma NoEarlierMember(parameters: seq<Json>, key: string)
    requires Find(Grouped(parameters).groups, key) == |Grouped(parameters).groups|
    ensures forall j: nat :: !MemberOf(parameters, j, key)
  {
    forall j: nat ensures !MemberOf(parameters, j, key) {
      if MemberOf(parameters, j, key) {
        assert IsPairOf(parameters[j], PairOf(parameters[j].fields));
        EveryKeyHasARecord(parameters, PairOf(parameters[j].fields));
      }
    }
  }

  lemma MergedAttributes(existing: Record, candidate: Record, location: string, k: string)
    requires IsKeyed(Obj(existing)) && IsKeyed(Obj(candidate))
    ensures var merged := Merged(existing, candidate, location);
      && (Defined(merged, k) <==> Defined(existing, k) || Defined(candidate, k))
      && (Defined(merged, k) && k != "name" ==>
            || (Defined(existing, k) && merged[k] == existing[k])
            || (Defined(candidate, k) && merged[k] == candidate[k]))
  {
  }

  /** Where two parameters of a key both define an attribute, the one with more fields, or the earlier, decides. */
  lemma LargerParameterDecides(existing: Record, candidate: Record, location: string, k: string)
    requires IsKeyed(Obj(existing)) && IsKeyed(Obj(candidate)) && k != "name"
    ensures var merged := Merged(existing, candidate, location);
      var larger, smaller := if |candidate| > |existing| then candidate
          else existing, if |candidate| > |existing| then existing else candidate;
      && (Defined(larger, k) ==> Defined(merged, k) && merged[k] == larger[k])
      && (!Defined(larger, k) && Defined(smaller, k) ==> Defined(merged, k) && merged[k] == smaller[k])
  {
  }

  /** The two header names that have a spelling of their own. */
  lemma CanonicalSpellings(name: string)
    ensures Lower(name) == "x-client-id" ==> CanonicalHeaderName(name) == "X-Client-Id"
    ensures Lower(name) == "x-account-id" ==> CanonicalHeaderName(name) == "X-Account-Id"
    ensures Lower(name) != "x-client-id" && Lower(name) != "x-account-id" ==> CanonicalHeaderName(name) == name
  {
  }

  /** In a merged list a header of these two is always spelled so. */
  lemma HeadersAreSpelledCanonically(parameters: seq<Json>, i: nat)
    requires i < |Grouped(parameters).groups| && Lower(Grouped(parameters).groups[i].record["in"].s) == "header"
    ensures var name := Grouped(parameters).groups[i].record["name"].s;
      && (Lower(name) == "x-client-id" ==> name == "X-Client-Id")
      && (Lower(name) == "x-account-id" ==> name == "X-Account-Id")
  {
    var record := Grouped(parameters).groups[i].record;
    assert SpelledCanonically(record) && PairOf(record).location == "header";
    assert WithCanonicalName(record, "header")["name"] == record["name"];
    CanonicalSpellings(record["name"].s);
  }

  // ----- idempotence -----

  lemma NextGroupStandsAsItIs(groups: seq<Group>, n: nat)
    requires ValidGroups(groups) && n < |groups|
    ensures ValidGroups(groups[..n]) && AbsorbKeyed(groups[..n], groups[n].record) == groups[..n + 1]
    ensures Records(groups[..n + 1]) == Records(groups[..n]) + [Obj(groups[n].record)]
  {
    assert groups[..n + 1] == groups[..n] + [groups[n]];
    assert forall i :: 0 <= i < n ==> groups[..n][i].key != groups[n].key;
  }

  /** Records with distinct keys, spelled canonically, after items that are not keyed, are grouped as they stand. */
  lemma {:induction false} GroupedAsTheyStand(g: Grouping, n: nat)
    requires ValidGrouping(g) && n <= |g.groups|
    ensures Grouped(g.passthrough + Records(g.groups[..n])) == Grouping(g.passthrough, g.groups[..n])
  {
    var parameters := g.passthrough + Records(g.groups[..n]);
    if n == 0 {
      assert parameters == g.passthrough;
      UnkeyedStay(g.passthrough);
    } else {
      var init, last := g.passthrough + Records(g.groups[..n - 1]), Obj(g.groups[n - 1].record);
      NextGroupStandsAsItIs(g.groups, n - 1);
      GroupedAsTheyStand(g, n - 1);
      assert parameters == init + [last];
      assert Grouped(parameters) == Absorb(Grouped(init), last);
    }
  }

  lemma {:induction false} UnkeyedStay(items: seq<Json>)
    requires forall i :: 0 <= i < |items| ==> !IsKeyed(items[i])
    ensures Grouped(items) == Grouping(items, [])
  {
    if items != [] {
      var init, last := items[..|items| - 1], items[|items| - 1];
      UnkeyedStay(init);
      assert Grouped(items) == Absorb(Grouping(init, []), last) == Grouping(init + [last], []);
      assert items == init + [last];
    }
  }

  lemma NormalizingIsIdempotent(parameters: seq<Json>)
    ensures Normalized(Normalized(parameters)) == Normalized(parameters)
  {
    var g := Grouped(parameters);
    assert g.groups[..|g.groups|] == g.groups;
    GroupedAsTheyStand(g, |g.groups|);
  }

  // ----- the service's code -----

  lemma CompletedWithOneMore(start: Record, fallback: Record, key: string, value: Json)
    requires key !in fallback
    ensures var base := Completed(start, fallback);
      Completed(start, fallback[key := value]) == if key !in base || base[key] == Undefined then base[key := value]
          else base
  {
  }

  method FillUndefined(start: Record, fallback: Record) returns (base: Record)
    ensures base == Completed(start, fallback)
  {
    base := start;
    var todo := fallback.Keys;
    ghost var done: Record := map[];
    assert Completed(start, done) == start;
    while todo != {}
      invariant todo <= fallback.Keys && done.Keys == fallback.Keys - todo
      invariant forall k :: k in done ==> done[k] == fallback[k]
      invariant base == Completed(start, done)
      decreases |todo|
    {
      var key :| key in todo;
      CompletedWithOneMore(start, done, key, fallback[key]);
      todo, done := todo - {key}, done[key := fallback[key]];
      if key !in base || base[key] == Undefined {
        base := base[key := fallback[key]];
      }
    }
    assert done == fallback;
  }

  method MergeSwaggerParameter(existing: Record, candidate: Record, normalizedLocation: string) returns (base: Record)
    requires IsKeyed(Obj(existing)) && IsKeyed(Obj(candidate))
    ensures base == Merged(existing, candidate, normalizedLocation)
  {
    var existingScore, candidateScore := |existing|, |candidate|;
    if candidateScore > existingScore {
      base := FillUndefined(candidate, existing);
    } else {
      base := FillUndefined(existing, candidate);
    }
    if normalizedLocation == "header" {
      base := base["name" := Str(CanonicalHeaderName(base["name"].s))];
    }
  }

  class Operation {
    var fields: Record

    constructor (fields: Record)
      ensures this.fields == fields
    {
      this.fields := fields;
    }

    method NormalizeOperationHeaderParameters()
      modifies this
      ensures fields == if "parameters" in old(fields) && old(fields)["parameters"].Arr?
          && old(fields)["parameters"].items != []
                        then old(fields)["parameters" := Arr(Normalized(old(fields)["parameters"].items))]
                        else old(fields)
    {
      if "parameters" !in fields || !fields["parameters"].Arr? || |fields["parameters"].items| == 0 {
        return;
      }
      var raw := fields["parameters"].items;
      var passthrough: seq<Json> := [];
      var grouped: seq<Group> := [];
      for n := 0 to |raw|
        invariant fields == old(fields)
        invariant Grouping(passthrough, grouped) == Grouped(raw[..n])
      {
        var parameter := raw[n];
        assert raw[..n + 1][..n] == raw[..n];
        if !IsKeyed(parameter) {
          passthrough := passthrough + [parameter];
          continue;
        }
        var normalizedLocation := Lower(parameter.fields["in"].s);
        var normalizedName := Lower(parameter.fields["name"].s);
        var key := normalizedLocation + ":" + normalizedName;
        var at := Find(grouped, key);
        if at == |grouped| {
          var initial := parameter.fields;
          if normalizedLocation == "header" {
            initial := initial["name" := Str(CanonicalHeaderName(parameter.fields["name"].s))];
          }
          grouped := grouped + [Group(key, initial)];
          continue;
        }
        var merged := MergeSwaggerParameter(grouped[at].record, parameter.fields, normalizedLocation);
        grouped := grouped[at := Group(key, merged)];
      }
      assert raw[..|raw|] == raw;
      assert passthrough + Records(grouped) == Normalized(raw);
      fields := fields["parameters" := Arr(passthrough + Records(grouped))];
    }
  }
}
