/**
 The Redis-backed throttler: a fixed-window counter per key.

 Time is in milliseconds. A key's window is open from the increment that finds no live counter until
 its deadline. INCR and EXPIRE are separate Redis commands, so traces interleave them freely, and
 Redis may evict the counter at any instant.
 */
module Throttler {
  import opened Strings
  import opened Wrappers

  datatype Counter = Counter(count: nat, deadline: Option<nat>)

  type Slot = Option<Counter>

  predicate Live(slot: Slot, now: nat) {
    slot.Some? && (slot.value.deadline.None? || now < slot.value.deadline.value)
  }

  datatype Event = Incr(at: nat) | Expire(at: nat) | Evict(at: nat)

  /** The effect of one Redis command (or one eviction) on the counter of a key. */
  function Apply(slot: Slot, e: Event, window: nat): Slot {
    match e
    case Incr(t) =>
      if Live(slot, t) then Some(slot.value.(count := slot.value.count + 1)) else Some(Counter(1, None))
    case Expire(t) =>
      if Live(slot, t) then Some(slot.value.(deadline := Some(t + window))) else slot
    case Evict(_) => None
  }

  /** The event is an increment that `increment` answers with isBlocked false. */
  predicate Passes(slot: Slot, e: Event, window: nat, limit: nat) {
    e.Incr? && Apply(slot, e, window).value.count <= limit
  }

  ghost predicate Chronological(trace: seq<Event>) {
    forall i, j :: 0 <= i < j < |trace| ==> trace[i].at <= trace[j].at
  }

  /** How many increments of the trace at instants in [from, until) pass. */
  ghost function Passed(slot: Slot, trace: seq<Event>, window: nat, limit: nat, from: nat, until: nat): nat
    decreases trace
  {
    if trace == [] then 0
    else
      (if Passes(slot, trace[0], window, limit) && from <= trace[0].at < until then 1 else 0)
      + Passed(Apply(slot, trace[0], window), trace[1..], window, limit, from, until)
  }

  ghost function Evictions(trace: seq<Event>, from: nat, until: nat): nat {
    if trace == [] then 0
    else (if trace[0].Evict? && from <= trace[0].at < until then 1 else 0) + Evictions(trace[1..], from, until)
  }

  /** What the evictions let through again: the limit for each. */
  ghost function Refills(trace: seq<Event>, limit: nat, from: nat, until: nat): nat {
    if trace == [] then 0
    else (if trace[0].Evict? && from <= trace[0].at < until then limit else 0) + Refills(trace[1..], limit, from, until)
  }

  lemma {:induction false} RefillsCountEvictions(trace: seq<Event>, limit: nat, from: nat, until: nat)
    ensures Refills(trace, limit, from, until) == Evictions(trace, from, until) * limit
  {
    if trace != [] {
      RefillsCountEvictions(trace[1..], limit, from, until);
      var rest := Evictions(trace[1..], from, until);
      assert (1 + rest) * limit == limit + rest * limit;
    }
  }

  /** What the counter still lets through before it reaches the limit. */
  ghost function Room(slot: Slot, limit: nat): nat {
    if slot.Some? && slot.value.count < limit then limit - slot.value.count else 0
  }

  /** The counter cannot expire before `until`. */
  ghost predicate Outlasts(slot: Slot, until: nat) {
    slot.Some? && (slot.value.deadline.Some? ==> until <= slot.value.deadline.value)
  }

  lemma {:induction false} NothingPassesLater(slot: Slot, trace: seq<Event>, window: nat, limit: nat, from: nat,
                                              until: nat)
    requires forall i :: 0 <= i < |trace| ==> until <= trace[i].at
    ensures Passed(slot, trace, window, limit, from, until) == 0
    decreases trace
  {
    if trace != [] {
      NothingPassesLater(Apply(slot, trace[0], window), trace[1..], window, limit, from, until);
    }
  }

  /** What the counter may still let through before `until`, before counting evictions. */
  ghost function Budget(slot: Slot, limit: nat, until: nat): nat {
    Room(slot, limit) + if Outlasts(slot, until) then 0 else limit
  }

  /** A passing increment uses up one of the budget, and only an eviction adds to it. */
  lemma StepSpendsBudget(slot: Slot, e: Event, window: nat, limit: nat, from: nat)
    requires from <= e.at < from + window
    ensures Budget(Apply(slot, e, window), limit, from + window) + (if Passes(slot, e, window, limit) then 1 else 0)
         <= Budget(slot, limit, from + window) + (if e.Evict? then limit else 0)
  {
  }

  /**
   Inside [from, from + window) the counter found on entry lets its room through. One more window can
   open if that counter may expire in the interval, and one more after every eviction.
   */
  lemma {:induction false} BudgetOfAnInterval(slot: Slot, trace: seq<Event>, window: nat, limit: nat, from: nat)
    requires Chronological(trace)
    requires forall i :: 0 <= i < |trace| ==> from <= trace[i].at
    ensures Passed(slot, trace, window, limit, from, from + window)
         <= Budget(slot, limit, from + window) + Refills(trace, limit, from, from + window)
    decreases trace
  {
    if trace == [] {
    } else if from + window <= trace[0].at {
      NothingPassesLater(slot, trace, window, limit, from, from + window);
    } else {
      var next := Apply(slot, trace[0], window);
      StepSpendsBudget(slot, trace[0], window, limit, from);
      BudgetOfAnInterval(next, trace[1..], window, limit, from);
    }
  }

  lemma {:induction false} BoundWithRefills(slot: Slot, trace: seq<Event>, window: nat, limit: nat, from: nat)
    requires Chronological(trace)
    requires slot.Some? ==> slot.value.count >= 1
    ensures Passed(slot, trace, window, limit, from, from + window)
         <= if limit == 0 then 0 else 2 * limit - 1 + Refills(trace, limit, from, from + window)
    decreases trace
  {
    if trace != [] && trace[0].at < from {
      BoundWithRefills(Apply(slot, trace[0], window), trace[1..], window, limit, from);
    } else {
      BudgetOfAnInterval(slot, trace, window, limit, from);
      RefillsCountEvictions(trace, limit, from, from + window);
    }
  }

  /**
   The sliding bound: however increments, expirations and evictions interleave on a key that starts
   without a counter, an interval of one window length lets at most 2 * limit - 1 increments through,
   plus `limit` more for every eviction inside the interval.
   */
  lemma SlidingBound(slot: Slot, trace: seq<Event>, window: nat, limit: nat, from: nat)
    requires Chronological(trace)
    requires slot.Some? ==> slot.value.count >= 1
    ensures Passed(slot, trace, window, limit, from, from + window)
         <= if limit == 0 then 0 else (2 + Evictions(trace, from, from + window)) * limit - 1
  {
    var evictions := Evictions(trace, from, from + window);
    BoundWithRefills(slot, trace, window, limit, from);
    RefillsCountEvictions(trace, limit, from, from + window);
    assert (2 + evictions) * limit == 2 * limit + evictions * limit;
  }

  // ----- `increment` run to completion at one instant, without evictions -----

  /** INCR, then EXPIRE when the counter was just opened. */
  function Hit(slot: Slot, at: nat, window: nat): (r: Slot)
    ensures r.Some? && r.value.count >= 1
  {
    var counted := Apply(slot, Incr(at), window);
    if counted.value.count == 1 then Apply(counted, Expire(at), window) else counted
  }

  // ----- `increment` among other commands -----

  /** The counter after a trace. */
  function AppliedAll(slot: Slot, trace: seq<Event>, window: nat): Slot {
    if trace == [] then slot else Apply(AppliedAll(slot, trace[..|trace| - 1], window), trace[|trace| - 1], window)
  }

  lemma {:induction false} AppliedInParts(slot: Slot, first: seq<Event>, second: seq<Event>, window: nat)
    ensures AppliedAll(slot, first + second, window) == AppliedAll(AppliedAll(slot, first, window), second, window)
  {
    if second == [] {
      assert first + second == first;
    } else {
      AppliedInParts(slot, first, second[..|second| - 1], window);
      assert (first + second)[..|first + second| - 1] == first + second[..|second| - 1];
    }
  }

  /** The trace in order of time, from an instant on. */
  ghost predicate AllFrom(trace: seq<Event>, from: nat) {
    Chronological(trace) && forall i :: 0 <= i < |trace| ==> from <= trace[i].at
  }

  function EndOf(trace: seq<Event>, from: nat): nat {
    if trace == [] then from else trace[|trace| - 1].at
  }

  /** A hit with what others do after its INCR and after its EXPIRE; only the first hit of a counter sends one. */
  ghost function HitTrace(at: nat, first: bool, others: seq<Event>, others': seq<Event>): seq<Event> {
    [Incr(at)] + others + (if first then [Expire(EndOf(others, at))] else []) + others'
  }

  /** A Redis command of the hit that fails. */
  datatype Fault = NoFault | IncrFails | ExpireFails | TtlFails

  /** The hit is the first of its counter. */
  predicate Opens(slot: Slot, at: nat, window: nat) {
    Apply(slot, Incr(at), window).value.count == 1
  }

  /** The failing command is one the hit sends. */
  predicate Strikes(fault: Fault, first: bool) {
    fault.IncrFails? || fault.TtlFails? || (fault.ExpireFails? && first)
  }

  ghost function HitTraceUntil(at: nat, first: bool, others: seq<Event>, others': seq<Event>,
                               fault: Fault): seq<Event> {
    if fault.IncrFails? then []
    else if fault.ExpireFails? && first then [Incr(at)] + others
    else HitTrace(at, first, others, others')
  }

  lemma HitTraceInParts(slot: Slot, at: nat, first: bool, others: seq<Event>, others': seq<Event>, window: nat)
    ensures var s := AppliedAll(Apply(slot, Incr(at), window), others, window);
      var s' := if first then Apply(s, Expire(EndOf(others, at)), window) else s;
      && AppliedAll(slot, HitTrace(at, first, others, others'), window) == AppliedAll(s', others', window)
      && AppliedAll(slot, [Incr(at)] + others, window) == s
  {
    var expire := if first then [Expire(EndOf(others, at))] else [];
    AppliedInParts(slot, [Incr(at)] + others + expire, others', window);
    AppliedInParts(slot, [Incr(at)] + others, expire, window);
    AppliedInParts(slot, [Incr(at)], others, window);
    OneEvent(slot, Incr(at), window);
    if first {
      OneEvent(AppliedAll(slot, [Incr(at)] + others, window), Expire(EndOf(others, at)), window);
    }
  }

  lemma OneEvent(slot: Slot, e: Event, window: nat)
    ensures AppliedAll(slot, [e], window) == Apply(slot, e, window)
  {
    assert [e][..0] == [];
  }

  /** The trace of a hit is one that the sliding bound speaks of. */
  lemma HitTraceIsChronological(at: nat, first: bool, others: seq<Event>, others': seq<Event>)
    requires AllFrom(others, at) && AllFrom(others', EndOf(others, at))
    ensures Chronological(HitTrace(at, first, others, others'))
  {
  }

  /** Undisturbed, it is the hit run to completion at one instant. */
  lemma UndisturbedHit(slot: Slot, at: nat, window: nat)
    ensures AppliedAll(slot, HitTrace(at, Opens(slot, at, window), [], []), window) == Hit(slot, at, window)
  {
    HitTraceInParts(slot, at, Opens(slot, at, window), [], [], window);
  }

  /**
   Only the first hit of a counter sends EXPIRE. When that command is lost, nothing but an eviction ever resets the
   counter: however much later, a hit passes only while the counter is within the limit, and then never again.
   */
  lemma {:induction false} LostExpireBlocksForGood(count: nat, hits: seq<Event>, window: nat, limit: nat, i: nat)
    requires count > 0 && i < |hits| && forall k :: 0 <= k < |hits| ==> hits[k].Incr?
    ensures AppliedAll(Some(Counter(count, None)), hits[..i], window) == Some(Counter(count + i, None))
    ensures !Opens(AppliedAll(Some(Counter(count, None)), hits[..i], window), hits[i].at, window)
    ensures Passes(AppliedAll(Some(Counter(count, None)), hits[..i], window), hits[i], window, limit) <==>
      count + i < limit
  {
    if i > 0 {
      LostExpireBlocksForGood(count, hits, window, limit, i - 1);
      assert hits[..i][..i - 1] == hits[..i - 1];
    }
  }

  // ----- hits run to completion -----

  /** The counter after hits at the given instants, starting from none. */
  ghost function AfterHits(hits: seq<nat>, window: nat): Slot {
    if hits == [] then None else Hit(AfterHits(hits[..|hits| - 1], window), hits[|hits| - 1], window)
  }

  /** The hit that opened the window hit `i` falls into: a window lasts `window` from its first hit. */
  ghost function Opener(hits: seq<nat>, window: nat, i: nat): (o: nat)
    requires i < |hits|
    ensures o <= i
  {
    if i == 0 then 0
    else
      var previous := Opener(hits, window, i - 1);
      if hits[i] < hits[previous] + window then previous else i
  }

  /** Hit i is answered with its position in its window, so exactly the first `limit` hits of a window pass. */
  lemma {:induction false} FirstLimitHitsPass(hits: seq<nat>, window: nat, limit: nat, i: nat)
    requires i < |hits| && window > 0
    ensures AfterHits(hits[..i + 1], window)
         == Some(Counter(i - Opener(hits, window, i) + 1, Some(hits[Opener(hits, window, i)] + window)))
    ensures Passes(AfterHits(hits[..i], window), Incr(hits[i]), window, limit) <==> i < Opener(hits, window, i) + limit
  {
    assert hits[..i + 1][..i] == hits[..i];
    if i > 0 {
      FirstLimitHitsPass(hits, window, limit, i - 1);
    }
  }

  // ----- the bound is reached -----

  ghost function Repeat(e: Event, n: nat): (r: seq<Event>)
    ensures |r| == n && forall i :: 0 <= i < n ==> r[i] == e
  {
    if n == 0 then [] else [e] + Repeat(e, n - 1)
  }

  lemma {:induction false} BurstPasses(slot: Slot, tail: seq<Event>, n: nat, at: nat, window: nat, limit: nat,
                                       from: nat, until: nat)
    requires Live(slot, at) && slot.value.count + n <= limit && from <= at < until
    ensures Passed(slot, Repeat(Incr(at), n) + tail, window, limit, from, until)
         == n + Passed(Some(slot.value.(count := slot.value.count + n)), tail, window, limit, from, until)
    decreases n
  {
    var trace := Repeat(Incr(at), n) + tail;
    if n == 0 {
      assert trace == tail;
    } else {
      assert trace[1..] == Repeat(Incr(at), n - 1) + tail;
      BurstPasses(Apply(slot, Incr(at), window), tail, n - 1, at, window, limit, from, until);
    }
  }

  /** A window opened at `at` and filled up at instant `last`. */
  ghost function FullWindow(at: nat, last: nat, limit: nat): (r: seq<Event>)
    requires limit > 0
  {
    [Incr(at), Expire(at)] + Repeat(Incr(last), limit - 1)
  }

  lemma FullWindowPasses(slot: Slot, tail: seq<Event>, at: nat, last: nat, window: nat, limit: nat, from: nat,
                         until: nat)
    requires limit > 0 && window > 0 && !Live(slot, at) && at <= last < at + window && from <= last < until
    ensures Passed(slot, FullWindow(at, last, limit) + tail, window, limit, from, until)
         == (if from <= at < until then limit else limit - 1)
            + Passed(Some(Counter(limit, Some(at + window))), tail, window, limit, from, until)
  {
    var burst := Repeat(Incr(last), limit - 1) + tail;
    var trace := FullWindow(at, last, limit) + tail;
    assert trace[0] == Incr(at) && trace[1..] == [Expire(at)] + burst && trace[1..][1..] == burst;
    BurstPasses(Some(Counter(1, Some(at + window))), tail, limit - 1, last, window, limit, from, until);
  }

  /** Windows opened and filled up at instant `at`, one after the other, with an eviction between two of them. */
  ghost function Refilled(at: nat, limit: nat, evictions: nat): seq<Event>
    requires limit > 0
  {
    if evictions == 0 then FullWindow(at, at, limit)
    else FullWindow(at, at, limit) + ([Evict(at)] + Refilled(at, limit, evictions - 1))
  }

  lemma {:induction false} RefilledHappensAtOnce(at: nat, limit: nat, evictions: nat)
    requires limit > 0
    ensures forall i :: 0 <= i < |Refilled(at, limit, evictions)| ==> Refilled(at, limit, evictions)[i].at == at
  {
    if evictions > 0 {
      RefilledHappensAtOnce(at, limit, evictions - 1);
    }
  }

  lemma {:induction false} RefilledPasses(slot: Slot, at: nat, window: nat, limit: nat, evictions: nat, from: nat,
                                          until: nat)
    requires limit > 0 && window > 0 && !Live(slot, at) && from <= at < until
    ensures Passed(slot, Refilled(at, limit, evictions), window, limit, from, until) == (1 + evictions) * limit
    decreases evictions
  {
    var full := Some(Counter(limit, Some(at + window)));
    if evictions == 0 {
      assert FullWindow(at, at, limit) + [] == FullWindow(at, at, limit);
      FullWindowPasses(slot, [], at, at, window, limit, from, until);
    } else {
      var rest := Refilled(at, limit, evictions - 1);
      FullWindowPasses(slot, [Evict(at)] + rest, at, at, window, limit, from, until);
      RefilledPasses(None, at, window, limit, evictions - 1, from, until);
      assert ([Evict(at)] + rest)[1..] == rest;
      assert Passed(full, [Evict(at)] + rest, window, limit, from, until)
          == Passed(None, rest, window, limit, from, until);
      assert (1 + evictions) * limit == limit + (1 + (evictions - 1)) * limit;
    }
  }

  lemma {:induction false} EvictionsOfConcat(a: seq<Event>, b: seq<Event>, from: nat, until: nat)
    ensures Evictions(a + b, from, until) == Evictions(a, from, until) + Evictions(b, from, until)
  {
    if a == [] {
      assert a + b == b;
    } else {
      EvictionsOfConcat(a[1..], b, from, until);
      assert (a + b)[1..] == a[1..] + b;
    }
  }

  lemma {:induction false} RefilledEvictions(at: nat, limit: nat, evictions: nat, from: nat, until: nat)
    requires limit > 0 && from <= at < until
    ensures Evictions(Refilled(at, limit, evictions), from, until) == evictions
  {
    var full := FullWindow(at, at, limit);
    NoEvictions(full, from, until);
    if evictions > 0 {
      var rest := Refilled(at, limit, evictions - 1);
      RefilledEvictions(at, limit, evictions - 1, from, until);
      EvictionsOfConcat(full, [Evict(at)] + rest, from, until);
      assert ([Evict(at)] + rest)[1..] == rest;
    }
  }

  lemma {:induction false} NoEvictions(trace: seq<Event>, from: nat, until: nat)
    requires forall i :: 0 <= i < |trace| ==> !trace[i].Evict?
    ensures Evictions(trace, from, until) == 0
  {
    if trace != [] {
      NoEvictions(trace[1..], from, until);
    }
  }

  /**
   For every number of evictions the bound is reached: one window is opened at 0 and filled up at its last
   instant, the next one at once, and again after every eviction.
   */
  lemma SlidingBoundIsReached(window: nat, limit: nat, evictions: nat) returns (trace: seq<Event>)
    requires window > 1 && limit > 0
    ensures Chronological(trace)
    ensures Evictions(trace, window - 1, 2 * window - 1) == evictions
    ensures Passed(None, trace, window, limit, window - 1, 2 * window - 1) == (2 + evictions) * limit - 1
  {
    var from, until := window - 1, 2 * window - 1;
    var first, second := FullWindow(0, window - 1, limit), Refilled(window, limit, evictions);
    trace := first + second;
    FullWindowPasses(None, second, 0, window - 1, window, limit, from, until);
    RefilledPasses(Some(Counter(limit, Some(window))), window, window, limit, evictions, from, until);
    assert (2 + evictions) * limit == limit + (1 + evictions) * limit;
    NoEvictions(first, from, until);
    RefilledEvictions(window, limit, evictions, from, until);
    EvictionsOfConcat(first, second, from, until);
    RefilledHappensAtOnce(window, limit, evictions);
  }

  // ----- the storage -----

  const PREFIX := "throttler:"

  function RedisKey(throttlerName: string, key: string): string {
    PREFIX + throttlerName + ":" + key
  }

  /** Throttlers without a colon in their name never share a counter. */
  lemma RedisKeysAreSeparate(n1: string, k1: string, n2: string, k2: string)
    requires ':' !in n1 && ':' !in n2
    ensures RedisKey(n1, k1) == RedisKey(n2, k2) <==> n1 == n2 && k1 == k2
    ensures RedisKey(n1, k1) == "throttler:" + n1 + ":" + k1
  {
    assert RedisKey(n1, k1) == PREFIX + (n1 + ":" + k1) && RedisKey(n2, k2) == PREFIX + (n2 + ":" + k2);
    PrefixCancels(PREFIX, n1 + ":" + k1, n2 + ":" + k2);
    CutAtFirstColonIsUnique(n1, k1, n2, k2);
  }

  function Seconds(milliseconds: nat): nat {
    (milliseconds + 999) / 1000
  }

  /** Milliseconds are rounded up to whole seconds. */
  lemma SecondsRoundUp(milliseconds: nat)
    ensures milliseconds <= 1000 * Seconds(milliseconds) < milliseconds + 1000
  {
  }

  /** Redis TTL: rounded to seconds, -1 without a deadline, -2 without a live counter. */
  ghost function RemainingSeconds(slot: Slot, now: nat): int {
    if !Live(slot, now) then -2
    else if slot.value.deadline.None? then -1
    else (slot.value.deadline.value - now + 500) / 1000
  }

  /** For a live counter with a deadline the answer is off by at most half a second. */
  lemma RemainingIsRounded(slot: Slot, now: nat)
    ensures !Live(slot, now) ==> RemainingSeconds(slot, now) == -2
    ensures Live(slot, now) && slot.value.deadline.None? ==> RemainingSeconds(slot, now) == -1
    ensures Live(slot, now) && slot.value.deadline.Some? ==>
      slot.value.deadline.value - now - 500 < 1000 * RemainingSeconds(slot,
                                                                      now) <= slot.value.deadline.value - now + 500
  {
  }

  datatype Record = Record(totalHits: nat, timeToExpire: nat, isBlocked: bool, timeToBlockExpire: nat)

  class RedisThrottlerStorage {
    var now: nat
    var counters: map<string, Counter>

    constructor ()
      ensures counters == map[]
    {
      now, counters := 0, map[];
    }

    ghost function SlotOf(redisKey: string): Slot
      reads this
    {
      if redisKey in counters then Some(counters[redisKey]) else None
    }

    method IncrCommand(redisKey: string) returns (count: nat)
      modifies this`counters
      ensures redisKey in counters && counters == old(counters)[redisKey := counters[redisKey]]
      ensures SlotOf(redisKey) == Apply(old(SlotOf(redisKey)), Incr(now), 0)
      ensures count == counters[redisKey].count
    {
      var counter := Counter(0, None);
      if redisKey in counters {
        var found := counters[redisKey];
        if found.deadline.None? || now < found.deadline.value {
          counter := found;
        }
      }
      count := counter.count + 1;
      counters := counters[redisKey := counter.(count := count)];
    }

    method ExpireCommand(redisKey: string, seconds: nat)
      modifies this`counters
      ensures SlotOf(redisKey) == Apply(old(SlotOf(redisKey)), Expire(now), 1000 * seconds)
      ensures forall other :: other != redisKey ==> SlotOf(other) == old(SlotOf(other))
    {
      if redisKey !in counters {
        return;
      }
      var found := counters[redisKey];
      if found.deadline.None? || now < found.deadline.value {
        counters := counters[redisKey := found.(deadline := Some(now + 1000 * seconds))];
      }
    }

    method TtlCommand(redisKey: string) returns (seconds: int)
      ensures seconds == RemainingSeconds(SlotOf(redisKey), now)
    {
      if redisKey !in counters {
        return -2;
      }
      var found := counters[redisKey];
      match found.deadline
      case None => seconds := -1;
      case Some(deadline) => seconds := if now < deadline then (deadline - now + 500) / 1000 else -2;
    }

    /** Other processes' commands, and evictions, on the same key. */
    method OthersRun(redisKey: string, others: seq<Event>, window: nat)
      requires AllFrom(others, now)
      modifies this
      ensures now == EndOf(others, old(now))
      ensures SlotOf(redisKey) == AppliedAll(old(SlotOf(redisKey)), others, window)
      ensures forall other :: other != redisKey ==> SlotOf(other) == old(SlotOf(other))
    {
      var slot: Slot := if redisKey in counters then Some(counters[redisKey]) else None;
      for k := 0 to |others|
        invariant slot == AppliedAll(old(SlotOf(redisKey)), others[..k], window)
      {
        assert others[..k + 1][..k] == others[..k];
        slot := Apply(slot, others[k], window);
      }
      assert others[..|others|] == others;
      counters := if slot.Some? then counters[redisKey := slot.value] else counters - {redisKey};
      now := EndOf(others, now);
    }

    /**
     One hit. Between its three commands other processes may run any commands on the same key, and Redis may evict
     it: what happened to the counter is one trace, with the commands of this hit in their places. A command that
     fails ends the hit there.
     */
    method Increment(key: string, ttl: nat, limit: nat, blockDuration: nat, throttlerName: string,
                     others: seq<Event>, others': seq<Event>, fault: Fault)
      returns (r: Result<Record, Fault>)
      requires AllFrom(others, now) && AllFrom(others', EndOf(others, now))
      modifies this
      ensures forall other :: other != RedisKey(throttlerName, key) ==> SlotOf(other) == old(SlotOf(other))
      ensures var slot, window := old(SlotOf(RedisKey(throttlerName, key))), 1000 * Seconds(ttl);
        && var first := Opens(slot, old(now), window);
        && (r.Err? <==> Strikes(fault, first))
        && SlotOf(RedisKey(throttlerName, key))
            == AppliedAll(slot, HitTraceUntil(old(now), first, others, others', fault), window)
        && (r.Ok? ==>
              && r.value.totalHits == Apply(slot, Incr(old(now)), window).value.count
              && (!r.value.isBlocked <==> Passes(slot, Incr(old(now)), window, limit)))
      ensures r.Ok? ==> now == EndOf(others', EndOf(others, old(now)))
      ensures r.Ok? ==> r.value.timeToBlockExpire == if r.value.isBlocked then Seconds(blockDuration) else 0
      ensures var remaining := RemainingSeconds(SlotOf(RedisKey(throttlerName, key)), now);
        r.Ok? ==> r.value.timeToExpire == if remaining > 0 then remaining else Seconds(ttl)
    {
      var redisKey := RedisKey(throttlerName, key);
      var ttlSeconds := Seconds(ttl);
      var blockTtlSeconds := Seconds(blockDuration);
      ghost var slot, window, at := SlotOf(redisKey), 1000 * ttlSeconds, now;
      if fault.IncrFails? {
        return Err(fault);
      }
      var count := IncrCommand(redisKey);
      OthersRun(redisKey, others, 1000 * ttlSeconds);
      assert SlotOf(redisKey) == AppliedAll(Apply(slot, Incr(at), window), others, window);
      HitTraceInParts(slot, at, count == 1, others, others', window);
      if count == 1 {
        if fault.ExpireFails? {
          return Err(fault);
        }
        ExpireCommand(redisKey, ttlSeconds);
      }
      OthersRun(redisKey, others', 1000 * ttlSeconds);
      if fault.TtlFails? {
        return Err(fault);
      }
      var timeToExpire := TtlCommand(redisKey);
      var isBlocked := count > limit;
      return Ok(Record(
        count,
        if timeToExpire > 0 then timeToExpire else ttlSeconds,
        isBlocked,
        if isBlocked then blockTtlSeconds else 0));
    }
  }
}
