/**
 The in-memory frontend rate limiter. A caller picks the current generation under one lock and counts its
 key in it under the generation's own lock, so a slow caller may count in a generation already replaced.
 */
module RateLimiter {
  import opened Common

  /** The counts of one generation, created for one truncated timestamp. */
  class LimitedKeys {
    const truncTS: int
    var keys: map<string, nat>

    constructor (t: int)
      ensures truncTS == t && keys == map[]
    {
      truncTS, keys := t, map[];
    }

    method Take(key: string, max: int) returns (ok: bool)
      modifies this
      ensures keys == old(keys)[key := Count(old(keys), key) + 1]
      ensures ok <==> Count(old(keys), key) < max
    {
      if key !in keys {
        keys := keys[key := 0];
      }
      var val := keys[key];
      keys := keys[key := val + 1];
      return val < max;
    }
  }

  class MemoryLimiter {
    var currGeneration: LimitedKeys?
    const max: int

    constructor (max: int)
      ensures this.max == max && currGeneration == null
    {
      this.max, currGeneration := max, null;
    }

    /** The part of Take under the limiter's lock. */
    method Pick(truncTS: int) returns (limiter: LimitedKeys)
      modifies this
      ensures limiter == currGeneration && limiter.truncTS == truncTS
      ensures if old(currGeneration) != null && old(currGeneration).truncTS == truncTS
              then limiter == old(currGeneration)
              else fresh(limiter) && limiter.keys == map[]
    {
      if currGeneration == null || currGeneration.truncTS != truncTS {
        currGeneration := new LimitedKeys(truncTS);
      }
      limiter := currGeneration;
    }

    /** Take without interference between its two locks. */
    method Take(key: string, truncTS: int) returns (ok: bool)
      modifies this, currGeneration
      ensures currGeneration != null && currGeneration.truncTS == truncTS
      ensures var before := if old(currGeneration) != null && old(currGeneration).truncTS == truncTS
                            then old(if currGeneration == null then map[] else currGeneration.keys) else map[];
              (ok <==> Count(before, key) < max) && currGeneration.keys == before[key := Count(before, key) + 1]
    {
      var limiter := Pick(truncTS);
      ok := limiter.Take(key, max);
    }
  }

  /* ---- All interleavings ---- */

  datatype Generation = Generation(stamp: int, keys: map<string, nat>)

  /** A caller between its two locks. */
  datatype Pending = Pending(key: string, gen: nat)

  /** A finished call: its key, the generation it counted in, and whether it was let through. */
  datatype Verdict = Verdict(key: string, gen: nat, ok: bool)

  /** Generations are numbered in the order they were created; the last one is the current one. */
  datatype State = State(gens: seq<Generation>, callers: map<nat, Pending>, log: seq<Verdict>)

  datatype Action = PickUp(caller: nat, key: string, stamp: int) | CountIn(caller: nat)

  predicate Current(s: State, stamp: int) {
    |s.gens| > 0 && s.gens[|s.gens| - 1].stamp == stamp
  }

  predicate Enabled(s: State, a: Action) {
    match a
    case PickUp(c, _, _) => c !in s.callers
    case CountIn(c) => c in s.callers && s.callers[c].gen < |s.gens|
  }

  function Apply(max: int, s: State, a: Action): State
    requires Enabled(s, a)
  {
    match a
    case PickUp(c, key, stamp) =>
      var gens := if Current(s, stamp) then s.gens else s.gens + [Generation(stamp, map[])];
      s.(gens := gens, callers := s.callers[c := Pending(key, |gens| - 1)])
    case CountIn(c) =>
      var Pending(key, g) := s.callers[c];
      var val := Count(s.gens[g].keys, key);
      State(s.gens[g := s.gens[g].(keys := s.gens[g].keys[key := val + 1])],
            s.callers - {c},
            s.log + [Verdict(key, g, val < max)])
  }

  predicate Steps(max: int, s: State, a: Action, s': State) {
    Enabled(s, a) && s' == Apply(max, s, a)
  }

  ghost predicate IsRun(max: int, acts: seq<Action>, t: seq<State>) {
    && |t| == |acts| + 1
    && t[0] == State([], map[], [])
    && forall k | 0 <= k < |acts| :: Steps(max, t[k], acts[k], t[k + 1])
  }

  function Calls(log: seq<Verdict>, key: string, gen: nat): nat {
    if log == [] then 0
    else Calls(log[..|log| - 1], key, gen) + if log[|log| - 1].key == key && log[|log| - 1].gen == gen then 1 else 0
  }

  function Accepted(log: seq<Verdict>, key: string, gen: nat): nat {
    if log == [] then 0
    else Accepted(log[..|log| - 1], key, gen) +
         if log[|log| - 1].key == key && log[|log| - 1].gen == gen && log[|log| - 1].ok then 1 else 0
  }

  function Limit(max: int, calls: nat): nat {
    if max <= 0 then 0 else if calls < max then calls else max
  }

  ghost predicate Invariant(max: int, s: State) {
    && (forall c | c in s.callers :: s.callers[c].gen < |s.gens|)
    && (forall key: string, g: nat | g < |s.gens| :: Count(s.gens[g].keys, key) == Calls(s.log, key, g))
    && (forall key: string, g: nat | g >= |s.gens| :: Calls(s.log, key, g) == 0)
    && (forall key: string, g: nat :: Accepted(s.log, key, g) == Limit(max, Calls(s.log, key, g)))
  }

  lemma CallsAppend(log: seq<Verdict>, v: Verdict, key: string, gen: nat)
    ensures Calls(log + [v], key, gen) == Calls(log, key, gen) + if v.key == key && v.gen == gen then 1 else 0
    ensures Accepted(log + [v], key, gen) == Accepted(log, key, gen) + if v.key == key && v.gen == gen && v.ok then 1 else 0
  {
    assert (log + [v])[..|log|] == log;
  }

  lemma CallsAfterCount(max: int, s: State, c: nat, key: string, g: nat)
    requires Enabled(s, CountIn(c)) && Accepted(s.log, key, g) == Limit(max, Calls(s.log, key, g))
    requires Count(s.gens[s.callers[c].gen].keys, s.callers[c].key) == Calls(s.log, s.callers[c].key, s.callers[c].gen)
    ensures var s', p := Apply(max, s, CountIn(c)), s.callers[c];
      && Calls(s'.log, key, g) == Calls(s.log, key, g) + (if key == p.key && g == p.gen then 1 else 0)
      && Accepted(s'.log, key, g) == Limit(max, Calls(s'.log, key, g))
  {
    var p := s.callers[c];
    CallsAppend(s.log, Verdict(p.key, p.gen, Calls(s.log, p.key, p.gen) < max), key, g);
  }

  lemma CountKeepsInvariant(max: int, s: State, c: nat)
    requires Enabled(s, CountIn(c)) && Invariant(max, s)
    ensures Invariant(max, Apply(max, s, CountIn(c)))
  {
    var s' := Apply(max, s, CountIn(c));
    forall key: string, g: nat
      ensures Calls(s'.log, key, g) ==
              Calls(s.log, key, g) + if key == s.callers[c].key && g == s.callers[c].gen then 1 else 0
      ensures Accepted(s'.log, key, g) == Limit(max, Calls(s'.log, key, g))
    {
      CallsAfterCount(max, s, c, key, g);
    }
  }

  lemma PickKeepsInvariant(max: int, s: State, c: nat, key: string, stamp: int)
    requires Enabled(s, PickUp(c, key, stamp)) && Invariant(max, s)
    ensures Invariant(max, Apply(max, s, PickUp(c, key, stamp)))
  {
    var s' := Apply(max, s, PickUp(c, key, stamp));
    assert s'.log == s.log;
    assert forall g: nat | g < |s.gens| :: s'.gens[g] == s.gens[g];
  }

  lemma InvariantStep(max: int, s: State, a: Action)
    requires Enabled(s, a) && Invariant(max, s)
    ensures Invariant(max, Apply(max, s, a))
  {
    match a
    case PickUp(c, key, stamp) => PickKeepsInvariant(max, s, c, key, stamp);
    case CountIn(c) => CountKeepsInvariant(max, s, c);
  }

  lemma {:induction false} RunInvariant(max: int, acts: seq<Action>, t: seq<State>)
    requires IsRun(max, acts, t)
    ensures Invariant(max, t[|acts|])
  {
    if acts != [] {
      var n := |acts| - 1;
      RunInvariant(max, acts[..n], t[..n + 1]);
      InvariantStep(max, t[n], acts[n]);
    }
  }

  lemma {:induction false} LogNamesGenerations(max: int, acts: seq<Action>, t: seq<State>)
    requires IsRun(max, acts, t)
    ensures forall v | v in t[|acts|].log :: v.gen < |t[|acts|].gens|
  {
    if acts != [] {
      var n := |acts| - 1;
      LogNamesGenerations(max, acts[..n], t[..n + 1]);
    }
  }

  /** In every interleaving, and whatever the clock does, a generation lets a key through `max` times at most. */
  lemma LimitPerGeneration(max: int, acts: seq<Action>, t: seq<State>, key: string, gen: nat)
    requires IsRun(max, acts, t)
    ensures var log := t[|acts|].log;
            Accepted(log, key, gen) == Limit(max, Calls(log, key, gen))
  {
    RunInvariant(max, acts, t);
  }

  /* ---- The limit of a timestamp ---- */

  /** Calls of a key that counted for a timestamp, and those of them let through. */
  function CallsAt(gens: seq<Generation>, log: seq<Verdict>, key: string, stamp: int): nat
    requires forall v | v in log :: v.gen < |gens|
  {
    if log == [] then 0
    else
      var v := log[|log| - 1];
      assert v in log;
      CallsAt(gens, log[..|log| - 1], key, stamp) + if v.key == key && gens[v.gen].stamp == stamp then 1 else 0
  }

  function AcceptedAt(gens: seq<Generation>, log: seq<Verdict>, key: string, stamp: int): nat
    requires forall v | v in log :: v.gen < |gens|
  {
    if log == [] then 0
    else
      var v := log[|log| - 1];
      assert v in log;
      AcceptedAt(gens, log[..|log| - 1], key, stamp) + if v.key == key && gens[v.gen].stamp == stamp && v.ok then 1 else 0
  }

  function Sum(c: seq<nat>): nat {
    if c == [] then 0 else Sum(c[..|c| - 1]) + c[|c| - 1]
  }

  /** The calls of a key in each generation, those of other timestamps left at 0. */
  function CallsBy(gens: seq<Generation>, log: seq<Verdict>, key: string, stamp: int): (c: seq<nat>)
    ensures |c| == |gens|
  {
    seq(|gens|, g requires 0 <= g < |gens| => if gens[g].stamp == stamp then Calls(log, key, g) else 0)
  }

  function AcceptedBy(gens: seq<Generation>, log: seq<Verdict>, key: string, stamp: int): (c: seq<nat>)
    ensures |c| == |gens|
  {
    seq(|gens|, g requires 0 <= g < |gens| => if gens[g].stamp == stamp then Accepted(log, key, g) else 0)
  }

  lemma {:induction false} SumUpdate(c: seq<nat>, i: nat, d: nat)
    requires i < |c|
    ensures Sum(c[i := c[i] + d]) == Sum(c) + d
  {
    var n := |c| - 1;
    var c' := c[i := c[i] + d];
    if i < n {
      SumUpdate(c[..n], i, d);
      assert c'[..n] == c[..n][i := c[i] + d];
    } else {
      assert c'[..n] == c[..n];
    }
  }

  lemma {:induction false} SumZero(c: seq<nat>)
    requires forall i | 0 <= i < |c| :: c[i] == 0
    ensures Sum(c) == 0
  {
    if c != [] {
      SumZero(c[..|c| - 1]);
    }
  }

  /** One more verdict adds to the entry of its own generation only. */
  lemma ByStep(gens: seq<Generation>, log: seq<Verdict>, v: Verdict, key: string, stamp: int)
    requires v.gen < |gens|
    ensures var here := v.key == key && gens[v.gen].stamp == stamp;
            var c, a := CallsBy(gens, log, key, stamp), AcceptedBy(gens, log, key, stamp);
      && CallsBy(gens, log + [v], key, stamp) == c[v.gen := c[v.gen] + if here then 1 else 0]
      && AcceptedBy(gens, log + [v], key, stamp) == a[v.gen := a[v.gen] + if here && v.ok then 1 else 0]
  {
    forall g: nat | g < |gens|
      ensures Calls(log + [v], key, g) == Calls(log, key, g) + if v.key == key && v.gen == g then 1 else 0
      ensures Accepted(log + [v], key, g) == Accepted(log, key, g) + if v.key == key && v.gen == g && v.ok then 1 else 0
    {
      CallsAppend(log, v, key, g);
    }
  }

  lemma {:induction false} CallsAddUp(gens: seq<Generation>, log: seq<Verdict>, key: string, stamp: int)
    requires forall v | v in log :: v.gen < |gens|
    ensures CallsAt(gens, log, key, stamp) == Sum(CallsBy(gens, log, key, stamp))
  {
    if log == [] {
      SumZero(CallsBy(gens, log, key, stamp));
    } else {
      var front, v := log[..|log| - 1], log[|log| - 1];
      assert v in log && log == front + [v];
      CallsAddUp(gens, front, key, stamp);
      ByStep(gens, front, v, key, stamp);
      SumUpdate(CallsBy(gens, front, key, stamp), v.gen, if v.key == key && gens[v.gen].stamp == stamp then 1 else 0);
    }
  }

  lemma {:induction false} AcceptedAddUp(gens: seq<Generation>, log: seq<Verdict>, key: string, stamp: int)
    requires forall v | v in log :: v.gen < |gens|
    ensures AcceptedAt(gens, log, key, stamp) == Sum(AcceptedBy(gens, log, key, stamp))
  {
    if log == [] {
      SumZero(AcceptedBy(gens, log, key, stamp));
    } else {
      var front, v := log[..|log| - 1], log[|log| - 1];
      assert v in log && log == front + [v];
      AcceptedAddUp(gens, front, key, stamp);
      ByStep(gens, front, v, key, stamp);
      SumUpdate(AcceptedBy(gens, front, key, stamp), v.gen,
                if v.key == key && gens[v.gen].stamp == stamp && v.ok then 1 else 0);
    }
  }

  function LimitEach(max: int, c: seq<nat>): (r: seq<nat>)
    ensures |r| == |c| && forall i | 0 <= i < |c| :: r[i] == Limit(max, c[i])
  {
    seq(|c|, i requires 0 <= i < |c| => Limit(max, c[i]))
  }

  predicate AtMostOne(c: seq<nat>) {
    forall i, j | 0 <= i < j < |c| :: c[i] == 0 || c[j] == 0
  }

  lemma {:induction false} LimitsOfFew(max: int, c: seq<nat>)
    requires max > 0
    ensures Sum(c) <= max ==> Sum(LimitEach(max, c)) == Sum(c)
    ensures Sum(LimitEach(max, c)) == 0 <==> Sum(c) == 0
  {
    if c != [] {
      var n := |c| - 1;
      LimitsOfFew(max, c[..n]);
      assert LimitEach(max, c)[..n] == LimitEach(max, c[..n]);
    }
  }

  lemma {:induction false} LimitsOfOne(max: int, c: seq<nat>)
    requires max > 0 && AtMostOne(c)
    ensures Sum(LimitEach(max, c)) == Limit(max, Sum(c))
  {
    if c != [] {
      var n := |c| - 1;
      LimitsOfOne(max, c[..n]);
      assert LimitEach(max, c)[..n] == LimitEach(max, c[..n]);
      if c[n] > 0 {
        SumZero(c[..n]);
      }
    }
  }

  lemma {:induction false} SumPositive(c: seq<nat>, i: nat)
    requires i < |c| && c[i] > 0
    ensures Sum(c) > 0
  {
    var n := |c| - 1;
    if i < n {
      SumPositive(c[..n], i);
    }
  }

  /** Two generations that counted the key, and more calls than the limit: more than the limit are let through. */
  lemma {:induction false} LimitsOfTwo(max: int, c: seq<nat>, i: nat, j: nat)
    requires max > 0 && i < j < |c| && c[i] > 0 && c[j] > 0 && Sum(c) > max
    ensures Sum(LimitEach(max, c)) > max
  {
    var n := |c| - 1;
    var front := c[..n];
    assert LimitEach(max, c)[..n] == LimitEach(max, front);
    SumPositive(front, i);
    LimitsOfFew(max, front);
    if Sum(front) > max && j < n {
      LimitsOfTwo(max, front, i, j);
    } else if Sum(front) > max {
      LimitsOverflow(max, front);
    }
  }

  lemma {:induction false} LimitsOverflow(max: int, c: seq<nat>)
    requires max > 0 && Sum(c) >= max
    ensures Sum(LimitEach(max, c)) >= max
  {
    var n := |c| - 1;
    assert c != [];
    assert LimitEach(max, c)[..n] == LimitEach(max, c[..n]);
    if Sum(c[..n]) >= max {
      LimitsOverflow(max, c[..n]);
    } else {
      LimitsOfFew(max, c[..n]);
    }
  }

  /** Limiting each count limits the sum exactly when at most one count is positive or the sum is within the limit. */
  lemma LimitsAddUpIff(max: int, c: seq<nat>)
    requires max > 0
    ensures Sum(LimitEach(max, c)) == Limit(max, Sum(c)) <==> AtMostOne(c) || Sum(c) <= max
  {
    LimitsOfFew(max, c);
    if AtMostOne(c) {
      LimitsOfOne(max, c);
    } else {
      var i: nat, j: nat :| i < j < |c| && c[i] != 0 && c[j] != 0;
      if Sum(c) > max {
        LimitsOfTwo(max, c, i, j);
      }
    }
  }

  /** At most one generation made for the timestamp counted the key. */
  ghost predicate CountedOnce(s: State, key: string, stamp: int) {
    forall g: nat, h: nat | g < h < |s.gens| && s.gens[g].stamp == stamp && s.gens[h].stamp == stamp ::
      Calls(s.log, key, g) == 0 || Calls(s.log, key, h) == 0
  }

  /**
   In every interleaving, a key is let through exactly min(max, calls) times for a truncated timestamp if and
   only if at most one generation made for it counted the key, or its calls are within the limit (or the limit
   lets nothing through).
   */
  lemma LimitPerTimestampIff(max: int, acts: seq<Action>, t: seq<State>, key: string, stamp: int)
    requires IsRun(max, acts, t)
    ensures var s := t[|acts|];
            && (forall v | v in s.log :: v.gen < |s.gens|)
            && (AcceptedAt(s.gens, s.log, key, stamp) == Limit(max, CallsAt(s.gens, s.log, key, stamp)) <==>
                max <= 0 || CountedOnce(s, key, stamp) || CallsAt(s.gens, s.log, key, stamp) <= max)
  {
    LogNamesGenerations(max, acts, t);
    if max <= 0 {
      NoLimitNoPass(max, acts, t, key, stamp);
    } else {
      PositiveLimitIff(max, acts, t, key, stamp);
    }
  }

  lemma PositiveLimitIff(max: int, acts: seq<Action>, t: seq<State>, key: string, stamp: int)
    requires IsRun(max, acts, t) && max > 0 && forall v | v in t[|acts|].log :: v.gen < |t[|acts|].gens|
    ensures var s := t[|acts|];
            AcceptedAt(s.gens, s.log, key, stamp) == Limit(max, CallsAt(s.gens, s.log, key, stamp)) <==>
            CountedOnce(s, key, stamp) || CallsAt(s.gens, s.log, key, stamp) <= max
  {
    RunInvariant(max, acts, t);
    var s := t[|acts|];
    var c := CallsBy(s.gens, s.log, key, stamp);
    CallsAddUp(s.gens, s.log, key, stamp);
    AcceptedAddUp(s.gens, s.log, key, stamp);
    assert AcceptedBy(s.gens, s.log, key, stamp) == LimitEach(max, c);
    LimitsAddUpIff(max, c);
    CountedOnceMeans(s, key, stamp);
  }

  lemma CountedOnceMeans(s: State, key: string, stamp: int)
    ensures CountedOnce(s, key, stamp) <==> AtMostOne(CallsBy(s.gens, s.log, key, stamp))
  {
    var c := CallsBy(s.gens, s.log, key, stamp);
    if CountedOnce(s, key, stamp) {
      forall i, j | 0 <= i < j < |c| ensures c[i] == 0 || c[j] == 0 {
      }
    }
    if AtMostOne(c) {
      forall g: nat, h: nat | g < h < |s.gens| && s.gens[g].stamp == stamp && s.gens[h].stamp == stamp
        ensures Calls(s.log, key, g) == 0 || Calls(s.log, key, h) == 0
      {
        assert c[g] == Calls(s.log, key, g) && c[h] == Calls(s.log, key, h);
      }
    }
  }

  ghost predicate StampsDistinct(gens: seq<Generation>) {
    forall g: nat, h: nat | g < h < |gens| :: gens[g].stamp != gens[h].stamp
  }

  /** A new generation is never made for a timestamp that had one. */
  ghost predicate NoStampReused(acts: seq<Action>, t: seq<State>)
    requires |t| == |acts| + 1
  {
    forall k | 0 <= k < |acts| && acts[k].PickUp? && !Current(t[k], acts[k].stamp) :: Unused(t[k].gens, acts[k].stamp)
  }

  predicate Unused(gens: seq<Generation>, stamp: int) {
    forall g | 0 <= g < |gens| :: gens[g].stamp != stamp
  }

  lemma StampsDistinctStep(max: int, s: State, a: Action)
    requires Enabled(s, a) && StampsDistinct(s.gens)
    requires a.PickUp? && !Current(s, a.stamp) ==> Unused(s.gens, a.stamp)
    ensures StampsDistinct(Apply(max, s, a).gens)
  {
    var s' := Apply(max, s, a);
    assert forall g: nat | g < |s.gens| :: s'.gens[g].stamp == s.gens[g].stamp;
  }

  lemma {:induction false} OneGenerationPerStamp(max: int, acts: seq<Action>, t: seq<State>)
    requires IsRun(max, acts, t) && NoStampReused(acts, t)
    ensures StampsDistinct(t[|acts|].gens)
  {
    if acts != [] {
      var n := |acts| - 1;
      OneGenerationPerStamp(max, acts[..n], t[..n + 1]);
      StampsDistinctStep(max, t[n], acts[n]);
    }
  }

  /**
   As long as no timestamp gets a second generation, each key is let through exactly min(max, calls) times per
   truncated timestamp, including the callers that counted in a generation already replaced.
   */
  lemma LimitPerTimestamp(max: int, acts: seq<Action>, t: seq<State>, key: string, stamp: int)
    requires IsRun(max, acts, t) && NoStampReused(acts, t)
    ensures var s := t[|acts|];
            && (forall v | v in s.log :: v.gen < |s.gens|)
            && AcceptedAt(s.gens, s.log, key, stamp) == Limit(max, CallsAt(s.gens, s.log, key, stamp))
  {
    OneGenerationPerStamp(max, acts, t);
    LimitPerTimestampIff(max, acts, t, key, stamp);
  }

  lemma {:induction false} NoneAccepted(gens: seq<Generation>, log: seq<Verdict>, key: string, stamp: int)
    requires forall v | v in log :: v.gen < |gens| && !v.ok
    ensures AcceptedAt(gens, log, key, stamp) == 0
  {
    if log != [] {
      assert log[|log| - 1] in log;
      NoneAccepted(gens, log[..|log| - 1], key, stamp);
    }
  }

  /** With a limit of 0 or less nothing is ever let through. */
  lemma {:induction false} NoLimitNoPass(max: int, acts: seq<Action>, t: seq<State>, key: string, stamp: int)
    requires IsRun(max, acts, t) && max <= 0
    ensures var s := t[|acts|];
            (forall v | v in s.log :: v.gen < |s.gens| && !v.ok) && AcceptedAt(s.gens, s.log, key, stamp) == 0
  {
    LogNamesGenerations(max, acts, t);
    NothingPasses(max, acts, t);
    NoneAccepted(t[|acts|].gens, t[|acts|].log, key, stamp);
  }

  lemma {:induction false} NothingPasses(max: int, acts: seq<Action>, t: seq<State>)
    requires IsRun(max, acts, t) && max <= 0
    ensures forall v | v in t[|acts|].log :: !v.ok
  {
    if acts != [] {
      var n := |acts| - 1;
      NothingPasses(max, acts[..n], t[..n + 1]);
    }
  }

  /* ---- Clocks ---- */

  /** No caller reads a clock earlier than the one the current generation was made for. */
  ghost predicate ClockNeverBack(acts: seq<Action>, t: seq<State>)
    requires |t| == |acts| + 1
  {
    forall k | 0 <= k < |acts| && acts[k].PickUp? && |t[k].gens| > 0 ::
      acts[k].stamp >= t[k].gens[|t[k].gens| - 1].stamp
  }

  ghost predicate StampsGrow(gens: seq<Generation>) {
    forall g: nat, h: nat | g < h < |gens| :: gens[g].stamp < gens[h].stamp
  }

  lemma StampsGrowStep(max: int, s: State, a: Action)
    requires Enabled(s, a) && StampsGrow(s.gens)
    requires a.PickUp? && |s.gens| > 0 ==> a.stamp >= s.gens[|s.gens| - 1].stamp
    ensures StampsGrow(Apply(max, s, a).gens)
    ensures a.PickUp? && !Current(s, a.stamp) ==> Unused(s.gens, a.stamp)
  {
    var s' := Apply(max, s, a);
    assert forall g: nat | g < |s.gens| :: s'.gens[g].stamp == s.gens[g].stamp;
    if a.PickUp? && |s.gens| > 0 {
      assert forall g: nat | g < |s.gens| :: s.gens[g].stamp <= s.gens[|s.gens| - 1].stamp;
    }
  }

  /** A clock that never goes back gives no timestamp a second generation. */
  lemma {:induction false} ClockReusesNoStamp(max: int, acts: seq<Action>, t: seq<State>)
    requires IsRun(max, acts, t) && ClockNeverBack(acts, t)
    ensures NoStampReused(acts, t) && StampsGrow(t[|acts|].gens)
  {
    if acts != [] {
      var n := |acts| - 1;
      ClockReusesNoStamp(max, acts[..n], t[..n + 1]);
      assert Steps(max, t[n], acts[n], t[n + 1]);
      StampsGrowStep(max, t[n], acts[n]);
      forall k | 0 <= k < |acts| && acts[k].PickUp? && !Current(t[k], acts[k].stamp)
        ensures Unused(t[k].gens, acts[k].stamp)
      {
        assert k < n ==> acts[..n][k] == acts[k] && t[..n + 1][k] == t[k];
      }
    }
  }

  lemma FiveSteps(max: int, acts: seq<Action>, t: seq<State>)
    requires |acts| == 5 && |t| == 6 && t[0] == State([], map[], [])
    requires Steps(max, t[0], acts[0], t[1]) && Steps(max, t[1], acts[1], t[2]) && Steps(max, t[2], acts[2], t[3])
    requires Steps(max, t[3], acts[3], t[4]) && Steps(max, t[4], acts[4], t[5])
    ensures IsRun(max, acts, t)
  {
  }

  /** If the clock steps back and forth, one timestamp gets two generations and the limit of 1 is passed twice. */
  lemma ClockBackDoublesLimit() returns (acts: seq<Action>, t: seq<State>)
    ensures IsRun(1, acts, t)
    ensures var s := t[|acts|];
            && (forall v | v in s.log :: v.gen < |s.gens|)
            && AcceptedAt(s.gens, s.log, "k", 5) == 2
  {
    var p, q := Generation(5, map["k" := 1]), Generation(4, map[]);
    var first, both := [Verdict("k", 0, true)], [Verdict("k", 0, true), Verdict("k", 2, true)];
    var late := Pending("j", 1);
    acts := [PickUp(0, "k", 5), CountIn(0), PickUp(1, "j", 4), PickUp(2, "k", 5), CountIn(2)];
    t := [State([], map[], []),
          State([Generation(5, map[])], map[0 := Pending("k", 0)], []),
          State([p], map[], first),
          State([p, q], map[1 := late], first),
          State([p, q, Generation(5, map[])], map[1 := late, 2 := Pending("k", 2)], first),
          State([p, q, p], map[1 := late], both)];
    PicksNew(t[0], 0, "k", 5, t[1]);
    CountsOne(t[1], 0, t[2]);
    PicksNew(t[2], 1, "j", 4, t[3]);
    PicksNew(t[3], 2, "k", 5, t[4]);
    CountsOne(t[4], 2, t[5]);
    FiveSteps(1, acts, t);
    BothAccepted(t[5].gens, both);
  }

  /** A caller for whom a generation is made. */
  lemma PicksNew(s: State, c: nat, key: string, stamp: int, s': State)
    requires c !in s.callers && !Current(s, stamp) && s'.gens == s.gens + [Generation(stamp, map[])]
    requires s'.callers == s.callers[c := Pending(key, |s.gens|)] && s'.log == s.log
    ensures Steps(1, s, PickUp(c, key, stamp), s')
  {
  }

  /** A first call of a key in its generation, under a limit of 1. */
  lemma CountsOne(s: State, c: nat, s': State)
    requires Enabled(s, CountIn(c)) && s.gens[s.callers[c].gen].keys == map[]
    requires var p := s.callers[c];
      && s'.gens == s.gens[p.gen := Generation(s.gens[p.gen].stamp, map[p.key := 1])]
      && s'.callers == s.callers - {c} && s'.log == s.log + [Verdict(p.key, p.gen, true)]
    ensures Steps(1, s, CountIn(c), s')
  {
  }

  lemma BothAccepted(gens: seq<Generation>, log: seq<Verdict>)
    requires |gens| == 3 && gens[0].stamp == gens[2].stamp == 5
    requires log == [Verdict("k", 0, true), Verdict("k", 2, true)]
    ensures (forall v | v in log :: v.gen < |gens|) && AcceptedAt(gens, log, "k", 5) == 2
  {
    assert log[..1] == [log[0]] && log[..1][..0] == [];
    assert AcceptedAt(gens, log[..1], "k", 5) == 1;
  }
}
