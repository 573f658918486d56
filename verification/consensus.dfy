/**
 The consensus poller of a backend group. Each group update takes the lowest recorded head and walks back
 one block at a time until every backend that serves and answers returns the same block.
 */
module Consensus {
  import opened Common

  datatype Block = Block(number: uint64, hash: string)

  /** Before its first refresh a backend is recorded at block 0 with no hash. */
  const NO_BLOCK := Block(0, "")

  /**
   What one group update observes of its `n` backends: which pass the first scan's peer and freshness test,
   which serve when a height is proposed, and what they return for it. The serving test covers health,
   rate limit, online state, ban, peers and freshness, and is made anew for each proposal.
   */
  datatype View = View(
    eligible: nat -> bool,
    serving: (nat, uint64) -> bool,
    fetch: (nat, uint64) -> Option<Block>
  )

  predicate Answers(v: View, i: nat, p: uint64) {
    v.serving(i, p) && v.fetch(i, p).Some?
  }

  /** The hash of a block a backend returns is never the empty string. */
  ghost predicate HashesNonEmpty(v: View, n: nat) {
    forall i: nat, p: uint64 | i < n && v.fetch(i, p).Some? :: v.fetch(i, p).value.hash != ""
  }

  /* ---- The first scan ---- */

  /** The scan's result over the first `k` backends. */
  function Lowest(v: View, heads: seq<Block>, k: nat): Block
    requires k <= |heads|
  {
    if k == 0 then NO_BLOCK
    else
      var best := Lowest(v, heads, k - 1);
      if v.eligible(k - 1) && (best.number == 0 || heads[k - 1].number < best.number) then heads[k - 1] else best
  }

  function LowestHead(v: View, heads: seq<Block>): Block {
    Lowest(v, heads, |heads|)
  }

  /** `b` is a lowest head among the eligible of the first `k` backends. */
  ghost predicate IsMinimum(v: View, heads: seq<Block>, k: nat, b: Block)
    requires k <= |heads|
  {
    && (exists i: nat | i < k :: v.eligible(i) && heads[i] == b)
    && (forall i: nat | i < k && v.eligible(i) :: b.number <= heads[i].number)
  }

  predicate ZeroHead(v: View, heads: seq<Block>, i: nat)
    requires i < |heads|
  {
    v.eligible(i) && heads[i].number == 0
  }

  /** The last eligible one of the first `k` backends is recorded at block 0. */
  ghost predicate EndsWithZero(v: View, heads: seq<Block>, k: nat)
    requires k <= |heads|
  {
    exists i: nat | i < k :: ZeroHead(v, heads, i) && forall j: nat | i < j < k :: !v.eligible(j)
  }

  ghost predicate AnyEligible(v: View, k: nat) {
    exists i: nat | i < k :: v.eligible(i)
  }

  /** The scan ends at zero exactly when nobody is eligible or the last eligible head is zero. */
  lemma {:induction false} LowestIsZero(v: View, heads: seq<Block>, k: nat)
    requires k <= |heads|
    ensures Lowest(v, heads, k).number == 0 <==> !AnyEligible(v, k) || EndsWithZero(v, heads, k)
  {
    if k > 0 {
      LowestIsZero(v, heads, k - 1);
      if v.eligible(k - 1) {
        assert heads[k - 1].number == 0 ==> ZeroHead(v, heads, k - 1);
      } else {
        assert AnyEligible(v, k) <==> AnyEligible(v, k - 1);
        assert EndsWithZero(v, heads, k) <==> EndsWithZero(v, heads, k - 1);
      }
    }
  }

  lemma {:induction false} LowestOfPositive(v: View, heads: seq<Block>, k: nat)
    requires k <= |heads| && forall i: nat | i < k :: !ZeroHead(v, heads, i)
    ensures AnyEligible(v, k) ==> IsMinimum(v, heads, k, Lowest(v, heads, k))
  {
    if k > 0 {
      LowestOfPositive(v, heads, k - 1);
      LowestIsZero(v, heads, k - 1);
      if v.eligible(k - 1) {
        assert !ZeroHead(v, heads, k - 1);
      } else {
        assert AnyEligible(v, k) <==> AnyEligible(v, k - 1);
      }
    }
  }

  lemma {:induction false} LowestOccurs(v: View, heads: seq<Block>, k: nat)
    requires k <= |heads| && AnyEligible(v, k)
    ensures exists i: nat | i < k :: v.eligible(i) && heads[i] == Lowest(v, heads, k)
  {
    var best := Lowest(v, heads, k - 1);
    if v.eligible(k - 1) && (best.number == 0 || heads[k - 1].number < best.number) {
    } else {
      LowestIsZero(v, heads, k - 1);
      LowestOccurs(v, heads, k - 1);
    }
  }

  /**
   The scan finds a lowest eligible head if and only if no eligible backend is recorded at block 0, or the
   last eligible one is: a zero head is overwritten by whatever eligible head comes after it.
   */
  lemma LowestIsMinimumIff(v: View, heads: seq<Block>)
    requires AnyEligible(v, |heads|)
    ensures IsMinimum(v, heads, |heads|, LowestHead(v, heads)) <==>
            (forall i: nat | i < |heads| :: !ZeroHead(v, heads, i)) || EndsWithZero(v, heads, |heads|)
  {
    var n := |heads|;
    LowestIsZero(v, heads, n);
    LowestOccurs(v, heads, n);
    if forall i: nat | i < n :: !ZeroHead(v, heads, i) {
      LowestOfPositive(v, heads, n);
    }
  }

  /** `i` is the first of the lowest heads among the eligible backends from `z` on and below `k`. */
  ghost predicate FirstLowest(v: View, heads: seq<Block>, z: nat, k: nat, i: nat)
    requires k <= |heads|
  {
    && z <= i < k && v.eligible(i)
    && (forall j: nat | z <= j < i && v.eligible(j) :: heads[j].number > heads[i].number)
    && (forall j: nat | z <= j < k && v.eligible(j) :: heads[j].number >= heads[i].number)
  }

  /** No eligible backend from `z` on is recorded at block 0, and the one before `z`, if there is one, is. */
  ghost predicate AfterZeros(v: View, heads: seq<Block>, z: nat, k: nat)
    requires k <= |heads|
  {
    && z <= k && (z == 0 || ZeroHead(v, heads, z - 1))
    && forall j: nat | z <= j < k :: !ZeroHead(v, heads, j)
  }

  /**
   Which block the scan finds: the first of the lowest eligible heads that come after the last eligible backend
   recorded at block 0, or that zero head itself if no eligible backend comes after it.
   */
  lemma {:induction false} LowestExactly(v: View, heads: seq<Block>, k: nat) returns (z: nat, i: nat)
    requires k <= |heads| && AnyEligible(v, k)
    ensures AfterZeros(v, heads, z, k) && i < k && Lowest(v, heads, k) == heads[i]
    ensures FirstLowest(v, heads, z, k, i) || (z == i + 1 && forall j: nat | z <= j < k :: !v.eligible(j))
  {
    var n := k - 1;
    if !v.eligible(n) {
      assert AnyEligible(v, n);
      z, i := LowestExactly(v, heads, n);
    } else if heads[n].number == 0 {
      assert ZeroHead(v, heads, n);
      z, i := LowestTakesZero(v, heads, n);
    } else if AnyEligible(v, n) {
      z, i := LowestExactly(v, heads, n);
      if Lowest(v, heads, n).number == 0 || heads[n].number < Lowest(v, heads, n).number {
        LowestIsZero(v, heads, n);
        i := n;
      }
    } else {
      LowestIsZero(v, heads, n);
      z, i := 0, n;
    }
  }

  /** A zero head is lower than any other and replaces another zero: the scan always takes it. */
  lemma LowestTakesZero(v: View, heads: seq<Block>, n: nat) returns (z: nat, i: nat)
    requires n < |heads| && ZeroHead(v, heads, n)
    ensures z == n + 1 && i == n && Lowest(v, heads, n + 1) == heads[n]
  {
    z, i := n + 1, n;
  }

  /* ---- One round of the walk ---- */

  datatype Verdict = Agreed(group: seq<nat>) | Split(number: uint64)

  /** Backends `i` and on are asked for `p`; `hash` is the hash to match, empty while none is chosen. */
  function RoundFrom(v: View, n: nat, p: uint64, hash: string, group: seq<nat>, i: nat): Verdict
    requires i <= n
    decreases n - i
  {
    if i == n then Agreed(group)
    else if !Answers(v, i, p) then RoundFrom(v, n, p, hash, group, i + 1)
    else
      var b := v.fetch(i, p).value;
      var want := if hash == "" then b.hash else hash;
      if b.number != p || b.hash != want then Split(b.number)
      else RoundFrom(v, n, p, want, group + [i], i + 1)
  }

  function Round(v: View, n: nat, p: uint64, hash: string): Verdict {
    RoundFrom(v, n, p, hash, [], 0)
  }

  function Answering(v: View, n: nat, p: uint64, i: nat): seq<nat>
    requires i <= n
    decreases n - i
  {
    if i == n then [] else (if Answers(v, i, p) then [i] else []) + Answering(v, n, p, i + 1)
  }

  /** Every backend from `i` on that answers returns block `p` with hash `x`. */
  ghost predicate AllReturn(v: View, n: nat, p: uint64, x: string, i: nat) {
    forall j: nat | i <= j < n && Answers(v, j, p) :: v.fetch(j, p) == Some(Block(p, x))
  }

  /** Every backend from `i` on that answers returns block `p` with one hash, and with `hash` if one is given. */
  ghost predicate AgreesFrom(v: View, n: nat, p: uint64, hash: string, i: nat) {
    exists x: string :: (hash == "" || x == hash) && AllReturn(v, n, p, x, i)
  }

  ghost predicate Agrees(v: View, n: nat, p: uint64, hash: string) {
    AgreesFrom(v, n, p, hash, 0)
  }

  lemma AgreesSkip(v: View, n: nat, p: uint64, hash: string, i: nat)
    requires i < n && !Answers(v, i, p)
    ensures AgreesFrom(v, n, p, hash, i) <==> AgreesFrom(v, n, p, hash, i + 1)
  {
    if AgreesFrom(v, n, p, hash, i) {
      var x: string :| (hash == "" || x == hash) && AllReturn(v, n, p, x, i);
      assert AllReturn(v, n, p, x, i + 1);
    }
    if AgreesFrom(v, n, p, hash, i + 1) {
      var x: string :| (hash == "" || x == hash) && AllReturn(v, n, p, x, i + 1);
      assert AllReturn(v, n, p, x, i);
    }
  }

  lemma AgreesTake(v: View, n: nat, p: uint64, hash: string, i: nat)
    requires i < n && Answers(v, i, p) && HashesNonEmpty(v, n)
    ensures var b := v.fetch(i, p).value;
            var want := if hash == "" then b.hash else hash;
            AgreesFrom(v, n, p, hash, i) <==> b.number == p && b.hash == want && AgreesFrom(v, n, p, want, i + 1)
  {
    var b := v.fetch(i, p).value;
    var want := if hash == "" then b.hash else hash;
    if AgreesFrom(v, n, p, hash, i) {
      var x: string :| (hash == "" || x == hash) && AllReturn(v, n, p, x, i);
      assert b == Block(p, x);
      assert AllReturn(v, n, p, x, i + 1);
    }
    if b.number == p && b.hash == want && AgreesFrom(v, n, p, want, i + 1) {
      var x: string :| (want == "" || x == want) && AllReturn(v, n, p, x, i + 1);
      assert AllReturn(v, n, p, x, i);
    }
  }

  lemma {:induction false} RoundFromMeaning(v: View, n: nat, p: uint64, hash: string, group: seq<nat>, i: nat)
    requires i <= n && HashesNonEmpty(v, n)
    ensures RoundFrom(v, n, p, hash, group, i).Agreed? <==> AgreesFrom(v, n, p, hash, i)
    ensures RoundFrom(v, n, p, hash, group, i).Agreed? ==>
            RoundFrom(v, n, p, hash, group, i).group == group + Answering(v, n, p, i)
    decreases n - i
  {
    if i == n {
      assert AllReturn(v, n, p, hash, i);
    } else if !Answers(v, i, p) {
      RoundFromMeaning(v, n, p, hash, group, i + 1);
      AgreesSkip(v, n, p, hash, i);
    } else {
      AgreesTake(v, n, p, hash, i);
      var b := v.fetch(i, p).value;
      var want := if hash == "" then b.hash else hash;
      if b.number == p && b.hash == want {
        RoundFromMeaning(v, n, p, want, group + [i], i + 1);
        assert group + [i] + Answering(v, n, p, i + 1) == group + Answering(v, n, p, i);
      }
    }
  }

  /** A round succeeds exactly when the answering backends agree, and then they are the group, in order. */
  lemma RoundMeaning(v: View, n: nat, p: uint64, hash: string)
    requires HashesNonEmpty(v, n)
    ensures Round(v, n, p, hash).Agreed? <==> Agrees(v, n, p, hash)
    ensures Round(v, n, p, hash).Agreed? ==> Round(v, n, p, hash).group == Answering(v, n, p, 0)
  {
    RoundFromMeaning(v, n, p, hash, [], 0);
  }

  /* ---- The walk ---- */

  /** The height proposed in round `r`; below zero the 64-bit number wraps. */
  function Height(lowest: Block, r: nat): uint64 {
    (lowest.number - r) % TWO64
  }

  /** Only the first round is held to a recorded hash. */
  function WantedHash(lowest: Block, r: nat): string {
    if r == 0 then lowest.hash else ""
  }

  ghost predicate AgreesInRound(v: View, n: nat, lowest: Block, r: nat) {
    Agrees(v, n, Height(lowest, r), WantedHash(lowest, r))
  }

  /** The walk stops in round `r`: the first one in which the answering backends agree. */
  ghost predicate StopsIn(v: View, n: nat, lowest: Block, r: nat) {
    AgreesInRound(v, n, lowest, r) && forall q: nat | q < r :: !AgreesInRound(v, n, lowest, q)
  }

  /** In round `r` the first backend to disagree did so at or below the previous consensus. */
  predicate BreaksIn(v: View, n: nat, lowest: Block, r: nat, previous: uint64) {
    var verdict := Round(v, n, Height(lowest, r), WantedHash(lowest, r));
    verdict.Split? && verdict.number <= previous
  }

  /** What a walk of `rounds` failed rounds and one that agrees leaves behind. */
  ghost predicate Publishes(v: View, n: nat, lowest: Block, rounds: nat, previous: uint64,
                            number: uint64, group: seq<nat>, broken: bool) {
    && StopsIn(v, n, lowest, rounds)
    && number == Height(lowest, rounds)
    && group == Answering(v, n, number, 0)
    && (broken <==> exists q: nat | q < rounds :: BreaksIn(v, n, lowest, q, previous))
  }

  /** The first `rounds` rounds failed, and `broken` tells whether one of them broke the previous consensus. */
  ghost predicate Walked(v: View, n: nat, lowest: Block, rounds: nat, previous: uint64, broken: bool) {
    && (forall q: nat | q < rounds :: !AgreesInRound(v, n, lowest, q))
    && (broken <==> exists q: nat | q < rounds :: BreaksIn(v, n, lowest, q, previous))
  }

  lemma WalkOn(v: View, n: nat, lowest: Block, rounds: nat, previous: uint64, broken: bool)
    requires Walked(v, n, lowest, rounds, previous, broken) && !AgreesInRound(v, n, lowest, rounds)
    ensures Walked(v, n, lowest, rounds + 1, previous, broken || BreaksIn(v, n, lowest, rounds, previous))
  {
    if BreaksIn(v, n, lowest, rounds, previous) {
      assert exists q: nat | q < rounds + 1 :: BreaksIn(v, n, lowest, q, previous);
    }
  }

  lemma NextHeight(lowest: Block, rounds: nat)
    ensures Height(lowest, rounds + 1) == if Height(lowest, rounds) == 0 then TWO64 - 1 else Height(lowest, rounds) - 1
  {
  }

  class Poller {
    var heads: seq<Block>
    var consensusNumber: uint64
    var consensusGroup: seq<nat>

    constructor (n: nat)
      ensures |heads| == n && (forall i: nat | i < n :: heads[i] == NO_BLOCK)
      ensures consensusNumber == 0 && consensusGroup == []
    {
      heads, consensusNumber, consensusGroup := seq(n, i => NO_BLOCK), 0, [];
    }

    /** Refreshes one backend. `fetched` is None when it is banned, rate limited or does not answer. */
    method UpdateBackend(i: nat, fetched: Option<Block>) returns (changed: bool)
      requires i < |heads|
      modifies this`heads
      ensures heads == if fetched.Some? then old(heads)[i := fetched.value] else old(heads)
      ensures changed <==> heads[i].hash != old(heads[i].hash)
    {
      if fetched.None? {
        return false;
      }
      changed := heads[i].hash != fetched.value.hash;
      heads := heads[i := fetched.value];
    }

    /** The first scan. */
    method FindLowest(v: View) returns (lowest: Block)
      ensures lowest == LowestHead(v, heads)
    {
      lowest := NO_BLOCK;
      for i := 0 to |heads|
        invariant lowest == Lowest(v, heads, i)
      {
        if !v.eligible(i) {
          continue;
        }
        if lowest.number == 0 || heads[i].number < lowest.number {
          lowest := heads[i];
        }
      }
    }

    /** One round: asks the backends in turn and stops at the first that disagrees. */
    method TryHeight(v: View, p: uint64, wanted: string, previous: uint64)
      returns (agreed: bool, group: seq<nat>, broke: bool)
      ensures agreed <==> Round(v, |heads|, p, wanted).Agreed?
      ensures agreed ==> group == Round(v, |heads|, p, wanted).group && !broke
      ensures !agreed ==> (broke <==> Round(v, |heads|, p, wanted).number <= previous)
    {
      var hash := wanted;
      agreed, group, broke := true, [], false;
      for i := 0 to |heads|
        invariant agreed && !broke
        invariant Round(v, |heads|, p, wanted) == RoundFrom(v, |heads|, p, hash, group, i)
      {
        if !v.serving(i, p) {
          continue;
        }
        var fetched := v.fetch(i, p);
        if fetched.None? {
          continue;
        }
        var b := fetched.value;
        if hash == "" {
          hash := b.hash;
        }
        if b.number != p || b.hash != hash {
          broke := previous >= b.number;
          agreed := false;
          break;
        }
        group := group + [i];
      }
    }

    /** The walk. It ends only if some round agrees; `rounds` is the first such round. */
    method Walk(v: View, lowest: Block, previous: uint64)
      returns (proposed: uint64, group: seq<nat>, broken: bool, ghost rounds: nat)
      requires HashesNonEmpty(v, |heads|) && exists r: nat :: AgreesInRound(v, |heads|, lowest, r)
      ensures Publishes(v, |heads|, lowest, rounds, previous, proposed, group, broken)
      ensures group == Answering(v, |heads|, proposed, 0)
    {
      ghost var last: nat :| AgreesInRound(v, |heads|, lowest, last);
      var wanted, hasConsensus := lowest.hash, false;
      proposed, group, broken, rounds := lowest.number, [], false, 0;
      assert Walked(v, |heads|, lowest, 0, previous, false);
      while !hasConsensus
        invariant proposed == Height(lowest, rounds) && Walked(v, |heads|, lowest, rounds, previous, broken)
        invariant !hasConsensus ==> rounds <= last && wanted == WantedHash(lowest, rounds)
        invariant hasConsensus ==> AgreesInRound(v, |heads|, lowest, rounds) && group == Answering(v, |heads|, proposed, 0)
        decreases !hasConsensus, last - rounds
      {
        RoundMeaning(v, |heads|, proposed, wanted);
        var agreed, members, broke := TryHeight(v, proposed, wanted, previous);
        if agreed {
          hasConsensus, group := true, members;
        } else {
          WalkOn(v, |heads|, lowest, rounds, previous, broken);
          NextHeight(lowest, rounds);
          broken := broken || broke;
          rounds := rounds + 1;
          proposed := if proposed == 0 then TWO64 - 1 else proposed - 1;
          wanted := "";
        }
      }
    }

    /** The group update. */
    method UpdateGroup(v: View) returns (broken: bool, ghost rounds: nat)
      requires HashesNonEmpty(v, |heads|)
      requires LowestHead(v, heads).number > 0 ==>
                 exists r: nat :: AgreesInRound(v, |heads|, LowestHead(v, heads), r)
      modifies this`consensusNumber, this`consensusGroup
      ensures LowestHead(v, heads).number == 0 ==>
                !broken && consensusNumber == old(consensusNumber) && consensusGroup == old(consensusGroup)
      ensures LowestHead(v, heads).number > 0 ==>
                Publishes(v, |heads|, LowestHead(v, heads), rounds, old(consensusNumber),
                          consensusNumber, consensusGroup, broken)
    {
      broken, rounds := false, 0;
      var lowest := FindLowest(v);
      if lowest.number == 0 {
        return;
      }
      var proposed, group;
      proposed, group, broken, rounds := Walk(v, lowest, consensusNumber);
      consensusNumber := proposed;
      consensusGroup := group;
    }
  }

  /* ---- What the walk finds ---- */

  /** The chain a backend serves: the hash at each height, genesis first. */
  type Chain = seq<string>

  /** Equal hashes mean equal ancestry, and no hash is empty. */
  ghost predicate HashLinked(chains: seq<Chain>) {
    && (forall i: nat | i < |chains| :: "" !in chains[i])
    && (forall i: nat, j: nat | i < |chains| && j < |chains| :: Linked(chains[i], chains[j]))
  }

  ghost predicate Linked(a: Chain, b: Chain) {
    forall h: nat, k: nat | k <= h < |a| && h < |b| && a[h] == b[h] :: a[k] == b[k]
  }

  ghost predicate SharedGenesis(chains: seq<Chain>) {
    && (forall i: nat | i < |chains| :: |chains[i]| > 0)
    && (forall i: nat, j: nat | i < |chains| && j < |chains| :: chains[i][0] == chains[j][0])
  }

  /** Whatever a backend returns is the block of its chain at the height asked for; it may also fail. */
  ghost predicate Serves(v: View, chains: seq<Chain>) {
    forall i: nat, p: uint64 | i < |chains| && v.fetch(i, p).Some? ::
      p < |chains[i]| && v.fetch(i, p).value == Block(p, chains[i][p])
  }

  /** Backends answer with the height they were asked for. */
  ghost predicate AnswersAsAsked(v: View, n: nat) {
    forall i: nat, p: uint64 | i < n && v.fetch(i, p).Some? :: v.fetch(i, p).value.number == p
  }

  lemma HeightAboveZero(lowest: Block, r: nat)
    requires r <= lowest.number
    ensures Height(lowest, r) == lowest.number - r
  {
  }

  /** With a shared genesis the walk agrees at block 0 at the latest, so it ends without wrapping. */
  lemma GenesisAgrees(v: View, chains: seq<Chain>, lowest: Block)
    requires Serves(v, chains) && SharedGenesis(chains) && lowest.number > 0
    ensures AgreesInRound(v, |chains|, lowest, lowest.number)
  {
    HeightAboveZero(lowest, lowest.number);
    var x := if |chains| > 0 then chains[0][0] else "";
    assert AllReturn(v, |chains|, 0, x, 0);
  }

  lemma {:induction false} AnsweringMembers(v: View, n: nat, p: uint64, i: nat)
    requires i <= n
    ensures forall j: nat :: j in Answering(v, n, p, i) <==> i <= j < n && Answers(v, j, p)
    decreases n - i
  {
    if i < n {
      AnsweringMembers(v, n, p, i + 1);
    }
  }

  /** `i` and `j` both answer for `p`, with different blocks. */
  ghost predicate Disagree(v: View, n: nat, p: uint64, i: nat, j: nat) {
    i < n && j < n && Answers(v, i, p) && Answers(v, j, p) && v.fetch(i, p) != v.fetch(j, p)
  }

  /** `i` answers for `p` with a block other than the recorded one. */
  ghost predicate Differs(v: View, n: nat, b: Block, i: nat) {
    i < n && Answers(v, i, b.number) && v.fetch(i, b.number) != Some(b)
  }

  /** Height `p` cannot be published: two answers disagree there, or one differs from the recorded head. */
  ghost predicate RuledOut(v: View, n: nat, lowest: Block, p: uint64) {
    || (exists i: nat, j: nat :: Disagree(v, n, p, i, j))
    || (p == lowest.number && exists i: nat :: Differs(v, n, lowest, i))
  }

  lemma FailedRound(v: View, chains: seq<Chain>, lowest: Block, q: nat)
    requires Serves(v, chains) && !AgreesInRound(v, |chains|, lowest, q) && q <= lowest.number
    ensures RuledOut(v, |chains|, lowest, Height(lowest, q))
  {
    var n, p, wanted := |chains|, Height(lowest, q), WantedHash(lowest, q);
    HeightAboveZero(lowest, q);
    if exists i: nat :: i < n && Answers(v, i, p) {
      var i: nat :| i < n && Answers(v, i, p);
      var x := chains[i][p];
      if wanted != "" && wanted != x {
        assert Differs(v, n, lowest, i);
      } else {
        assert !AllReturn(v, n, p, x, 0);
        var j: nat :| j < n && Answers(v, j, p) && v.fetch(j, p) != Some(Block(p, x));
        assert Disagree(v, n, p, i, j);
      }
    } else {
      assert AllReturn(v, n, p, wanted, 0);
    }
  }

  /**
   The walk publishes the common ancestor. For hash-linked chains with a shared genesis, fixed during the
   update, it stops without wrapping at a height `h` no higher than the lowest recorded head; any two members
   of the group agree on every block up to `h`; and every greater height up to the lowest head was ruled out,
   by two answering backends that disagree there or, at the lowest head itself, by one that differs from the
   recorded block.
   */
  lemma WalkFindsCommonAncestor(v: View, chains: seq<Chain>, lowest: Block, rounds: nat)
    requires Serves(v, chains) && HashLinked(chains) && SharedGenesis(chains) && lowest.number > 0
    requires StopsIn(v, |chains|, lowest, rounds)
    ensures rounds <= lowest.number
    ensures var n, h, group := |chains|, Height(lowest, rounds), Answering(v, |chains|, Height(lowest, rounds), 0);
      && h == lowest.number - rounds
      && (forall i: nat, j: nat, k: nat | i in group && j in group && k <= h ::
            i < n && j < n && k < |chains[i]| && k < |chains[j]| && chains[i][k] == chains[j][k])
      && (rounds == 0 && lowest.hash != "" ==>
            forall i: nat | i in group :: i < n && v.fetch(i, h) == Some(lowest))
      && (forall p: uint64 | h < p <= lowest.number :: RuledOut(v, n, lowest, p))
  {
    var n := |chains|;
    GenesisAgrees(v, chains, lowest);
    HeightAboveZero(lowest, rounds);
    var h, wanted := Height(lowest, rounds), WantedHash(lowest, rounds);
    AnsweringMembers(v, n, h, 0);
    var x: string :| (wanted == "" || x == wanted) && AllReturn(v, n, h, x, 0);
    forall p: uint64 | h < p <= lowest.number ensures RuledOut(v, n, lowest, p) {
      var q := lowest.number - p;
      HeightAboveZero(lowest, q);
      FailedRound(v, chains, lowest, q);
    }
  }

  /* ---- The broken flag ---- */

  lemma {:induction false} SplitNumber(v: View, n: nat, p: uint64, hash: string, group: seq<nat>, i: nat)
    requires i <= n && AnswersAsAsked(v, n) && RoundFrom(v, n, p, hash, group, i).Split?
    ensures RoundFrom(v, n, p, hash, group, i).number == p
    decreases n - i
  {
    if Answers(v, i, p) {
      var b := v.fetch(i, p).value;
      var want := if hash == "" then b.hash else hash;
      if b.hash == want {
        SplitNumber(v, n, p, want, group + [i], i + 1);
      }
    } else {
      SplitNumber(v, n, p, hash, group, i + 1);
    }
  }

  /**
   When backends answer with the height they were asked for, the broken flag ends true exactly when the
   published height is below both the lowest recorded head and the previous consensus number.
   */
  lemma BrokenMeaning(v: View, n: nat, lowest: Block, rounds: nat, previous: uint64)
    requires HashesNonEmpty(v, n) && AnswersAsAsked(v, n)
    requires StopsIn(v, n, lowest, rounds) && rounds <= lowest.number
    ensures (exists q: nat | q < rounds :: BreaksIn(v, n, lowest, q, previous)) <==>
            Height(lowest, rounds) < lowest.number && Height(lowest, rounds) < previous
  {
    forall q: nat | q < rounds ensures BreaksIn(v, n, lowest, q, previous) <==> lowest.number - q <= previous {
      HeightAboveZero(lowest, q);
      RoundMeaning(v, n, Height(lowest, q), WantedHash(lowest, q));
      assert !AgreesInRound(v, n, lowest, q);
      SplitNumber(v, n, Height(lowest, q), WantedHash(lowest, q), [], 0);
    }
    HeightAboveZero(lowest, rounds);
    if rounds > 0 && lowest.number - (rounds - 1) <= previous {
      assert BreaksIn(v, n, lowest, rounds - 1, previous);
    }
  }

  /** Chains that share a genesis let every walk end, so the group update may be called. */
  lemma ChainsLetWalkEnd(v: View, chains: seq<Chain>, lowest: Block)
    requires Serves(v, chains) && HashLinked(chains) && SharedGenesis(chains)
    ensures HashesNonEmpty(v, |chains|) && AnswersAsAsked(v, |chains|)
    ensures lowest.number > 0 ==> exists r: nat :: AgreesInRound(v, |chains|, lowest, r)
  {
    forall i: nat, p: uint64 | i < |chains| && v.fetch(i, p).Some? ensures v.fetch(i, p).value.hash != "" {
      assert chains[i][p] in chains[i];
    }
    if lowest.number > 0 {
      GenesisAgrees(v, chains, lowest);
    }
  }

  /**
   From the chains to what a group update publishes: a number at or below the head of the first lowest backend; a
   group whose members agree on every block up to it, and have that backend's recorded block if that is published;
   every greater height ruled out; and a broken flag that tells whether the number fell below both the lowest head
   and the number published before.
   */
  lemma PublishedIsCommonAncestor(v: View, chains: seq<Chain>, heads: seq<Block>, lowest: Block, rounds: nat,
                                  previous: uint64, number: uint64, group: seq<nat>, broken: bool)
    returns (first: nat)
    requires Serves(v, chains) && HashLinked(chains) && SharedGenesis(chains)
    requires lowest == LowestHead(v, heads) && lowest.number > 0
    requires Publishes(v, |chains|, lowest, rounds, previous, number, group, broken)
    ensures number <= lowest.number
    ensures forall i: nat :: i in group <==> i < |chains| && Answers(v, i, number)
    ensures forall i: nat, j: nat, k: nat | i in group && j in group && k <= number ::
              i < |chains| && j < |chains| && k < |chains[i]| && k < |chains[j]| && chains[i][k] == chains[j][k]
    ensures first < |heads| && heads[first] == lowest
    ensures (forall j: nat | j < |heads| :: !ZeroHead(v, heads, j)) ==> FirstLowest(v, heads, 0, |heads|, first)
    ensures number == heads[first].number && heads[first].hash != "" ==>
              forall i: nat | i in group :: v.fetch(i, number) == Some(heads[first])
    ensures forall p: uint64 | number < p <= lowest.number :: RuledOut(v, |chains|, lowest, p)
    ensures broken <==> number < lowest.number && number < previous
  {
    ChainsLetWalkEnd(v, chains, lowest);
    WalkFindsCommonAncestor(v, chains, lowest, rounds);
    AnsweringMembers(v, |chains|, number, 0);
    BrokenMeaning(v, |chains|, lowest, rounds, previous);
    LowestIsZero(v, heads, |heads|);
    var z;
    z, first := LowestExactly(v, heads, |heads|);
  }

  /* ---- Runs with a fixed membership ---- */

  /** The chains the backends serve, what the poller has recorded of them, and the tracked consensus. */
  datatype World = World(chains: seq<Chain>, heads: seq<Block>, consensus: uint64)

  predicate ValidWorld(w: World) {
    |w.chains| == |w.heads| && forall i | 0 <= i < |w.chains| :: 0 < |w.chains[i]| < TWO64
  }

  /** The same `members` are eligible and serve throughout, and a backend answers for every block it has. */
  function FixedView(w: World, members: set<nat>): View
    requires ValidWorld(w)
  {
    View(
      (i: nat) => i in members,
      (i: nat, p: uint64) => i in members,
      (i: nat, p: uint64) =>
        if i < |w.chains| && p < |w.chains[i]| then Some(Block(p, w.chains[i][p])) else None)
  }

  function Tip(c: Chain): Block
    requires 0 < |c| < TWO64
  {
    Block(|c| - 1, c[|c| - 1])
  }

  /** A backend's chain grows by one block. */
  ghost predicate Grows(w: World, w': World, i: nat, hash: string) {
    && ValidWorld(w) && ValidWorld(w')
    && i < |w.chains| && w' == w.(chains := w.chains[i := w.chains[i] + [hash]]) && HashLinked(w'.chains)
  }

  /** A backend is refreshed. */
  ghost predicate Refreshes(w: World, w': World, i: nat) {
    ValidWorld(w) && i < |w.chains| && w' == w.(heads := w.heads[i := Tip(w.chains[i])])
  }

  /** No member fails to answer for the lowest head or for any block below it. */
  ghost predicate NoFetchErrors(w: World, members: set<nat>)
    requires ValidWorld(w)
  {
    forall i: nat | i in members ::
      i < |w.chains| && LowestHead(FixedView(w, members), w.heads).number < |w.chains[i]|
  }

  /** Every member has been refreshed; one that has not has no peers recorded and no recent update, and does not serve. */
  ghost predicate Refreshed(w: World, members: set<nat>) {
    forall i: nat | i in members :: i < |w.heads| && w.heads[i] != NO_BLOCK
  }

  /** A group update, as `Poller.UpdateGroup` specifies it. */
  ghost predicate Updates(w: World, w': World, members: set<nat>) {
    && ValidWorld(w) && NoFetchErrors(w, members) && Refreshed(w, members)
    && var v := FixedView(w, members);
       var lowest := LowestHead(v, w.heads);
       if lowest.number == 0 then w' == w
       else exists r: nat :: StopsIn(v, |w.chains|, lowest, r) && w' == w.(consensus := Height(lowest, r))
  }

  ghost predicate NoZeroHeads(w: World, members: set<nat>) {
    forall i: nat | i in members :: i < |w.heads| && w.heads[i].number > 0
  }

  /** Every member has block `p`, and it is the same block. */
  ghost predicate SharedAt(w: World, members: set<nat>, p: nat) {
    && (forall i: nat | i in members :: i < |w.chains| && p < |w.chains[i]|)
    && (forall i: nat, j: nat | i in members && j in members :: w.chains[i][p] == w.chains[j][p])
  }

  /** What is recorded of a refreshed backend is a block of its chain. */
  ghost predicate Recorded(w: World) {
    forall i: nat | i < |w.heads| && i < |w.chains| && w.heads[i] != NO_BLOCK ::
      w.heads[i].number < |w.chains[i]| && w.chains[i][w.heads[i].number] == w.heads[i].hash
  }

  /** The published height is common to the members. */
  ghost predicate Tracked(w: World, members: set<nat>) {
    && ValidWorld(w) && HashLinked(w.chains) && SharedGenesis(w.chains)
    && Recorded(w) && SharedAt(w, members, w.consensus)
  }

  /** The members agree in the round that proposes a height they share. */
  lemma SharedHeightAgrees(w: World, members: set<nat>, p: nat)
    requires Tracked(w, members) && NoFetchErrors(w, members) && members != {} && SharedAt(w, members, p)
    requires var lowest := LowestHead(FixedView(w, members), w.heads);
             lowest.number > 0 && p <= lowest.number
    ensures var v := FixedView(w, members);
            var lowest := LowestHead(v, w.heads);
            AgreesInRound(v, |w.chains|, lowest, lowest.number - p)
  {
    var v, n := FixedView(w, members), |w.chains|;
    var lowest := LowestHead(v, w.heads);
    HeightAboveZero(lowest, lowest.number - p);
    var m: nat :| m in members;
    assert AllReturn(v, n, p, w.chains[m][p], 0);
    if p == lowest.number {
      assert v.eligible(m) && m < n;
      LowestOccurs(v, w.heads, n);
    }
  }

  lemma ReturnsIt(v: View, n: nat, p: uint64, x: string, i: nat)
    requires AllReturn(v, n, p, x, 0) && i < n && Answers(v, i, p)
    ensures v.fetch(i, p) == Some(Block(p, x))
  {
  }

  /** A round that agrees proposes a height the members share. */
  lemma AgreedIsShared(w: World, members: set<nat>, r: nat)
    requires ValidWorld(w) && NoFetchErrors(w, members)
    requires var v := FixedView(w, members);
             var lowest := LowestHead(v, w.heads);
             r <= lowest.number && AgreesInRound(v, |w.chains|, lowest, r)
    ensures SharedAt(w, members, LowestHead(FixedView(w, members), w.heads).number - r)
  {
    var v := FixedView(w, members);
    var lowest := LowestHead(v, w.heads);
    HeightAboveZero(lowest, r);
    var p: uint64 := lowest.number - r;
    var x: string :| AllReturn(v, |w.chains|, p, x, 0);
    forall i: nat | i in members ensures i < |w.chains| && p < |w.chains[i]| && w.chains[i][p] == x {
      assert Answers(v, i, p);
      ReturnsIt(v, |w.chains|, p, x, i);
      assert v.fetch(i, p) == Some(Block(p, w.chains[i][p]));
    }
  }

  /** Members that share a block share every block below it. */
  lemma SharedBelow(w: World, members: set<nat>, p: nat, q: nat)
    requires HashLinked(w.chains) && SharedAt(w, members, p) && q <= p
    ensures SharedAt(w, members, q)
  {
    forall i: nat, j: nat | i in members && j in members ensures w.chains[i][q] == w.chains[j][q] {
      assert Linked(w.chains[i], w.chains[j]);
    }
  }

  lemma {:induction false} FirstAgreement(v: View, n: nat, lowest: Block, r: nat) returns (first: nat)
    requires AgreesInRound(v, n, lowest, r)
    ensures first <= r && StopsIn(v, n, lowest, first)
  {
    if exists q: nat | q < r :: AgreesInRound(v, n, lowest, q) {
      var q: nat :| q < r && AgreesInRound(v, n, lowest, q);
      first := FirstAgreement(v, n, lowest, q);
    } else {
      first := r;
    }
  }

  /**
   The walk stops without its height wrapping past 0 if and only if all members have the same genesis block.
   */
  lemma WalkStaysAboveZeroIff(w: World, members: set<nat>)
    requires ValidWorld(w) && HashLinked(w.chains) && NoFetchErrors(w, members) && members != {}
    requires LowestHead(FixedView(w, members), w.heads).number > 0
    ensures var v := FixedView(w, members);
            var lowest := LowestHead(v, w.heads);
            (exists r: nat | r <= lowest.number :: StopsIn(v, |w.chains|, lowest, r)) <==> SharedAt(w, members, 0)
  {
    var v, n := FixedView(w, members), |w.chains|;
    var lowest := LowestHead(v, w.heads);
    if r: nat :| r <= lowest.number && StopsIn(v, n, lowest, r) {
      AgreedIsShared(w, members, r);
      SharedBelow(w, members, lowest.number - r, 0);
    }
    if SharedAt(w, members, 0) {
      HeightAboveZero(lowest, lowest.number);
      var m: nat :| m in members;
      assert AllReturn(v, n, 0, w.chains[m][0], 0);
      var r := FirstAgreement(v, n, lowest, lowest.number);
    }
  }

  /** Without a shared genesis the proposal wraps past zero and an empty group is accepted at the top height. */
  lemma DisjointChainsWrap()
    ensures var v := View(i => true, (i, p) => true,
                          (i: nat, p: uint64) => if p == 0 then Some(Block(0, if i == 0 then "a" else "b")) else
                                                 if p == 1 then Some(Block(1, if i == 0 then "c" else "d")) else None);
            var lowest := Block(1, "c");
            StopsIn(v, 2, lowest, 2) && Height(lowest, 2) == TWO64 - 1 && Answering(v, 2, TWO64 - 1, 0) == []
  {
    var v := View(i => true, (i, p) => true,
                  (i: nat, p: uint64) => if p == 0 then Some(Block(0, if i == 0 then "a" else "b")) else
                                         if p == 1 then Some(Block(1, if i == 0 then "c" else "d")) else None);
    var lowest := Block(1, "c");
    assert Height(lowest, 0) == 1 && Height(lowest, 1) == 0 && Height(lowest, 2) == TWO64 - 1;
    assert Answers(v, 0, 0) && Answers(v, 1, 0) && Answers(v, 0, 1) && Answers(v, 1, 1);
    assert "a" != "b" && "c" != "d" by { assert "a"[0] != "b"[0] && "c"[0] != "d"[0]; }
    assert AllReturn(v, 2, TWO64 - 1, "", 0);
  }

  /** An update cannot stop above the lowest head, nor skip a height the members share. */
  lemma StopBounds(w: World, members: set<nat>, p: nat, r: nat)
    requires Tracked(w, members) && NoFetchErrors(w, members) && members != {} && SharedAt(w, members, p)
    requires var v := FixedView(w, members);
             var lowest := LowestHead(v, w.heads);
             lowest.number > 0 && p <= lowest.number && StopsIn(v, |w.chains|, lowest, r)
    ensures var lowest := LowestHead(FixedView(w, members), w.heads);
            r <= lowest.number - p && Height(lowest, r) == lowest.number - r && SharedAt(w, members, lowest.number - r)
  {
    var v, n := FixedView(w, members), |w.chains|;
    var lowest := LowestHead(v, w.heads);
    SharedHeightAgrees(w, members, p);
    HeightAboveZero(lowest, r);
    AgreedIsShared(w, members, r);
  }

  /**
   One update leaves the consensus number no lower exactly when the scan proposes nothing or proposes a
   height no lower than the number already published.
   */
  lemma UpdateKeepsConsensusIff(w: World, w': World, members: set<nat>)
    requires Tracked(w, members) && Updates(w, w', members) && members != {}
    ensures var lowest := LowestHead(FixedView(w, members), w.heads).number;
            w'.consensus >= w.consensus <==> lowest == 0 || lowest >= w.consensus
    ensures Tracked(w', members)
  {
    var v := FixedView(w, members);
    var lowest := LowestHead(v, w.heads);
    if lowest.number > 0 {
      var r: nat :| StopsIn(v, |w.chains|, lowest, r) && w' == w.(consensus := Height(lowest, r));
      StopBounds(w, members, if lowest.number < w.consensus then lowest.number else w.consensus, r);
    }
  }

  datatype Event = Grow(i: nat, hash: string) | Refresh(i: nat) | Update

  ghost predicate Steps(w: World, e: Event, w': World, members: set<nat>) {
    match e
    case Grow(i, hash) => Grows(w, w', i, hash)
    case Refresh(i) => Refreshes(w, w', i)
    case Update => Updates(w, w', members)
  }

  /** Nothing published yet, the backends' chains linked to one genesis, nothing recorded. */
  ghost predicate InitialWorld(w: World, members: set<nat>) {
    && ValidWorld(w) && HashLinked(w.chains) && SharedGenesis(w.chains)
    && (forall i: nat | i < |w.heads| :: w.heads[i] == NO_BLOCK)
    && w.consensus == 0 && members != {} && forall i: nat | i in members :: i < |w.chains|
  }

  /** Any sequence of chain growth, backend refreshes and group updates, in any order. */
  ghost predicate IsHistory(ws: seq<World>, es: seq<Event>, members: set<nat>) {
    && |ws| == |es| + 1 && InitialWorld(ws[0], members)
    && forall k | 0 <= k < |es| :: Steps(ws[k], es[k], ws[k + 1], members)
  }

  /** No member is recorded at block 0 when an update runs. */
  ghost predicate NoUpdateSeesZero(ws: seq<World>, es: seq<Event>, members: set<nat>)
    requires |ws| == |es| + 1
  {
    forall k | 0 <= k < |es| && es[k].Update? :: NoZeroHeads(ws[k], members)
  }

  /** No member's recorded head is below the published height. */
  ghost predicate Ahead(w: World, members: set<nat>) {
    && Tracked(w, members) && members != {}
    && forall i: nat | i in members :: i < |w.heads| && w.heads[i].number >= w.consensus
  }

  lemma UpdateKeepsAhead(w: World, w': World, members: set<nat>)
    requires Ahead(w, members) && Updates(w, w', members) && NoZeroHeads(w, members)
    ensures Ahead(w', members) && w'.consensus >= w.consensus
  {
    var v := FixedView(w, members);
    var lowest := LowestHead(v, w.heads);
    var m: nat :| m in members;
    assert v.eligible(m);
    LowestOfPositive(v, w.heads, |w.heads|);
    UpdateKeepsConsensusIff(w, w', members);
    if lowest.number > 0 {
      var r: nat :| StopsIn(v, |w.chains|, lowest, r) && w' == w.(consensus := Height(lowest, r));
      StopBounds(w, members, w.consensus, r);
    }
  }

  lemma GrowKeepsAhead(w: World, w': World, members: set<nat>, i: nat, hash: string)
    requires Ahead(w, members) && Grows(w, w', i, hash)
    ensures Ahead(w', members)
  {
    assert forall j: nat | j < |w.chains| :: w.chains[j] <= w'.chains[j];
  }

  lemma RefreshKeepsAhead(w: World, w': World, members: set<nat>, i: nat)
    requires Ahead(w, members) && Refreshes(w, w', i)
    ensures Ahead(w', members)
  {
  }

  /**
   The tracked consensus number never decreases, over any sequence of chain growth, refreshes and updates,
   as long as no member is recorded at block 0 when an update runs.
   */
  lemma {:induction false} ConsensusNeverDecreases(ws: seq<World>, es: seq<Event>, members: set<nat>)
    requires IsHistory(ws, es, members) && NoUpdateSeesZero(ws, es, members)
    ensures Ahead(ws[|es|], members)
    ensures forall k | 0 <= k <= |es| :: ws[k].consensus <= ws[|es|].consensus
  {
    if es != [] {
      var n := |es| - 1;
      ConsensusNeverDecreases(ws[..n + 1], es[..n], members);
      match es[n]
      case Grow(i, hash) => GrowKeepsAhead(ws[n], ws[n + 1], members, i, hash);
      case Refresh(i) => RefreshKeepsAhead(ws[n], ws[n + 1], members, i);
      case Update => UpdateKeepsAhead(ws[n], ws[n + 1], members);
    }
  }

  /* ---- A history in which the number falls ---- */

  const GENESIS := "g"
  const FIRST := "a"
  const SECOND := "b"

  const BARE: Chain := [GENESIS]
  const SHORT: Chain := [GENESIS, FIRST]
  const LONG: Chain := [GENESIS, FIRST, SECOND]
  const ALL_THREE: set<nat> := {0, 1, 2}

  const ZERO := Block(0, GENESIS)
  const ONE := Block(1, FIRST)
  const TWO := Block(2, SECOND)

  /** Three backends on one chain, of which the first two may lack the last blocks. */
  function Three(first: Chain, second: Chain, heads: seq<Block>, consensus: uint64): World {
    World([first, second, LONG], heads, consensus)
  }

  predicate OnOneChain(c: Chain) {
    c == BARE || c == SHORT || c == LONG
  }

  lemma OneChainLinked(a: Chain, b: Chain)
    requires OnOneChain(a) && OnOneChain(b)
    ensures "" !in a && 0 < |a| && a[0] == GENESIS && Linked(a, b)
  {
    assert "" != GENESIS && "" != FIRST && "" != SECOND;
    assert forall k: nat | k < |a| :: a[k] == LONG[k];
    assert forall k: nat | k < |b| :: b[k] == LONG[k];
  }

  lemma ThreeLinked(chains: seq<Chain>)
    requires forall i: nat | i < |chains| :: OnOneChain(chains[i])
    ensures HashLinked(chains) && SharedGenesis(chains)
  {
    forall i: nat, j: nat | i < |chains| && j < |chains|
      ensures Linked(chains[i], chains[j]) && "" !in chains[i] && 0 < |chains[i]| && chains[i][0] == GENESIS
    {
      OneChainLinked(chains[i], chains[j]);
    }
  }

  lemma LowestOfThree(v: View, heads: seq<Block>)
    requires |heads| == 3 && v.eligible(0) && v.eligible(1) && v.eligible(2)
    ensures heads[0].number == 1 && heads[1].number == 0 ==> LowestHead(v, heads) == heads[2]
    ensures heads[0].number == 1 && heads[1].number == 2 && heads[2].number == 2 ==> LowestHead(v, heads) == heads[0]
  {
    assert Lowest(v, heads, 1) == heads[0];
    assert Lowest(v, heads, 2) == if heads[0].number == 0 || heads[1].number < heads[0].number then heads[1] else heads[0];
  }

  /** When all have the whole chain and the lowest head is a block of it, the first round publishes it. */
  lemma FirstRoundPublishes(w: World)
    requires w.chains == [LONG, LONG, LONG] && |w.heads| == 3 && Refreshed(w, ALL_THREE)
    requires var lowest := LowestHead(FixedView(w, ALL_THREE), w.heads);
             0 < lowest.number < 3 && lowest.hash == LONG[lowest.number]
    ensures Updates(w, w.(consensus := LowestHead(FixedView(w, ALL_THREE), w.heads).number), ALL_THREE)
  {
    var v := FixedView(w, ALL_THREE);
    var lowest := LowestHead(v, w.heads);
    HeightAboveZero(lowest, 0);
    assert AllReturn(v, 3, lowest.number, lowest.hash, 0);
    assert StopsIn(v, 3, lowest, 0);
  }

  lemma ThreeUpdates(b: Block, consensus: uint64, number: uint64)
    requires (b == ZERO && number == 2) || (b == TWO && number == 1)
    ensures Steps(Three(LONG, LONG, [ONE, b, TWO], consensus), Update, Three(LONG, LONG, [ONE, b, TWO], number), ALL_THREE)
  {
    var w := Three(LONG, LONG, [ONE, b, TWO], consensus);
    assert GENESIS != "";
    LowestOfThree(FixedView(w, ALL_THREE), w.heads);
    FirstRoundPublishes(w);
  }

  lemma ThreeRefreshes(first: Chain, second: Chain, heads: seq<Block>, consensus: uint64, i: nat, tip: Block)
    requires OnOneChain(first) && OnOneChain(second) && |heads| == 3 && i < 3 && tip == Tip([first, second, LONG][i])
    ensures Steps(Three(first, second, heads, consensus), Refresh(i), Three(first, second, heads[i := tip], consensus), ALL_THREE)
  {
  }

  lemma FirstGrows(second: Chain, heads: seq<Block>)
    requires OnOneChain(second) && |heads| == 3
    ensures Steps(Three(SHORT, second, heads, 0), Grow(0, SECOND), Three(LONG, second, heads, 0), ALL_THREE)
  {
    var w, w' := Three(SHORT, second, heads, 0), Three(LONG, second, heads, 0);
    assert SHORT + [SECOND] == LONG;
    ThreeLinked(w'.chains);
    assert w'.chains == w.chains[0 := w.chains[0] + [SECOND]];
  }

  lemma SecondGrows(second: Chain, hash: string, heads: seq<Block>)
    requires OnOneChain(second) && OnOneChain(second + [hash]) && |heads| == 3
    ensures Steps(Three(LONG, second, heads, 0), Grow(1, hash), Three(LONG, second + [hash], heads, 0), ALL_THREE)
  {
    var w, w' := Three(LONG, second, heads, 0), Three(LONG, second + [hash], heads, 0);
    ThreeLinked(w'.chains);
    assert w'.chains == w.chains[1 := w.chains[1] + [hash]];
  }

  lemma ThreeBegin()
    ensures InitialWorld(Three(SHORT, BARE, [NO_BLOCK, NO_BLOCK, NO_BLOCK], 0), ALL_THREE)
  {
    ThreeLinked([SHORT, BARE, LONG]);
  }

  /** A history is extended by one step. */
  lemma HistoryGrows(ws: seq<World>, es: seq<Event>, members: set<nat>, e: Event, w': World)
    requires IsHistory(ws, es, members) && Steps(ws[|es|], e, w', members)
    ensures IsHistory(ws + [w'], es + [e], members)
  {
    var ws', es' := ws + [w'], es + [e];
    forall k | 0 <= k < |es'| ensures Steps(ws'[k], es'[k], ws'[k + 1], members) {
      if k < |es| {
        assert ws'[k] == ws[k] && ws'[k + 1] == ws[k + 1] && es'[k] == es[k];
      }
    }
  }

  /** All three are refreshed, the second while its chain is only genesis; then both short chains grow. */
  lemma ZeroHeadArises() returns (ws: seq<World>, es: seq<Event>)
    ensures IsHistory(ws, es, ALL_THREE) && ws[|es|] == Three(LONG, LONG, [ONE, ZERO, TWO], 0)
  {
    var none, heads := [NO_BLOCK, NO_BLOCK, NO_BLOCK], [ONE, ZERO, TWO];
    ThreeBegin();
    ws, es := [Three(SHORT, BARE, none, 0)], [];
    ThreeRefreshes(SHORT, BARE, none, 0, 0, ONE);
    HistoryGrows(ws, es, ALL_THREE, Refresh(0), Three(SHORT, BARE, none[0 := ONE], 0));
    ws, es := ws + [Three(SHORT, BARE, none[0 := ONE], 0)], es + [Refresh(0)];
    ThreeRefreshes(SHORT, BARE, none[0 := ONE], 0, 1, ZERO);
    HistoryGrows(ws, es, ALL_THREE, Refresh(1), Three(SHORT, BARE, none[0 := ONE][1 := ZERO], 0));
    ws, es := ws + [Three(SHORT, BARE, none[0 := ONE][1 := ZERO], 0)], es + [Refresh(1)];
    ThreeRefreshes(SHORT, BARE, none[0 := ONE][1 := ZERO], 0, 2, TWO);
    assert none[0 := ONE][1 := ZERO][2 := TWO] == heads;
    HistoryGrows(ws, es, ALL_THREE, Refresh(2), Three(SHORT, BARE, heads, 0));
    ws, es := ws + [Three(SHORT, BARE, heads, 0)], es + [Refresh(2)];
    ws, es := ChainsCatchUp(ws, es, heads);
  }

  lemma ChainsCatchUp(ws: seq<World>, es: seq<Event>, heads: seq<Block>) returns (ws': seq<World>, es': seq<Event>)
    requires IsHistory(ws, es, ALL_THREE) && |heads| == 3 && ws[|es|] == Three(SHORT, BARE, heads, 0)
    ensures IsHistory(ws', es', ALL_THREE) && ws'[|es'|] == Three(LONG, LONG, heads, 0)
  {
    assert BARE + [FIRST] == SHORT && SHORT + [SECOND] == LONG;
    FirstGrows(BARE, heads);
    HistoryGrows(ws, es, ALL_THREE, Grow(0, SECOND), Three(LONG, BARE, heads, 0));
    ws', es' := ws + [Three(LONG, BARE, heads, 0)], es + [Grow(0, SECOND)];
    SecondGrows(BARE, FIRST, heads);
    HistoryGrows(ws', es', ALL_THREE, Grow(1, FIRST), Three(LONG, SHORT, heads, 0));
    ws', es' := ws' + [Three(LONG, SHORT, heads, 0)], es' + [Grow(1, FIRST)];
    SecondGrows(SHORT, SECOND, heads);
    HistoryGrows(ws', es', ALL_THREE, Grow(1, SECOND), Three(LONG, LONG, heads, 0));
    ws', es' := ws' + [Three(LONG, LONG, heads, 0)], es' + [Grow(1, SECOND)];
  }

  /**
   With a member recorded at block 0 the number can fall, from a fresh start and although every member was
   refreshed, no fetch fails and all follow one chain: heads 1, 0, 2 publish 2, because the zero hides the 1; once
   the backend recorded at 0 is refreshed, 1 is published.
   */
  lemma ZeroHeadLowersConsensus() returns (ws: seq<World>, es: seq<Event>)
    ensures IsHistory(ws, es, ALL_THREE) && |es| >= 3
    ensures es[|es| - 3] == Update && es[|es| - 1] == Update
    ensures ws[|es| - 2].consensus == 2 && ws[|es|].consensus == 1
  {
    ws, es := ZeroHeadArises();
    ThreeUpdates(ZERO, 0, 2);
    HistoryGrows(ws, es, ALL_THREE, Update, Three(LONG, LONG, [ONE, ZERO, TWO], 2));
    ws, es := ws + [Three(LONG, LONG, [ONE, ZERO, TWO], 2)], es + [Update];
    ThreeRefreshes(LONG, LONG, [ONE, ZERO, TWO], 2, 1, TWO);
    assert [ONE, ZERO, TWO][1 := TWO] == [ONE, TWO, TWO];
    HistoryGrows(ws, es, ALL_THREE, Refresh(1), Three(LONG, LONG, [ONE, TWO, TWO], 2));
    ws, es := ws + [Three(LONG, LONG, [ONE, TWO, TWO], 2)], es + [Refresh(1)];
    ThreeUpdates(TWO, 2, 1);
    HistoryGrows(ws, es, ALL_THREE, Update, Three(LONG, LONG, [ONE, TWO, TWO], 1));
    ws, es := ws + [Three(LONG, LONG, [ONE, TWO, TWO], 1)], es + [Update];
  }
}
