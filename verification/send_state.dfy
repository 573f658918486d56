/**
 The publication record kept while one logical transaction is being sent: the hashes last seen mined and
 the number of nonce-too-low replies that count towards giving up.
 */
module SendStates {
  import opened Common

  /** A transaction hash, read as a number. */
  type Hash = nat

  const NONCE_TOO_LOW: string := "nonce too low"

  predicate IsNonceTooLow(err: Option<string>) {
    err.Some? && Contains(err.value, NONCE_TOO_LOW)
  }

  /** One call on the record: a publication result, or a receipt query's verdict on a hash. */
  datatype Event =
    | SendResult(err: Option<string>)
    | Mined(hash: Hash)
    | NotMined(hash: Hash)

  datatype Counters = Counters(mined: set<Hash>, nonceTooLow: uint64)

  /** The effect of one call. */
  function Step(c: Counters, e: Event): Counters {
    match e
    case SendResult(err) =>
      if IsNonceTooLow(err) then c.(nonceTooLow := (c.nonceTooLow + 1) % TWO64) else c
    case Mined(h) =>
      c.(mined := c.mined + {h})
    case NotMined(h) =>
      var mined := c.mined - {h};
      if mined == {} && h in c.mined then Counters(mined, 0) else c.(mined := mined)
  }

  function Replay(log: seq<Event>): Counters {
    if log == [] then Counters({}, 0) else Step(Replay(log[..|log| - 1]), log[|log| - 1])
  }

  predicate Abortable(safeAbort: uint64, log: seq<Event>) {
    Replay(log).mined == {} && Replay(log).nonceTooLow >= safeAbort
  }

  /* ---- What the record means, in terms of the calls alone ---- */

  /** The last verdict on `h` is that it is mined. */
  ghost predicate LastSeenMined(log: seq<Event>, h: Hash) {
    exists i | 0 <= i < |log| :: log[i] == Mined(h) && forall j | i < j < |log| :: log[j] != NotMined(h)
  }

  /** Call `i` is a reorg that took away the only hash last seen mined. */
  ghost predicate EmptiedAt(log: seq<Event>, i: nat)
    requires i < |log|
  {
    && log[i].NotMined?
    && LastSeenMined(log[..i], log[i].hash)
    && forall h: Hash :: LastSeenMined(log[..i], h) ==> h == log[i].hash
  }

  /** The calls from `n` on are those after the last emptying reorg (or all of them). */
  ghost predicate CountsFrom(log: seq<Event>, n: nat) {
    && n <= |log|
    && (n == 0 || EmptiedAt(log, n - 1))
    && forall i: nat | n <= i < |log| :: !EmptiedAt(log, i)
  }

  function LowReplies(log: seq<Event>): nat {
    if log == [] then 0 else LowReplies(log[..|log| - 1]) + if IsLow(log[|log| - 1]) then 1 else 0
  }

  predicate IsLow(e: Event) {
    e.SendResult? && IsNonceTooLow(e.err)
  }

  lemma LastSeenMinedStep(log: seq<Event>, e: Event, h: Hash)
    ensures LastSeenMined(log + [e], h) <==> e == Mined(h) || (LastSeenMined(log, h) && e != NotMined(h))
  {
    var log' := log + [e];
    assert log'[|log|] == e;
    if LastSeenMined(log, h) && e != NotMined(h) {
      var i :| 0 <= i < |log| && log[i] == Mined(h) && forall j | i < j < |log| :: log[j] != NotMined(h);
      assert log'[i] == Mined(h);
    }
    if LastSeenMined(log', h) && e != Mined(h) {
      var i :| 0 <= i < |log'| && log'[i] == Mined(h) && forall j | i < j < |log'| :: log'[j] != NotMined(h);
      assert log[i] == Mined(h);
      assert forall j | i < j < |log| :: log[j] == log'[j];
    }
  }

  /** When nothing was last seen mined after the first `n` calls, the later calls alone decide. */
  lemma LaterCallsDecide(log: seq<Event>, n: nat, h: Hash)
    requires n <= |log| && !LastSeenMined(log[..n], h)
    ensures LastSeenMined(log, h) <==> LastSeenMined(log[n..], h)
  {
    var tail := log[n..];
    if LastSeenMined(tail, h) {
      var i :| 0 <= i < |tail| && tail[i] == Mined(h) && forall j | i < j < |tail| :: tail[j] != NotMined(h);
      assert log[n + i] == Mined(h);
      forall j | n + i < j < |log| ensures log[j] != NotMined(h) {
        assert log[j] == tail[j - n];
      }
    }
    if LastSeenMined(log, h) {
      var i :| 0 <= i < |log| && log[i] == Mined(h) && forall j | i < j < |log| :: log[j] != NotMined(h);
      SeenInFront(log, n, h, i);
      assert tail[i - n] == Mined(h);
      forall j | i - n < j < |tail| ensures tail[j] != NotMined(h) {
        assert tail[j] == log[n + j];
      }
    }
  }

  lemma SeenInFront(log: seq<Event>, n: nat, h: Hash, i: nat)
    requires n <= |log| && i < |log| && log[i] == Mined(h) && forall j | i < j < |log| :: log[j] != NotMined(h)
    ensures i < n ==> LastSeenMined(log[..n], h)
  {
    var front := log[..n];
    if i < n {
      assert front[i] == Mined(h);
      forall j | i < j < |front| ensures front[j] != NotMined(h) {
        assert front[j] == log[j];
      }
    }
  }

  /** The mined set is exactly the hashes whose latest verdict is "mined". */
  lemma {:induction false} MinedMeaning(log: seq<Event>)
    ensures forall h: Hash :: h in Replay(log).mined <==> LastSeenMined(log, h)
  {
    if log != [] {
      var front, e := log[..|log| - 1], log[|log| - 1];
      assert log == front + [e];
      MinedMeaning(front);
      forall h: Hash ensures h in Replay(log).mined <==> LastSeenMined(log, h) {
        LastSeenMinedStep(front, e, h);
      }
    }
  }

  /** Emptying reorgs are where the record is reset. */
  lemma EmptiedAtLast(log: seq<Event>)
    requires log != []
    ensures EmptiedAt(log, |log| - 1) <==>
            log[|log| - 1].NotMined? && Replay(log[..|log| - 1]).mined == {log[|log| - 1].hash}
  {
    var front, e := log[..|log| - 1], log[|log| - 1];
    MinedMeaning(front);
    if EmptiedAt(log, |log| - 1) {
      assert Replay(front).mined == {e.hash};
    }
  }

  lemma EmptiedAtPrefix(log: seq<Event>, e: Event, i: nat)
    requires i < |log|
    ensures EmptiedAt(log + [e], i) <==> EmptiedAt(log, i)
  {
    assert (log + [e])[..i] == log[..i];
  }

  lemma LowRepliesStep(log: seq<Event>, e: Event, n: nat)
    requires n <= |log|
    ensures LowReplies((log + [e])[n..]) == LowReplies(log[n..]) + if IsLow(e) then 1 else 0
  {
    var tail := (log + [e])[n..];
    assert tail[..|tail| - 1] == log[n..];
  }

  /** One call resets the counter, adds to it, or leaves it. */
  lemma CounterStep(c: Counters, e: Event)
    ensures Step(c, e).nonceTooLow ==
            if e.NotMined? && c.mined == {e.hash} then 0 else (c.nonceTooLow + if IsLow(e) then 1 else 0) % TWO64
  {
    if e.NotMined? && e.hash in c.mined && c.mined - {e.hash} == {} {
      assert c.mined == {e.hash} + (c.mined - {e.hash});
    }
  }

  lemma ModAdd(x: nat, d: nat)
    ensures (x % TWO64 + d) % TWO64 == (x + d) % TWO64
  {
  }

  lemma ReplayStep(log: seq<Event>, e: Event)
    ensures Replay(log + [e]) == Step(Replay(log), e)
  {
    assert (log + [e])[..|log|] == log;
  }

  /** Without a reset, one more call counts from the same place. */
  lemma CountContinues(log: seq<Event>, e: Event, n: nat)
    requires n <= |log| && Replay(log).nonceTooLow == LowReplies(log[n..]) % TWO64
    requires !(e.NotMined? && Replay(log).mined == {e.hash})
    ensures Replay(log + [e]).nonceTooLow == LowReplies((log + [e])[n..]) % TWO64
  {
    ReplayStep(log, e);
    LowRepliesStep(log, e, n);
    CounterAdds(Replay(log), e, LowReplies(log[n..]), LowReplies((log + [e])[n..]));
  }

  lemma CounterAdds(c: Counters, e: Event, x: nat, y: nat)
    requires c.nonceTooLow == x % TWO64 && !(e.NotMined? && c.mined == {e.hash}) && y == x + if IsLow(e) then 1 else 0
    ensures Step(c, e).nonceTooLow == y % TWO64
  {
    CounterStep(c, e);
    ModAdd(x, if IsLow(e) then 1 else 0);
  }

  lemma CountStartsOver(log: seq<Event>, e: Event)
    requires e.NotMined? && Replay(log).mined == {e.hash}
    ensures Replay(log + [e]).nonceTooLow == LowReplies((log + [e])[|log| + 1..]) % TWO64
  {
    ReplayStep(log, e);
    CounterStep(Replay(log), e);
  }

  lemma EmptiedAtStep(log: seq<Event>, e: Event)
    ensures EmptiedAt(log + [e], |log|) <==> e.NotMined? && Replay(log).mined == {e.hash}
  {
    EmptiedAtLast(log + [e]);
    assert (log + [e])[..|log|] == log;
  }

  /**
   The counter is the number of nonce-too-low replies since the last reorg that emptied a non-empty mined
   set, taken modulo 2^64; `n` is where that count begins.
   */
  lemma {:induction false} CounterMeaning(log: seq<Event>) returns (n: nat)
    ensures CountsFrom(log, n)
    ensures Replay(log).nonceTooLow == LowReplies(log[n..]) % TWO64
  {
    n := 0;
    if log != [] {
      var front, e := log[..|log| - 1], log[|log| - 1];
      assert log == front + [e];
      n := CounterMeaning(front);
      CountsFromStep(front, e, n);
      EmptiedAtStep(front, e);
      if e.NotMined? && Replay(front).mined == {e.hash} {
        CountStartsOver(front, e);
        n := |front| + 1;
      } else {
        CountContinues(front, e, n);
      }
    }
  }

  /** One more call moves the beginning of the count only if it is an emptying reorg. */
  lemma CountsFromStep(log: seq<Event>, e: Event, n: nat)
    requires CountsFrom(log, n)
    ensures CountsFrom(log + [e], if EmptiedAt(log + [e], |log|) then |log| + 1 else n)
  {
    forall i: nat | i < |log| ensures EmptiedAt(log + [e], i) <==> EmptiedAt(log, i) {
      EmptiedAtPrefix(log, e, i);
    }
  }

  /** There is only one place the count can begin. */
  lemma CountsFromUnique(log: seq<Event>, m: nat, n: nat)
    requires CountsFrom(log, m) && CountsFrom(log, n)
    ensures m == n
  {
    assert n == 0 || EmptiedAt(log, n - 1);
    assert m == 0 || EmptiedAt(log, m - 1);
  }

  lemma {:induction false} NoLowRepliesNoCount(log: seq<Event>)
    requires forall e | e in log :: !IsLow(e)
    ensures Replay(log).nonceTooLow == 0
  {
    if log != [] {
      NoLowRepliesNoCount(log[..|log| - 1]);
      assert log[|log| - 1] in log;
    }
  }

  /** At least `safeAbort` nonce-too-low replies, counted modulo 2^64, came since the last reset. */
  ghost predicate EnoughReplies(safeAbort: uint64, log: seq<Event>) {
    exists n: nat :: CountsFrom(log, n) && LowReplies(log[n..]) % TWO64 >= safeAbort
  }

  /** Nothing was last seen mined, and enough replies came since the last reset. */
  ghost predicate MustAbort(safeAbort: uint64, log: seq<Event>) {
    (forall h: Hash :: !LastSeenMined(log, h)) && EnoughReplies(safeAbort, log)
  }

  /** The record decides to abort exactly when the calls made on it say so. */
  lemma AbortIff(safeAbort: uint64, log: seq<Event>)
    ensures Abortable(safeAbort, log) <==> MustAbort(safeAbort, log)
  {
    MinedMeaning(log);
    assert Replay(log).mined == {} <==> forall h: Hash :: h !in Replay(log).mined;
    var n := CounterMeaning(log);
    if EnoughReplies(safeAbort, log) {
      var m: nat :| CountsFrom(log, m) && LowReplies(log[m..]) % TWO64 >= safeAbort;
      CountsFromUnique(log, m, n);
    }
  }

  /** An abort decision means nothing was last seen mined and enough replies came since the last reset. */
  lemma AbortMeaning(safeAbort: uint64, log: seq<Event>) returns (n: nat)
    requires Abortable(safeAbort, log)
    ensures forall h: Hash :: !LastSeenMined(log, h)
    ensures CountsFrom(log, n) && LowReplies(log[n..]) >= safeAbort
  {
    MinedMeaning(log);
    n := CounterMeaning(log);
  }

  /** The record itself. Each method runs under the record's mutex, so calls are atomic. */
  class SendState {
    var minedTxs: set<Hash>
    var nonceTooLowCount: uint64
    const safeAbortNonceTooLowCount: uint64
    ghost var log: seq<Event>

    ghost predicate Valid()
      reads this
    {
      safeAbortNonceTooLowCount > 0 && Counters(minedTxs, nonceTooLowCount) == Replay(log)
    }

    constructor (safeAbort: uint64)
      requires safeAbort > 0
      ensures Valid() && log == [] && safeAbortNonceTooLowCount == safeAbort
    {
      minedTxs, nonceTooLowCount, safeAbortNonceTooLowCount := {}, 0, safeAbort;
      log := [];
    }

    method ProcessSendError(err: Option<string>)
      requires Valid()
      modifies this
      ensures Valid() && log == old(log) + [SendResult(err)]
    {
      log := log + [SendResult(err)];
      if err.None? {
        return;
      }
      if !Contains(err.value, NONCE_TOO_LOW) {
        return;
      }
      nonceTooLowCount := (nonceTooLowCount + 1) % TWO64;
    }

    method TxMined(txHash: Hash)
      requires Valid()
      modifies this
      ensures Valid() && log == old(log) + [Mined(txHash)]
    {
      minedTxs := minedTxs + {txHash};
      log := log + [Mined(txHash)];
    }

    method TxNotMined(txHash: Hash)
      requires Valid()
      modifies this
      ensures Valid() && log == old(log) + [NotMined(txHash)]
    {
      var wasMined := txHash in minedTxs;
      minedTxs := minedTxs - {txHash};
      if |minedTxs| == 0 && wasMined {
        nonceTooLowCount := 0;
      }
      log := log + [NotMined(txHash)];
    }

    method ShouldAbortImmediately() returns (abort: bool)
      requires Valid()
      ensures abort <==> MustAbort(safeAbortNonceTooLowCount, log)
    {
      AbortIff(safeAbortNonceTooLowCount, log);
      if |minedTxs| > 0 {
        return false;
      }
      return nonceTooLowCount >= safeAbortNonceTooLowCount;
    }

    method IsWaitingForConfirmation() returns (waiting: bool)
      requires Valid()
      ensures waiting <==> exists h: Hash :: LastSeenMined(log, h)
    {
      MinedMeaning(log);
      waiting := |minedTxs| > 0;
      if waiting {
        var h :| h in minedTxs;
        assert LastSeenMined(log, h);
      }
    }
  }
}
