/**
 One call of the transaction manager's Send: a main event loop, any number of sender goroutines, a
 one-slot receipt channel, a wait group, a cancellable context and the shared publication record.

 Everything the goroutines can observe (receipts, tip heights, publication errors, ticks, the caller's
 cancellation) is a parameter of an action, so a run is a sequence of actions and every interleaving is one.
 */
module TxManager {
  import opened Common
  import opened SendStates

  const CONTEXT_CANCELED: string := "context canceled"

  datatype Tx = Tx(hash: Hash, nonce: uint64)
  datatype Receipt = Receipt(blockNumber: uint64, reverted: bool)
  datatype Config = Config(numConfirmations: uint64, safeAbort: uint64)

  predicate ValidConfig(c: Config) {
    c.numConfirmations > 0 && c.safeAbort > 0
  }

  datatype Cause = Canceled | DeadlineExceeded
  datatype SendErr = NoError | Reverted | Done(cause: Cause)

  /** A receipt and the transaction it was looked up for. */
  datatype Delivery = Delivery(tx: Tx, receipt: Receipt)

  datatype Outcome = Outcome(delivered: Option<Delivery>, err: SendErr)

  /** Where a live sender stands. A sender that has returned is no longer in the map of senders. */
  datatype Sender =
    | Pricing                                   // inside updateGasPrice
    | Publishing(tx: Tx)                        // inside sendTx
    | Sent(tx: Tx, err: Option<string>)         // before ProcessSendError
    | Rejected                                  // before ShouldAbortImmediately
    | Aborting                                  // before cancel
    | Querying(tx: Tx)                          // inside TransactionReceipt
    | Found(tx: Tx, receipt: Receipt)           // before TxMined
    | Missing(tx: Tx)                           // before TxNotMined
    | Confirming(tx: Tx, receipt: Receipt)      // inside BlockNumber
    | Pausing(tx: Tx)                           // at the select on the context and the query ticker
    | Delivering(tx: Tx, receipt: Receipt)      // at the non-blocking send

  /** Where the caller of Send stands; the deferred cancel runs before the deferred wait. */
  datatype Main =
    | Waiting
    | Ticked                                    // before IsWaitingForConfirmation
    | Starting                                  // before starting another sender
    | Canceling(outcome: Outcome)
    | Joining(outcome: Outcome)
    | Returned(outcome: Outcome)

  /** A receipt together with the tip height it was compared with. */
  datatype Sighting = Sighting(tx: Tx, receipt: Receipt, tip: uint64)

  datatype State = State(
    main: Main,
    senders: map<nat, Sender>,
    spawned: nat,
    waitGroup: int,
    done: Option<Cause>,          // the subcontext's error, if it is done
    callerDone: bool,             // the caller's own context is done
    channel: Option<Delivery>,
    log: seq<Event>,              // calls made on the publication record
    published: set<Tx>,           // history: transactions sendTx accepted
    sightings: set<Sighting>      // history: confirmation checks made
  )

  datatype Lookup = Has(receipt: Receipt) | LookupFailed | NotFound

  /** What a sender does next, with what it is told by the callbacks and the backend. */
  datatype Move =
    | PriceReturns(priced: Option<Tx>)
    | SendReturns(err: Option<string>)
    | ProcessError
    | CheckAbort
    | AbortNow
    | LookupReturns(lookup: Lookup)
    | RecordMined
    | RecordMissing
    | TipReturns(tip: Option<uint64>)
    | PauseDone
    | PauseOver
    | Deliver

  datatype Action =
    | Tick
    | CheckWaiting
    | StartSender
    | SeeDone
    | TakeReceipt
    | DeferredCancel
    | DeferredWait
    | CallerCancels(cause: Cause)
    | By(i: nat, move: Move)

  /** The confirmation test, in 64-bit arithmetic. */
  predicate Confirmed(c: Config, height: uint64, tip: uint64) {
    (height + c.numConfirmations) % TWO64 <= (tip + 1) % TWO64
  }

  function Init(): State {
    State(Waiting, map[0 := Pricing], 1, 1, None, false, None, [], {}, {})
  }

  predicate At(s: State, i: nat) {
    i in s.senders
  }

  /** The moves a sender can make at `p`. */
  predicate CanMove(s: State, p: Sender, m: Move) {
    match m
    case PriceReturns(_) => p.Pricing?
    case SendReturns(_) => p.Publishing?
    case ProcessError => p.Sent?
    case CheckAbort => p.Rejected?
    case AbortNow => p.Aborting?
    case LookupReturns(_) => p.Querying?
    case RecordMined => p.Found?
    case RecordMissing => p.Missing?
    case TipReturns(_) => p.Confirming?
    case PauseDone => p.Pausing? && s.done.Some?
    case PauseOver => p.Pausing?
    case Deliver => p.Delivering?
  }

  predicate Enabled(s: State, a: Action) {
    match a
    case Tick => s.main.Waiting?
    case CheckWaiting => s.main.Ticked?
    case StartSender => s.main.Starting?
    case SeeDone => s.main.Waiting? && s.done.Some?
    case TakeReceipt => s.main.Waiting? && s.channel.Some?
    case DeferredCancel => s.main.Canceling?
    case DeferredWait => s.main.Joining? && s.waitGroup == 0
    case CallerCancels(_) => true
    case By(i, m) => At(s, i) && CanMove(s, s.senders[i], m)
  }

  function Spawn(s: State): State {
    s.(senders := s.senders[s.spawned := Pricing], spawned := s.spawned + 1, waitGroup := s.waitGroup + 1)
  }

  function Cancel(s: State, cause: Cause): State {
    if s.done.None? then s.(done := Some(cause)) else s
  }

  function Conclude(d: Delivery): Outcome {
    Outcome(Some(d), if d.receipt.reverted then Reverted else NoError)
  }

  /** Where the sender goes from `p`; None when it returns. */
  function Next(c: Config, s: State, p: Sender, m: Move): Option<Sender>
    requires CanMove(s, p, m)
  {
    match m
    case PriceReturns(priced) => if priced.None? then None else Some(Publishing(priced.value))
    case SendReturns(err) => Some(Sent(p.tx, err))
    case ProcessError =>
      if p.err.None? then Some(Querying(p.tx))
      else if Contains(p.err.value, CONTEXT_CANCELED) then None
      else Some(Rejected)
    case CheckAbort => if Abortable(c.safeAbort, s.log) then Some(Aborting) else None
    case AbortNow => None
    case LookupReturns(lookup) =>
      (match lookup
       case Has(r) => Some(Found(p.tx, r))
       case LookupFailed => Some(Pausing(p.tx))
       case NotFound => Some(Missing(p.tx)))
    case RecordMined => Some(Confirming(p.tx, p.receipt))
    case RecordMissing => Some(Pausing(p.tx))
    case TipReturns(tip) =>
      if tip.Some? && Confirmed(c, p.receipt.blockNumber, tip.value) then Some(Delivering(p.tx, p.receipt))
      else Some(Pausing(p.tx))
    case PauseDone => None
    case PauseOver => Some(Querying(p.tx))
    case Deliver => None
  }

  /** What the move does to the state the goroutines share. */
  function Effect(s: State, p: Sender, m: Move): (s': State)
    requires CanMove(s, p, m)
    ensures s'.senders == s.senders && s'.waitGroup == s.waitGroup && s'.spawned == s.spawned
    ensures s'.main == s.main && s'.callerDone == s.callerDone
  {
    match m
    case SendReturns(err) => if err.None? then s.(published := s.published + {p.tx}) else s
    case ProcessError => s.(log := s.log + [SendResult(p.err)])
    case AbortNow => Cancel(s, Canceled)
    case RecordMined => s.(log := s.log + [Mined(p.tx.hash)])
    case RecordMissing => s.(log := s.log + [NotMined(p.tx.hash)])
    case TipReturns(tip) =>
      if tip.Some? then s.(sightings := s.sightings + {Sighting(p.tx, p.receipt, tip.value)}) else s
    case Deliver => if s.channel.None? then s.(channel := Some(Delivery(p.tx, p.receipt))) else s
    case _ => s
  }

  /** The sender moves; on returning, its deferred Done lowers the wait group. */
  function MoveSender(c: Config, s: State, i: nat, m: Move): State
    requires At(s, i) && CanMove(s, s.senders[i], m)
  {
    var s', next := Effect(s, s.senders[i], m), Next(c, s, s.senders[i], m);
    if next.None? then s'.(senders := s.senders - {i}, waitGroup := s.waitGroup - 1)
    else s'.(senders := s.senders[i := next.value])
  }

  function Apply(c: Config, s: State, a: Action): State
    requires Enabled(s, a)
  {
    match a
    case Tick => s.(main := Ticked)
    case CheckWaiting => s.(main := if Replay(s.log).mined != {} then Waiting else Starting)
    case StartSender => Spawn(s.(main := Waiting))
    case SeeDone => s.(main := Canceling(Outcome(None, Done(s.done.value))))
    case TakeReceipt => s.(main := Canceling(Conclude(s.channel.value)), channel := None)
    case DeferredCancel => Cancel(s.(main := Joining(s.main.outcome)), Canceled)
    case DeferredWait => s.(main := Returned(s.main.outcome))
    case CallerCancels(cause) => Cancel(s.(callerDone := true), cause)
    case By(i, m) => MoveSender(c, s, i, m)
  }

  /** `t` is the sequence of states visited from `s` by `acts`, each action being one the code could take. */
  ghost predicate IsPath(c: Config, s: State, acts: seq<Action>, t: seq<State>) {
    && |t| == |acts| + 1
    && t[0] == s
    && forall k | 0 <= k < |acts| :: Enabled(t[k], acts[k]) && t[k + 1] == Apply(c, t[k], acts[k])
  }

  /** A run of Send: a path from the state in which its event loop starts. */
  ghost predicate IsRun(c: Config, acts: seq<Action>, t: seq<State>) {
    IsPath(c, Init(), acts, t)
  }

  /* ---- Invariants ---- */

  predicate HoldsTx(p: Sender) {
    p.Querying? || p.Found? || p.Missing? || p.Confirming? || p.Pausing? || p.Delivering? || (p.Sent? && p.err.None?)
  }

  /** The transaction was published by this call, and this receipt of it was seen confirmed. */
  ghost predicate Justified(c: Config, s: State, d: Delivery) {
    && d.tx in s.published
    && exists tip: uint64 :: Sighting(d.tx, d.receipt, tip) in s.sightings && Confirmed(c, d.receipt.blockNumber, tip)
  }

  /** At some earlier point of the log giving up was justified. */
  ghost predicate GaveUp(c: Config, log: seq<Event>) {
    exists n: nat :: n <= |log| && Abortable(c.safeAbort, log[..n])
  }

  predicate Ending(s: State) {
    s.main.Canceling? || s.main.Joining? || s.main.Returned?
  }

  /** Live senders, the wait group and identifiers agree. */
  ghost predicate Counted(s: State) {
    s.waitGroup == |s.senders| && forall i: nat :: i in s.senders ==> i < s.spawned
  }

  /** Only published transactions are polled. */
  ghost predicate PollsPublished(s: State) {
    forall i: nat :: i in s.senders && HoldsTx(s.senders[i]) ==> s.senders[i].tx in s.published
  }

  /** Every receipt on its way to the caller is justified. */
  ghost predicate Sound(c: Config, s: State) {
    && (forall i: nat :: i in s.senders && s.senders[i].Delivering? ==>
          Justified(c, s, Delivery(s.senders[i].tx, s.senders[i].receipt)))
    && (s.channel.Some? ==> Justified(c, s, s.channel.value))
    && (Ending(s) && s.main.outcome.delivered.Some? ==> Justified(c, s, s.main.outcome.delivered.value))
  }

  predicate WellConcluded(s: State) {
    Ending(s) ==> match s.main.outcome.delivered
                  case Some(d) => s.main.outcome == Conclude(d)
                  case None => s.main.outcome.err.Done?
  }

  /** A cancellation has a reason. */
  ghost predicate Reasoned(c: Config, s: State) {
    && (forall i: nat :: i in s.senders && s.senders[i].Aborting? ==> GaveUp(c, s.log))
    && (s.done.Some? && !s.callerDone && !s.main.Joining? && !s.main.Returned? ==> GaveUp(c, s.log))
    && (Ending(s) && s.main.outcome.err.Done? && !s.callerDone ==> GaveUp(c, s.log))
    && (s.main.Joining? || s.main.Returned? ==> s.done.Some?)
  }

  lemma CountedKeys(s: State, s': State)
    requires Counted(s) && s'.senders.Keys == s.senders.Keys
    requires s'.waitGroup == s.waitGroup && s'.spawned == s.spawned
    ensures Counted(s')
  {
    assert |s'.senders| == |s'.senders.Keys| == |s.senders.Keys| == |s.senders|;
  }

  lemma CountedExit(s: State, s': State, i: nat)
    requires Counted(s) && i in s.senders && s'.senders == s.senders - {i}
    requires s'.waitGroup == s.waitGroup - 1 && s'.spawned == s.spawned
    ensures Counted(s')
  {
    assert s'.senders.Keys == s.senders.Keys - {i};
    assert |s'.senders| == |s'.senders.Keys| == |s.senders.Keys| - 1 == |s.senders| - 1;
  }

  lemma CountedSpawn(s: State)
    requires Counted(s)
    ensures Counted(Spawn(s))
  {
    assert Spawn(s).senders.Keys == s.senders.Keys + {s.spawned};
    assert |Spawn(s).senders| == |Spawn(s).senders.Keys| == |s.senders.Keys| + 1 == |s.senders| + 1;
  }

  lemma CountedStep(c: Config, s: State, a: Action)
    requires Enabled(s, a) && Counted(s)
    ensures Counted(Apply(c, s, a))
  {
    var s' := Apply(c, s, a);
    if a.By? {
      if Next(c, s, s.senders[a.i], a.move).None? {
        CountedExit(s, s', a.i);
      } else {
        assert s'.senders.Keys == s.senders.Keys;
        CountedKeys(s, s');
      }
    } else if a.StartSender? {
      CountedKeys(s, s.(main := Waiting));
      CountedSpawn(s.(main := Waiting));
    } else {
      CountedKeys(s, s');
    }
  }

  lemma JustifiedGrows(c: Config, s: State, s': State, d: Delivery)
    requires s.sightings <= s'.sightings && s.published <= s'.published
    ensures Justified(c, s, d) ==> Justified(c, s', d)
  {
  }

  lemma PollsPublishedMove(c: Config, s: State, i: nat, m: Move)
    requires At(s, i) && CanMove(s, s.senders[i], m) && PollsPublished(s)
    ensures PollsPublished(MoveSender(c, s, i, m))
  {
    var s' := MoveSender(c, s, i, m);
    assert s.published <= s'.published;
    if At(s', i) && HoldsTx(s'.senders[i]) {
      assert s'.senders[i] == Next(c, s, s.senders[i], m).value;
      assert s'.senders[i].tx in s'.published;
    }
  }

  lemma PollsPublishedStep(c: Config, s: State, a: Action)
    requires Enabled(s, a) && PollsPublished(s)
    ensures PollsPublished(Apply(c, s, a))
  {
    if a.By? {
      PollsPublishedMove(c, s, a.i, a.move);
    }
  }

  lemma SoundMove(c: Config, s: State, i: nat, m: Move)
    requires At(s, i) && CanMove(s, s.senders[i], m) && PollsPublished(s) && Sound(c, s)
    ensures Sound(c, MoveSender(c, s, i, m))
  {
    var s', p := MoveSender(c, s, i, m), s.senders[i];
    forall d: Delivery ensures Justified(c, s, d) ==> Justified(c, s', d) {
      JustifiedGrows(c, s, s', d);
    }
    if m.TipReturns? && m.tip.Some? {
      assert Sighting(p.tx, p.receipt, m.tip.value) in s'.sightings;
    }
  }

  lemma SoundStep(c: Config, s: State, a: Action)
    requires Enabled(s, a) && PollsPublished(s) && Sound(c, s)
    ensures Sound(c, Apply(c, s, a))
  {
    if a.By? {
      SoundMove(c, s, a.i, a.move);
    } else {
      forall d: Delivery ensures Justified(c, s, d) ==> Justified(c, Apply(c, s, a), d) {
        JustifiedGrows(c, s, Apply(c, s, a), d);
      }
    }
  }

  lemma GaveUpGrows(c: Config, log: seq<Event>, e: Event)
    requires GaveUp(c, log)
    ensures GaveUp(c, log + [e])
  {
    var n: nat :| n <= |log| && Abortable(c.safeAbort, log[..n]);
    assert (log + [e])[..n] == log[..n];
  }

  lemma ReasonedMove(c: Config, s: State, i: nat, m: Move)
    requires At(s, i) && CanMove(s, s.senders[i], m) && Reasoned(c, s)
    ensures Reasoned(c, MoveSender(c, s, i, m))
  {
    var s' := MoveSender(c, s, i, m);
    if s'.log != s.log && GaveUp(c, s.log) {
      GaveUpGrows(c, s.log, s'.log[|s.log|]);
    }
    if m.CheckAbort? && Abortable(c.safeAbort, s.log) {
      assert s.log[..|s.log|] == s.log;
    }
  }

  lemma ReasonedStep(c: Config, s: State, a: Action)
    requires Enabled(s, a) && Reasoned(c, s)
    ensures Reasoned(c, Apply(c, s, a))
  {
    if a.By? {
      ReasonedMove(c, s, a.i, a.move);
    }
  }

  lemma WellConcludedStep(c: Config, s: State, a: Action)
    requires Enabled(s, a) && WellConcluded(s)
    ensures WellConcluded(Apply(c, s, a))
  {
  }

  ghost predicate Invariant(c: Config, s: State) {
    Counted(s) && PollsPublished(s) && Sound(c, s) && WellConcluded(s) && Reasoned(c, s)
  }

  lemma InvariantStep(c: Config, s: State, a: Action, s': State)
    requires Enabled(s, a) && s' == Apply(c, s, a) && Invariant(c, s)
    ensures Invariant(c, s')
  {
    CountedStep(c, s, a);
    PollsPublishedStep(c, s, a);
    SoundStep(c, s, a);
    WellConcludedStep(c, s, a);
    ReasonedStep(c, s, a);
  }

  lemma InvariantInit(c: Config)
    ensures Invariant(c, Init())
  {
    assert |Init().senders.Keys| == |{0}|;
  }

  /** Every reachable state satisfies the invariant; in particular the wait group counts the live senders. */
  lemma {:induction false} RunInvariant(c: Config, acts: seq<Action>, t: seq<State>)
    requires IsRun(c, acts, t)
    ensures Invariant(c, t[|acts|])
  {
    if acts == [] {
      InvariantInit(c);
    } else {
      var n := |acts| - 1;
      RunInvariant(c, acts[..n], t[..n + 1]);
      InvariantStep(c, t[n], acts[n], t[n + 1]);
    }
  }

  /* ---- What Send returns ---- */

  /**
   The 64-bit test agrees with the intended one, "height + confirmations <= tip + 1", except in two cases:
   it accepts too early when only the left sum wraps, and too late when only the right one does.
   */
  lemma ConfirmedExactly(c: Config, height: uint64, tip: uint64)
    requires ValidConfig(c)
    ensures
      (Confirmed(c, height, tip) <==> height + c.numConfirmations <= tip + 1) <==>
      && !(tip + 1 < TWO64 <= height + c.numConfirmations <= TWO64 + tip + 1)
      && !(height + c.numConfirmations < TWO64 == tip + 1)
  {
    var sum := height + c.numConfirmations;
    assert sum % TWO64 == if sum < TWO64 then sum else sum - TWO64;
    assert (tip + 1) % TWO64 == if tip + 1 < TWO64 then tip + 1 else 0;
  }

  /** A wrapped sum is accepted: one confirmation of a receipt at the last height, with the tip at zero. */
  lemma ConfirmedTooEarly()
    ensures var c := Config(1, 1);
            Confirmed(c, TWO64 - 1, 0) && !(TWO64 - 1 + c.numConfirmations <= 0 + 1)
  {
    assert TWO64 % TWO64 == 0;
  }

  /**
   In every interleaving, the receipt returned by Send was looked up for a transaction this Send published, and
   that receipt of that transaction was checked against a tip that confirms it; the error is nil exactly when
   it did not revert. Without a receipt the error is the context's.
   */
  lemma SendReturnsConfirmedReceipt(c: Config, acts: seq<Action>, t: seq<State>) returns (tip: uint64)
    requires ValidConfig(c) && IsRun(c, acts, t) && t[|acts|].main.Returned?
    ensures var out, last := t[|acts|].main.outcome, t[|acts|];
            match out.delivered
            case None => out.err.Done?
            case Some(d) =>
              && d.tx in last.published && Sighting(d.tx, d.receipt, tip) in last.sightings
              && (d.receipt.blockNumber + c.numConfirmations < TWO64 ==>
                    d.receipt.blockNumber + c.numConfirmations <= tip + 1)
              && (out.err == NoError <==> !d.receipt.reverted)
              && (out.err == Reverted <==> d.receipt.reverted)
  {
    RunInvariant(c, acts, t);
    var last := t[|acts|];
    tip := 0;
    if last.main.outcome.delivered.Some? {
      var d := last.main.outcome.delivered.value;
      tip :| Sighting(d.tx, d.receipt, tip) in last.sightings && Confirmed(c, d.receipt.blockNumber, tip);
      ConfirmedExactly(c, d.receipt.blockNumber, tip);
    }
  }

  /** A transaction counts as published only after a nil result of sendTx for it. */
  lemma {:induction false} PublishedMeansAccepted(c: Config, acts: seq<Action>, t: seq<State>, tx: Tx) returns (k: nat)
    requires IsRun(c, acts, t) && tx in t[|acts|].published
    ensures k < |acts| && acts[k].By? && acts[k].move == SendReturns(None) && t[k].senders[acts[k].i].tx == tx
  {
    var n := |acts| - 1;
    if tx in t[n].published {
      k := PublishedMeansAccepted(c, acts[..n], t[..n + 1], tx);
    } else {
      k := n;
    }
  }

  /** Sightings are made by polling: the tip was read after the receipt was found for that transaction. */
  lemma {:induction false} SightingMeansChecked(c: Config, acts: seq<Action>, t: seq<State>, w: Sighting) returns (k: nat)
    requires IsRun(c, acts, t) && w in t[|acts|].sightings
    ensures k < |acts| && acts[k].By? && acts[k].move == TipReturns(Some(w.tip))
    ensures t[k].senders[acts[k].i] == Confirming(w.tx, w.receipt)
  {
    var n := |acts| - 1;
    if w in t[n].sightings {
      k := SightingMeansChecked(c, acts[..n], t[..n + 1], w);
    } else {
      k := n;
    }
  }

  lemma LogGrows(c: Config, s: State, a: Action, s': State)
    requires Enabled(s, a) && s' == Apply(c, s, a)
    ensures |s.log| <= |s'.log| <= |s.log| + 1 && s'.log[..|s.log|] == s.log
  {
  }

  /** Every prefix of the log was the whole log at some moment of the run. */
  lemma {:induction false} LogMoment(c: Config, acts: seq<Action>, t: seq<State>, n: nat) returns (k: nat)
    requires IsRun(c, acts, t) && n <= |t[|acts|].log|
    ensures k < |t| && t[k].log == t[|acts|].log[..n]
  {
    var last := |acts|;
    if n == |t[last].log| {
      k := last;
    } else {
      LogGrows(c, t[last - 1], acts[last - 1], t[last]);
      k := LogMoment(c, acts[..last - 1], t[..last], n);
      assert t[last - 1].log[..n] == t[last].log[..n];
    }
  }

  /**
   If Send returns a context error although the caller's context is not done, then the run has a moment at
   which no published hash was last seen mined and at least `safeAbort` nonce-too-low replies had come in
   since the mined set was last emptied by a reorg (or since the start).
   */
  lemma UnpromptedCancelHasCause(c: Config, acts: seq<Action>, t: seq<State>) returns (k: nat, from: nat)
    requires IsRun(c, acts, t) && t[|acts|].main.Returned?
    requires t[|acts|].main.outcome.err.Done? && !t[|acts|].callerDone
    ensures k < |t| && forall h: Hash :: !LastSeenMined(t[k].log, h)
    ensures CountsFrom(t[k].log, from) && LowReplies(t[k].log[from..]) >= c.safeAbort
  {
    RunInvariant(c, acts, t);
    var log := t[|acts|].log;
    var n: nat :| n <= |log| && Abortable(c.safeAbort, log[..n]);
    k := LogMoment(c, acts, t, n);
    from := AbortMeaning(c.safeAbort, t[k].log);
  }

  /** `j` is the check that led to the sender now being started: nothing was last seen mined then. */
  ghost predicate StartsFrom(acts: seq<Action>, t: seq<State>, j: nat)
    requires |t| == |acts| + 1
  {
    && j < |acts| && acts[j] == CheckWaiting
    && (forall h: Hash :: !LastSeenMined(t[j].log, h))
    && forall k | j < k < |t| :: t[k].main.Starting?
  }

  lemma {:induction false} StartingHasCheck(c: Config, acts: seq<Action>, t: seq<State>) returns (j: nat)
    requires IsRun(c, acts, t) && t[|acts|].main.Starting?
    ensures StartsFrom(acts, t, j)
  {
    var n := |acts| - 1;
    if t[n].main.Starting? {
      j := StartingHasCheck(c, acts[..n], t[..n + 1]);
      assert acts[..n][j] == acts[j];
      assert forall k | 0 <= k < n + 1 :: t[..n + 1][k] == t[k];
    } else {
      j := n;
      MinedMeaning(t[n].log);
    }
  }

  /** Every later sender is started after a check, made in a definite state, in which nothing was last seen mined. */
  lemma SpawnFollowsCheck(c: Config, acts: seq<Action>, t: seq<State>, k: nat) returns (j: nat)
    requires IsRun(c, acts, t) && k < |acts| && t[k + 1].spawned > t[k].spawned
    ensures j < k && acts[j] == CheckWaiting && forall h: Hash :: !LastSeenMined(t[j].log, h)
    ensures forall i | j < i <= k :: t[i].main.Starting?
  {
    assert acts[k] == StartSender;
    j := StartingHasCheck(c, acts[..k], t[..k + 1]);
    assert forall i | 0 <= i <= k :: t[..k + 1][i] == t[i];
  }

  /** The calls on the record up to one state are a prefix of those up to any later one. */
  lemma {:induction false} LogExtends(c: Config, acts: seq<Action>, t: seq<State>, j: nat)
    requires IsRun(c, acts, t) && j <= |acts|
    ensures t[j].log <= t[|acts|].log
  {
    var n := |acts| - 1;
    if j <= n {
      LogExtends(c, acts[..n], t[..n + 1], j);
      LogGrows(c, t[n], acts[n], t[n + 1]);
      PrefixOfPrefix(t[j].log, t[n].log, t[n + 1].log);
    }
  }

  lemma PrefixOfPrefix(a: seq<Event>, b: seq<Event>, c: seq<Event>)
    requires a <= b && |b| <= |c| && c[..|b|] == b
    ensures a <= c
  {
  }

  /**
   Exactly when a sender is started while a hash is last seen mined: when the calls made on the record between the
   check, at step `j`, and the start, at step `k`, recorded it as mined and did not take it back.
   */
  lemma SpawnWhileMinedIff(c: Config, acts: seq<Action>, t: seq<State>, k: nat, h: Hash) returns (j: nat)
    requires IsRun(c, acts, t) && k < |acts| && t[k + 1].spawned > t[k].spawned
    ensures j < k && acts[j] == CheckWaiting && t[j].log <= t[k].log
    ensures forall i | j < i <= k :: t[i].main.Starting?
    ensures LastSeenMined(t[k].log, h) <==> LastSeenMined(t[k].log[|t[j].log|..], h)
  {
    j := SpawnFollowsCheck(c, acts, t, k);
    LogExtends(c, acts[..k], t[..k + 1], j);
    assert t[k].log[..|t[j].log|] == t[j].log;
    LaterCallsDecide(t[k].log, |t[j].log|, h);
  }

  /** A run up to a check that lets a sender start, while another sender holds a receipt it has not recorded. */
  lemma CheckedWithReceiptInHand(c: Config, tx: Tx, r: Receipt) returns (acts: seq<Action>, t: seq<State>)
    ensures IsRun(c, acts, t)
    ensures var last := t[|acts|];
            last.main == Starting && last.senders == map[0 := Found(tx, r)] && last.log == [SendResult(None)]
  {
    acts, t := SenderWithReceipt(c, tx, r);
    acts, t := Append(c, Init(), acts, t, Tick);
    var log := t[|acts|].log;
    assert Replay(log).mined == {} by {
      assert log[..0] == [];
    }
    acts, t := Append(c, Init(), acts, t, CheckWaiting);
  }

  lemma SenderWithReceipt(c: Config, tx: Tx, r: Receipt) returns (acts: seq<Action>, t: seq<State>)
    ensures IsRun(c, acts, t)
    ensures var last := t[|acts|];
            last.main == Waiting && last.senders == map[0 := Found(tx, r)] && last.log == [SendResult(None)]
  {
    acts, t := [], [Init()];
    acts, t := Append(c, Init(), acts, t, By(0, PriceReturns(Some(tx))));
    acts, t := Append(c, Init(), acts, t, By(0, SendReturns(None)));
    acts, t := Append(c, Init(), acts, t, By(0, ProcessError));
    acts, t := Append(c, Init(), acts, t, By(0, LookupReturns(Has(r))));
  }

  /**
   Between the check and the start a sender can still record its transaction as mined, so a new sender can be
   started while a hash is last seen mined.
   */
  lemma SpawnWhileMined(c: Config, tx: Tx, r: Receipt) returns (acts: seq<Action>, t: seq<State>)
    ensures IsRun(c, acts, t) && |acts| > 0 && acts[|acts| - 1] == StartSender
    ensures LastSeenMined(t[|acts| - 1].log, tx.hash) && t[|acts|].spawned == t[|acts| - 1].spawned + 1
  {
    acts, t := CheckedWithReceiptInHand(c, tx, r);
    LastSeenMinedStep(t[|acts|].log, Mined(tx.hash), tx.hash);
    acts, t := Append(c, Init(), acts, t, By(0, RecordMined));
    acts, t := Append(c, Init(), acts, t, StartSender);
  }

  /** A lookup's verdict on a transaction is what the record says of it next, and of no other hash. */
  lemma VerdictIsRecorded(c: Config, s: State, a: Action, h: Hash)
    requires Enabled(s, a)
    ensures var log' := Apply(c, s, a).log;
            if a.By? && a.move.RecordMined? && h == s.senders[a.i].tx.hash then LastSeenMined(log', h)
            else if a.By? && a.move.RecordMissing? && h == s.senders[a.i].tx.hash then !LastSeenMined(log', h)
            else LastSeenMined(log', h) == LastSeenMined(s.log, h)
  {
    var log' := Apply(c, s, a).log;
    if log' != s.log {
      LastSeenMinedStep(s.log, log'[|s.log|], h);
    }
  }

  /* ---- What a sender does with what it is told ---- */

  /**
   After the tip is read, the sender is delivering its receipt exactly when the receipt is confirmed by that tip;
   otherwise, and when the tip cannot be read, it waits to poll again.
   */
  lemma TipDecides(c: Config, s: State, i: nat, tip: Option<uint64>)
    requires ValidConfig(c) && At(s, i) && s.senders[i].Confirming?
    requires s.senders[i].receipt.blockNumber + c.numConfirmations < TWO64 && (tip.Some? ==> tip.value + 1 < TWO64)
    ensures var p, s' := s.senders[i], Apply(c, s, By(i, TipReturns(tip)));
      && At(s', i)
      && (s'.senders[i] == Delivering(p.tx, p.receipt) <==>
            tip.Some? && p.receipt.blockNumber + c.numConfirmations <= tip.value + 1)
      && (s'.senders[i] == Delivering(p.tx, p.receipt) || s'.senders[i] == Pausing(p.tx))
  {
    if tip.Some? {
      ConfirmedExactly(c, s.senders[i].receipt.blockNumber, tip.value);
    }
  }

  /** A rejected sender goes on to cancel exactly when the record says so; otherwise it returns and cancels nothing. */
  lemma RejectionDecides(c: Config, s: State, i: nat)
    requires At(s, i) && s.senders[i].Rejected?
    ensures var s' := Apply(c, s, By(i, CheckAbort));
      && s'.done == s.done
      && (MustAbort(c.safeAbort, s.log) ==> At(s', i) && s'.senders[i] == Aborting)
      && (!MustAbort(c.safeAbort, s.log) ==> !At(s', i))
  {
    AbortIff(c.safeAbort, s.log);
  }

  /** The one move of a sender that decided to abort cancels the context; a context done before keeps its cause. */
  lemma AbortingCancels(c: Config, s: State, i: nat, m: Move)
    requires At(s, i) && s.senders[i].Aborting? && CanMove(s, s.senders[i], m)
    ensures var s' := Apply(c, s, By(i, m));
            !At(s', i) && s'.done == Some(if s.done.Some? then s.done.value else Canceled)
  {
  }

  /**
   After a publication its result is on the record; a nil result is followed by polling, a cancelled one by the
   return, any other by the abort decision.
   */
  lemma PublicationDecides(c: Config, s: State, i: nat)
    requires At(s, i) && s.senders[i].Sent?
    ensures var p, s' := s.senders[i], Apply(c, s, By(i, ProcessError));
      && s'.log == s.log + [SendResult(p.err)]
      && (p.err.None? <==> At(s', i) && s'.senders[i] == Querying(p.tx))
      && (p.err.Some? && Contains(p.err.value, CONTEXT_CANCELED) <==> !At(s', i))
      && (At(s', i) && s'.senders[i] != Querying(p.tx) ==> s'.senders[i] == Rejected)
  {
  }

  /** The check after a tick lets a sender start exactly when nothing is last seen mined. */
  lemma CheckDecides(c: Config, s: State)
    requires s.main == Ticked
    ensures var s' := Apply(c, s, CheckWaiting);
      && (s'.main == Starting <==> forall h: Hash :: !LastSeenMined(s.log, h))
      && (s'.main == Starting || s'.main == Waiting)
  {
    MinedMeaning(s.log);
    assert Replay(s.log).mined == {} <==> forall h: Hash :: h !in Replay(s.log).mined;
  }

  /** Starting adds one sender, at its beginning, and disturbs no other. */
  lemma StartAddsSender(c: Config, s: State)
    requires s.main == Starting && Counted(s)
    ensures var s' := Apply(c, s, StartSender);
      && s'.main == Waiting && !At(s, s.spawned) && s'.senders == s.senders[s.spawned := Pricing]
      && s'.spawned == s.spawned + 1 && s'.waitGroup == s.waitGroup + 1
  {
  }

  /** A receipt delivered while another is waiting is dropped; the first one stays. */
  lemma FirstReceiptStays(c: Config, s: State, i: nat)
    requires At(s, i) && s.senders[i].Delivering?
    ensures var s' := Apply(c, s, By(i, Deliver));
      && !At(s', i)
      && s'.channel == Some(if s.channel.Some? then s.channel.value else Delivery(s.senders[i].tx, s.senders[i].receipt))
  {
  }

  /** A sender that polls for its receipt keeps on polling until it can deliver, or until the context is done. */
  lemma PollingGoesOn(c: Config, s: State, i: nat, m: Move)
    requires Enabled(s, By(i, m))
    requires var p := s.senders[i]; p.Querying? || p.Found? || p.Missing? || p.Confirming? || (p.Pausing? && s.done.None?)
    ensures At(Apply(c, s, By(i, m)), i) && HoldsTx(Apply(c, s, By(i, m)).senders[i])
    ensures Apply(c, s, By(i, m)).senders[i].tx == s.senders[i].tx
  {
  }

  /** The caller can cancel at any moment; that decides the cause unless there is one. */
  lemma CallerCanCancel(c: Config, s: State, cause: Cause)
    ensures Enabled(s, CallerCancels(cause)) && Apply(c, s, CallerCancels(cause)).callerDone
    ensures Apply(c, s, CallerCancels(cause)).done == if s.done.None? then Some(cause) else s.done
  {
  }

  /** Once the context is done its cause never changes. */
  lemma CauseStays(c: Config, s: State, a: Action)
    requires Enabled(s, a) && s.done.Some?
    ensures Apply(c, s, a).done == s.done
  {
  }

  /** The context error Send is about to return is the cause its context has. */
  predicate CauseKept(s: State) {
    Ending(s) && s.main.outcome.err.Done? ==> s.done == Some(s.main.outcome.err.cause)
  }

  lemma {:induction false} ErrorIsCause(c: Config, acts: seq<Action>, t: seq<State>)
    requires IsRun(c, acts, t)
    ensures CauseKept(t[|acts|])
  {
    if acts != [] {
      var n := |acts| - 1;
      ErrorIsCause(c, acts[..n], t[..n + 1]);
      CauseKeptStep(c, t[n], acts[n]);
    }
  }

  lemma CauseKeptStep(c: Config, s: State, a: Action)
    requires Enabled(s, a) && CauseKept(s)
    ensures CauseKept(Apply(c, s, a))
  {
    if s.done.Some? {
      CauseStays(c, s, a);
    }
  }

  /* ---- The deferred wait ends ---- */

  lemma Append(c: Config, s: State, acts: seq<Action>, t: seq<State>, a: Action)
    returns (acts': seq<Action>, t': seq<State>)
    requires IsPath(c, s, acts, t) && Enabled(t[|acts|], a)
    ensures acts' == acts + [a] && t' == t + [Apply(c, t[|acts|], a)] && IsPath(c, s, acts', t')
  {
    acts', t' := acts + [a], t + [Apply(c, t[|acts|], a)];
    assert forall k | 0 <= k < |acts| :: acts'[k] == acts[k] && t'[k] == t[k];
  }

  lemma Join(c: Config, s: State, acts: seq<Action>, t: seq<State>, more: seq<Action>, u: seq<State>)
    returns (acts': seq<Action>, t': seq<State>)
    requires IsPath(c, s, acts, t) && IsPath(c, t[|acts|], more, u)
    ensures acts' == acts + more && t' == t + u[1..] && IsPath(c, s, acts', t') && t'[|acts'|] == u[|more|]
  {
    acts', t' := acts + more, t + u[1..];
    forall k | 0 <= k < |acts'| ensures Enabled(t'[k], acts'[k]) && t'[k + 1] == Apply(c, t'[k], acts'[k]) {
      if k >= |acts| {
        assert t'[k] == u[k - |acts|] && t'[k + 1] == u[k - |acts| + 1] && acts'[k] == more[k - |acts|];
      } else {
        assert acts'[k] == acts[k] && t'[k] == t[k] && t'[k + 1] == t[k + 1];
      }
    }
  }

  /**
   How the outside answers once the context is done: every callback and query returns something, and a paused
   sender takes the context's side of its select. Nothing is said of what is returned.
   */
  ghost predicate Answering(pick: (State, Sender) -> Move) {
    forall s: State, p: Sender | s.done.Some? :: CanMove(s, p, pick(s, p)) && !pick(s, p).PauseOver?
  }

  /** The most moves a sender can make before it returns, when it does not poll again. */
  function Distance(p: Sender): nat {
    match p
    case Pricing => 7
    case Publishing(_) => 6
    case Sent(_, _) => 5
    case Rejected => 2
    case Aborting => 1
    case Querying(_) => 4
    case Found(_, _) => 3
    case Missing(_) => 2
    case Confirming(_, _) => 2
    case Pausing(_) => 1
    case Delivering(_, _) => 1
  }

  /** Every move but another poll brings a sender nearer to returning, whatever it is told. */
  lemma MovesApproachExit(c: Config, s: State, p: Sender, m: Move)
    requires CanMove(s, p, m) && !m.PauseOver?
    ensures Next(c, s, p, m).Some? ==> Distance(Next(c, s, p, m).value) < Distance(p)
    ensures s.done.Some? ==> Effect(s, p, m).done.Some?
  {
  }

  /** How many of the actions are moves of sender `i`. */
  function MovesOf(acts: seq<Action>, i: nat): nat {
    if acts == [] then 0 else MovesOf(acts[..|acts| - 1], i) + if acts[|acts| - 1].By? && acts[|acts| - 1].i == i then 1 else 0
  }

  function Remaining(s: State, i: nat): nat {
    if At(s, i) then Distance(s.senders[i]) else 0
  }

  lemma RemainingStep(c: Config, s: State, a: Action, i: nat)
    requires Enabled(s, a) && i < s.spawned && (a.By? && a.i == i ==> !a.move.PauseOver?)
    ensures i < Apply(c, s, a).spawned
    ensures Remaining(Apply(c, s, a), i) + (if a.By? && a.i == i then 1 else 0) <= Remaining(s, i)
  {
    if a.By? {
      MovesApproachExitOf(c, s, a.i, a.move, i);
    }
  }

  lemma MovesApproachExitOf(c: Config, s: State, k: nat, m: Move, i: nat)
    requires At(s, k) && CanMove(s, s.senders[k], m) && i < s.spawned && (k == i ==> !m.PauseOver?)
    ensures i < MoveSender(c, s, k, m).spawned
    ensures Remaining(MoveSender(c, s, k, m), i) + (if k == i then 1 else 0) <= Remaining(s, i)
  {
    if k == i {
      MovesApproachExit(c, s, s.senders[k], m);
    }
  }

  /**
   In every interleaving, a sender that does not poll again makes at most as many moves as it is away from
   returning, whatever it is told and whatever the others do.
   */
  lemma {:induction false} MovesAreBounded(c: Config, s: State, acts: seq<Action>, t: seq<State>, i: nat)
    requires IsPath(c, s, acts, t) && i < s.spawned
    requires forall k | 0 <= k < |acts| && acts[k].By? && acts[k].i == i :: !acts[k].move.PauseOver?
    ensures i < t[|acts|].spawned && MovesOf(acts, i) + Remaining(t[|acts|], i) <= Remaining(s, i)
  {
    if acts != [] {
      var n := |acts| - 1;
      MovesAreBounded(c, s, acts[..n], t[..n + 1], i);
      RemainingStep(c, t[n], acts[n], i);
    }
  }

  /**
   Once the context is done, each live sender reaches its return by at most seven moves of its own, whatever
   the callbacks and the backend answer.
   */
  lemma {:induction false} SenderCanExit(c: Config, s: State, i: nat, pick: (State, Sender) -> Move)
    returns (acts: seq<Action>, t: seq<State>)
    requires At(s, i) && s.done.Some? && Answering(pick)
    ensures IsPath(c, s, acts, t) && |acts| <= Distance(s.senders[i]) <= 7
    ensures forall k | 0 <= k < |acts| :: At(t[k], i) && acts[k] == By(i, pick(t[k], t[k].senders[i]))
    ensures var last := t[|acts|];
            last.senders == s.senders - {i} && last.main == s.main && last.done.Some?
    decreases Distance(s.senders[i])
  {
    var m := pick(s, s.senders[i]);
    MovesApproachExit(c, s, s.senders[i], m);
    acts, t := [By(i, m)], [s, MoveSender(c, s, i, m)];
    assert IsPath(c, s, acts, t);
    if At(t[1], i) {
      var more, u := SenderCanExit(c, t[1], i, pick);
      acts, t := Join(c, s, acts, t, more, u);
    }
  }

  lemma {:induction false} AllSendersExit(c: Config, s: State, pick: (State, Sender) -> Move)
    returns (acts: seq<Action>, t: seq<State>)
    requires s.done.Some? && Answering(pick)
    ensures IsPath(c, s, acts, t)
    ensures t[|acts|].senders == map[] && t[|acts|].main == s.main && t[|acts|].done.Some?
    decreases |s.senders.Keys|
  {
    if s.senders == map[] {
      acts, t := [], [s];
    } else {
      var i :| i in s.senders.Keys;
      acts, t := SenderCanExit(c, s, i, pick);
      assert t[|acts|].senders.Keys == s.senders.Keys - {i};
      var more, u := AllSendersExit(c, t[|acts|], pick);
      acts, t := Join(c, s, acts, t, more, u);
    }
  }

  lemma {:induction false} CountedAlong(c: Config, s: State, acts: seq<Action>, t: seq<State>)
    requires IsPath(c, s, acts, t) && Counted(s)
    ensures Counted(t[|acts|])
  {
    if acts != [] {
      var n := |acts| - 1;
      CountedAlong(c, s, acts[..n], t[..n + 1]);
      CountedStep(c, t[n], acts[n]);
    }
  }

  /** From a wait on the group, the group can always be brought to zero: the wait never deadlocks. */
  lemma WaitCanEnd(c: Config, s: State, pick: (State, Sender) -> Move) returns (acts: seq<Action>, t: seq<State>)
    requires Answering(pick) && Counted(s) && s.done.Some? && s.main.Joining?
    ensures IsPath(c, s, acts, t) && t[|acts|].main == Returned(s.main.outcome)
  {
    acts, t := AllSendersExit(c, s, pick);
    CountedAlong(c, s, acts, t);
    acts, t := Append(c, s, acts, t, DeferredWait);
  }

  /** With the context done, the event loop comes back to its select, having started a sender or not. */
  lemma LoopCanSelect(c: Config, s: State) returns (acts: seq<Action>, t: seq<State>)
    requires s.done.Some? && !Ending(s)
    ensures IsPath(c, s, acts, t) && t[|acts|].main.Waiting? && t[|acts|].done.Some?
  {
    acts, t := [], [s];
    if s.main.Ticked? {
      acts, t := Append(c, s, acts, t, CheckWaiting);
    }
    if t[|acts|].main.Starting? {
      acts, t := Append(c, s, acts, t, StartSender);
    }
  }

  /** With the context done, the event loop can leave and run its deferred cancel. */
  lemma LoopCanEnd(c: Config, s: State) returns (acts: seq<Action>, t: seq<State>)
    requires s.done.Some? && !s.main.Returned?
    ensures IsPath(c, s, acts, t) && t[|acts|].main.Joining? && t[|acts|].done.Some?
    ensures Ending(s) ==> t[|acts|].main.outcome == s.main.outcome
  {
    acts, t := [], [s];
    if !Ending(s) {
      acts, t := LoopCanSelect(c, s);
      acts, t := Append(c, s, acts, t, SeeDone);
    }
    if !s.main.Joining? {
      acts, t := Append(c, s, acts, t, DeferredCancel);
    }
  }

  /**
   From every reachable state in which the context is done, Send can still return, whatever the callbacks and
   the backend answer; an outcome already decided is the one it returns.
   */
  lemma SendCanReturn(c: Config, acts: seq<Action>, t: seq<State>, pick: (State, Sender) -> Move)
    returns (more: seq<Action>, u: seq<State>)
    requires IsRun(c, acts, t) && t[|acts|].done.Some? && Answering(pick)
    ensures IsPath(c, t[|acts|], more, u) && u[|more|].main.Returned?
    ensures Ending(t[|acts|]) ==> u[|more|].main.outcome == t[|acts|].main.outcome
  {
    RunInvariant(c, acts, t);
    var s := t[|acts|];
    more, u := [], [s];
    if !s.main.Returned? {
      more, u := LoopCanEnd(c, s);
      CountedAlong(c, s, more, u);
      var rest, v := WaitCanEnd(c, u[|more|], pick);
      more, u := Join(c, s, more, u, rest, v);
    }
  }

  /* ---- Send can succeed ---- */

  /** A sender looking for a receipt in vain comes back to looking for it; a missing one is put on the record. */
  lemma PollsAgain(c: Config, s: State, i: nat, lookup: Lookup) returns (acts: seq<Action>, t: seq<State>)
    requires At(s, i) && s.senders[i].Querying? && !lookup.Has?
    ensures IsPath(c, s, acts, t) && |acts| > 0 && acts[0] == By(i, LookupReturns(lookup))
    ensures t[|acts|] == s.(log := s.log + if lookup.NotFound? then [NotMined(s.senders[i].tx.hash)] else [])
  {
    acts, t := [], [s];
    acts, t := Append(c, s, acts, t, By(i, LookupReturns(lookup)));
    if lookup.NotFound? {
      acts, t := Append(c, s, acts, t, By(i, RecordMissing));
    }
    acts, t := Append(c, s, acts, t, By(i, PauseOver));
    assert t[|acts|].senders == s.senders;
  }

  /** A sender that just started can publish any transaction it is given and find any receipt of it. */
  lemma CanPublishAndFind(c: Config, s: State, i: nat, tx: Tx, r: Receipt) returns (acts: seq<Action>, t: seq<State>)
    requires At(s, i) && s.senders[i] == Pricing
    ensures IsPath(c, s, acts, t)
    ensures t[|acts|] == s.(senders := s.senders[i := Confirming(tx, r)], published := s.published + {tx},
                            log := s.log + [SendResult(None), Mined(tx.hash)])
  {
    acts, t := [], [s];
    acts, t := Append(c, s, acts, t, By(i, PriceReturns(Some(tx))));
    acts, t := Append(c, s, acts, t, By(i, SendReturns(None)));
    acts, t := Append(c, s, acts, t, By(i, ProcessError));
    acts, t := Append(c, s, acts, t, By(i, LookupReturns(Has(r))));
    acts, t := Append(c, s, acts, t, By(i, RecordMined));
    assert t[|acts|].senders == s.senders[i := Confirming(tx, r)];
    assert t[|acts|].log == s.log + [SendResult(None), Mined(tx.hash)];
  }

  lemma CanDeliver(c: Config, s: State, i: nat, tip: uint64) returns (acts: seq<Action>, t: seq<State>)
    requires ValidConfig(c) && At(s, i) && s.senders[i].Confirming? && s.main == Waiting && s.channel.None?
    requires s.senders[i].receipt.blockNumber + c.numConfirmations <= tip + 1 < TWO64
    ensures IsPath(c, s, acts, t) && t[|acts|].done.Some?
    ensures t[|acts|].main == Joining(Conclude(Delivery(s.senders[i].tx, s.senders[i].receipt)))
  {
    TipDecides(c, s, i, Some(tip));
    acts, t := [], [s];
    acts, t := Append(c, s, acts, t, By(i, TipReturns(Some(tip))));
    acts, t := Append(c, s, acts, t, By(i, Deliver));
    acts, t := Append(c, s, acts, t, TakeReceipt);
    acts, t := Append(c, s, acts, t, DeferredCancel);
  }

  /**
   From every reachable state in which the event loop waits, no receipt is waiting for it and a sender is about to
   read a tip that confirms its receipt, Send can return exactly that receipt of that transaction, with the error
   its status calls for.
   */
  lemma ConfirmedReceiptReachesCaller(c: Config, acts: seq<Action>, t: seq<State>, i: nat, tip: uint64,
                                      pick: (State, Sender) -> Move)
    returns (more: seq<Action>, u: seq<State>)
    requires ValidConfig(c) && IsRun(c, acts, t) && Answering(pick)
    requires t[|acts|].main == Waiting && t[|acts|].channel.None? && At(t[|acts|], i) && t[|acts|].senders[i].Confirming?
    requires t[|acts|].senders[i].receipt.blockNumber + c.numConfirmations <= tip + 1 < TWO64
    ensures IsPath(c, t[|acts|], more, u)
    ensures var p := t[|acts|].senders[i];
            u[|more|].main == Returned(Outcome(Some(Delivery(p.tx, p.receipt)), if p.receipt.reverted then Reverted else NoError))
  {
    RunInvariant(c, acts, t);
    var s := t[|acts|];
    more, u := CanDeliver(c, s, i, tip);
    CountedAlong(c, s, more, u);
    var rest, v := WaitCanEnd(c, u[|more|], pick);
    more, u := Join(c, s, more, u, rest, v);
  }

  /** From the start, any transaction and any receipt of it that some tip confirms can be what Send returns. */
  lemma SendCanSucceed(c: Config, tx: Tx, r: Receipt, tip: uint64, pick: (State, Sender) -> Move)
    returns (acts: seq<Action>, t: seq<State>)
    requires ValidConfig(c) && Answering(pick) && r.blockNumber + c.numConfirmations <= tip + 1 < TWO64
    ensures IsRun(c, acts, t)
    ensures t[|acts|].main == Returned(Outcome(Some(Delivery(tx, r)), if r.reverted then Reverted else NoError))
  {
    acts, t := CanPublishAndFind(c, Init(), 0, tx, r);
    var more, u := ConfirmedReceiptReachesCaller(c, acts, t, 0, tip, pick);
    acts, t := Join(c, Init(), acts, t, more, u);
  }
}
