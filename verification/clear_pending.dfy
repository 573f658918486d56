/**
 Clearing the mempool on startup: Send is called with a closure that signs a no-op transaction at the
 wallet's nonce, and with a closure that publishes it and rewrites what the node replies.
 */
module ClearPending {
  import opened Common
  import opened SendStates
  import opened TxManager

  /**
   `outerDone`: the context handed to ClearPendingTx is done. `lowSeen`: the node has answered
   nonce-too-low. `closing`: senders whose closure has called cancel and will return context.Canceled.
   */
  datatype ClearState = ClearState(send: State, outerDone: bool, lowSeen: bool, closing: set<nat>)

  datatype ClearAction =
    | Inside(a: Action)                             // any step of Send that runs no closure of the client
    | Signed(i: nat, hash: Option<Hash>)            // updateGasPrice returns
    | NodeReplies(i: nat, reply: Option<string>)    // SendTransaction returns inside sendTx
    | CloseReturns(i: nat)                          // sendTx returns after its own cancel
    | OuterCancels(cause: Cause)

  datatype ClearResult = Cleared | RetryLater | SendFailed(err: SendErr) | NonceUnknown

  /** The step of Send that a step of the client amounts to. */
  function AsSend(nonce: uint64, ca: ClearAction): Action {
    match ca
    case Inside(a) => a
    case Signed(i, hash) => By(i, PriceReturns(if hash.None? then None else Some(Tx(hash.value, nonce))))
    case NodeReplies(i, reply) => if IsNonceTooLow(reply) then CallerCancels(Canceled) else By(i, SendReturns(reply))
    case CloseReturns(i) => By(i, SendReturns(Some(CONTEXT_CANCELED)))
    case OuterCancels(cause) => CallerCancels(cause)
  }

  predicate ClearEnabled(nonce: uint64, s: ClearState, ca: ClearAction) {
    && Enabled(s.send, AsSend(nonce, ca))
    && match ca
       case Inside(a) => !a.CallerCancels? && (a.By? ==> !a.move.PriceReturns? && !a.move.SendReturns?)
       case NodeReplies(i, _) => i !in s.closing && At(s.send, i) && s.send.senders[i].Publishing?
       case CloseReturns(i) => i in s.closing
       case _ => true
  }

  function ClearApply(c: Config, nonce: uint64, s: ClearState, ca: ClearAction): ClearState
    requires ClearEnabled(nonce, s, ca)
  {
    var s' := s.(send := Apply(c, s.send, AsSend(nonce, ca)));
    match ca
    case NodeReplies(i, reply) => if IsNonceTooLow(reply) then s'.(lowSeen := true, closing := s.closing + {i}) else s'
    case CloseReturns(i) => s'.(closing := s.closing - {i})
    case OuterCancels(_) => s'.(outerDone := true)
    case _ => s'
  }

  ghost predicate IsClearRun(c: Config, nonce: uint64, acts: seq<ClearAction>, t: seq<ClearState>) {
    && |t| == |acts| + 1
    && t[0] == ClearState(Init(), false, false, {})
    && forall k | 0 <= k < |acts| ::
         ClearEnabled(nonce, t[k], acts[k]) && t[k + 1] == ClearApply(c, nonce, t[k], acts[k])
  }

  /** What ClearPendingTx answers, given the nonce query and what Send returned. */
  function Conclusion(nonce: Option<uint64>, out: Outcome): ClearResult {
    if nonce.None? then NonceUnknown
    else if out.err == Done(Canceled) then RetryLater
    else if out.err != NoError then SendFailed(out.err)
    else Cleared
  }

  lemma CanceledIsNotLow()
    ensures !Contains(CONTEXT_CANCELED, NONCE_TOO_LOW)
  {
    forall i: nat | i <= |CONTEXT_CANCELED| ensures !StandsAt(CONTEXT_CANCELED, NONCE_TOO_LOW, i) {
      if i + |NONCE_TOO_LOW| <= |CONTEXT_CANCELED| {
        var here := CONTEXT_CANCELED[i..i + |NONCE_TOO_LOW|];
        assert here[0] == CONTEXT_CANCELED[i] && here[1] == CONTEXT_CANCELED[i + 1];
        assert here[0] != NONCE_TOO_LOW[0] || here[1] != NONCE_TOO_LOW[1];
      }
    }
  }

  /** The record never sees a nonce-too-low text. */
  ghost predicate NeverLow(s: State) {
    && (forall e | e in s.log :: !IsLow(e))
    && (forall i: nat | i in s.senders :: s.senders[i].Sent? ==> !IsNonceTooLow(s.senders[i].err))
  }

  /** Every transaction is at the queried nonce. */
  ghost predicate AtNonce(nonce: uint64, s: State) {
    && (forall i: nat | i in s.senders ::
          s.senders[i].Publishing? || s.senders[i].Sent? || HoldsTx(s.senders[i]) ==> s.senders[i].tx.nonce == nonce)
    && (forall tx | tx in s.published :: tx.nonce == nonce)
  }

  ghost predicate ClearInvariant(nonce: uint64, s: ClearState) {
    && NeverLow(s.send)
    && AtNonce(nonce, s.send)
    && (s.send.callerDone ==> s.lowSeen || s.outerDone)
  }

  lemma NeverLowStep(c: Config, s: State, a: Action)
    requires Enabled(s, a) && NeverLow(s)
    requires a.By? && a.move.SendReturns? ==> !IsNonceTooLow(a.move.err)
    ensures NeverLow(Apply(c, s, a))
  {
  }

  lemma AtNonceStep(c: Config, nonce: uint64, s: State, a: Action)
    requires Enabled(s, a) && AtNonce(nonce, s)
    requires a.By? && a.move.PriceReturns? && a.move.priced.Some? ==> a.move.priced.value.nonce == nonce
    ensures AtNonce(nonce, Apply(c, s, a))
  {
    if a.By? {
      AtNonceMove(c, nonce, s, a.i, a.move);
    }
  }

  lemma AtNonceMove(c: Config, nonce: uint64, s: State, i: nat, m: Move)
    requires At(s, i) && CanMove(s, s.senders[i], m) && AtNonce(nonce, s)
    requires m.PriceReturns? && m.priced.Some? ==> m.priced.value.nonce == nonce
    ensures AtNonce(nonce, MoveSender(c, s, i, m))
  {
  }

  lemma CallerDoneStep(c: Config, s: State, a: Action)
    requires Enabled(s, a)
    ensures Apply(c, s, a).callerDone == (s.callerDone || a.CallerCancels?)
  {
  }

  lemma ClearInvariantStep(c: Config, nonce: uint64, s: ClearState, ca: ClearAction)
    requires ClearEnabled(nonce, s, ca) && ClearInvariant(nonce, s)
    ensures ClearInvariant(nonce, ClearApply(c, nonce, s, ca))
  {
    CanceledIsNotLow();
    var a := AsSend(nonce, ca);
    NeverLowStep(c, s.send, a);
    AtNonceStep(c, nonce, s.send, a);
    CallerDoneStep(c, s.send, a);
  }

  /** A run of the client is a run of Send, so all that holds of Send holds here. */
  lemma {:induction false} ClearRunIsSendRun(c: Config, nonce: uint64, acts: seq<ClearAction>, t: seq<ClearState>)
    returns (sendActs: seq<Action>, sendStates: seq<State>)
    requires IsClearRun(c, nonce, acts, t)
    ensures |sendActs| == |acts| && IsRun(c, sendActs, sendStates)
    ensures forall k | 0 <= k < |t| :: sendStates[k] == t[k].send
    ensures ClearInvariant(nonce, t[|acts|])
  {
    if acts == [] {
      sendActs, sendStates := [], [Init()];
    } else {
      var n := |acts| - 1;
      sendActs, sendStates := ClearRunIsSendRun(c, nonce, acts[..n], t[..n + 1]);
      ClearInvariantStep(c, nonce, t[n], acts[n]);
      sendActs, sendStates := Append(c, Init(), sendActs, sendStates, AsSend(nonce, acts[n]));
    }
  }

  /** The nonce-too-low counter stays zero, so Send never gives up on its own. */
  lemma CounterStaysZero(c: Config, nonce: uint64, acts: seq<ClearAction>, t: seq<ClearState>)
    requires ValidConfig(c) && IsClearRun(c, nonce, acts, t)
    ensures Replay(t[|acts|].send.log).nonceTooLow == 0
    ensures !GaveUp(c, t[|acts|].send.log)
  {
    var _, _ := ClearRunIsSendRun(c, nonce, acts, t);
    var log := t[|acts|].send.log;
    NoLowRepliesNoCount(log);
    forall n: nat | n <= |log| ensures !Abortable(c.safeAbort, log[..n]) {
      NoLowRepliesNoCount(log[..n]);
    }
  }

  /** A retry is asked for only after a nonce-too-low reply or a cancellation from outside. */
  lemma RetryHasCause(c: Config, nonce: uint64, acts: seq<ClearAction>, t: seq<ClearState>)
    requires ValidConfig(c) && IsClearRun(c, nonce, acts, t) && t[|acts|].send.main.Returned?
    requires Conclusion(Some(nonce), t[|acts|].send.main.outcome) == RetryLater
    ensures t[|acts|].lowSeen || t[|acts|].outerDone
  {
    var sa, ss := ClearRunIsSendRun(c, nonce, acts, t);
    RunInvariant(c, sa, ss);
    CounterStaysZero(c, nonce, acts, t);
  }

  /** Success means a clearing transaction at the queried nonce was published, confirmed and did not revert. */
  lemma ClearedIsConfirmed(c: Config, nonce: uint64, acts: seq<ClearAction>, t: seq<ClearState>)
    returns (d: Delivery, tip: uint64)
    requires ValidConfig(c) && IsClearRun(c, nonce, acts, t) && t[|acts|].send.main.Returned?
    requires Conclusion(Some(nonce), t[|acts|].send.main.outcome) == Cleared
    ensures t[|acts|].send.main.outcome.delivered == Some(d) && !d.receipt.reverted
    ensures d.tx in t[|acts|].send.published && d.tx.nonce == nonce
    ensures Sighting(d.tx, d.receipt, tip) in t[|acts|].send.sightings
    ensures d.receipt.blockNumber + c.numConfirmations < TWO64 ==>
              d.receipt.blockNumber + c.numConfirmations <= tip + 1
  {
    var sa, ss := ClearRunIsSendRun(c, nonce, acts, t);
    tip := SendReturnsConfirmedReceipt(c, sa, ss);
    d := t[|acts|].send.main.outcome.delivered.value;
  }

  /**
   How ClearPendingTx ends, over how Send ended: success exactly with a receipt that did not revert, a retry exactly
   when no receipt came and the context was cancelled, Send's own error exactly with a reverted receipt or a deadline.
   */
  lemma ResultsExactly(c: Config, nonce: uint64, acts: seq<ClearAction>, t: seq<ClearState>)
    requires ValidConfig(c) && IsClearRun(c, nonce, acts, t) && t[|acts|].send.main.Returned?
    ensures var last := t[|acts|].send;
            var got, result := last.main.outcome.delivered, Conclusion(Some(nonce), last.main.outcome);
      && (result == Cleared <==> got.Some? && !got.value.receipt.reverted)
      && (result == SendFailed(Reverted) <==> got.Some? && got.value.receipt.reverted)
      && (result == RetryLater <==> got.None? && last.done == Some(Canceled))
      && (result == SendFailed(Done(DeadlineExceeded)) <==> got.None? && last.done == Some(DeadlineExceeded))
  {
    var sa, ss := ClearRunIsSendRun(c, nonce, acts, t);
    RunInvariant(c, sa, ss);
    ErrorIsCause(c, sa, ss);
  }

  /** The client may be cancelled at any moment; a closure signs whenever Send asks for a price, at the queried nonce. */
  lemma ClosuresMayRun(c: Config, nonce: uint64, s: ClearState, i: nat, hash: Hash, cause: Cause)
    ensures ClearEnabled(nonce, s, OuterCancels(cause)) && ClearApply(c, nonce, s, OuterCancels(cause)).outerDone
    ensures ClearEnabled(nonce, s, Signed(i, Some(hash))) <==> At(s.send, i) && s.send.senders[i].Pricing?
    ensures ClearEnabled(nonce, s, Signed(i, Some(hash))) ==>
              ClearApply(c, nonce, s, Signed(i, Some(hash))).send.senders[i] == Publishing(Tx(hash, nonce))
    ensures ClearEnabled(nonce, s, Signed(i, None)) ==> !At(ClearApply(c, nonce, s, Signed(i, None)).send, i)
  {
  }

  /** Without a nonce nothing is sent, and only then is that the answer. */
  lemma NonceUnknownIff(nonce: Option<uint64>, out: Outcome)
    ensures Conclusion(nonce, out) == NonceUnknown <==> nonce.None?
  {
  }

  /**
   A nonce-too-low reply cancels the context at once, the sender it came to then reports a cancellation instead, and
   returns without a decision to abort.
   */
  lemma LowReplyCancels(c: Config, nonce: uint64, s: ClearState, i: nat, reply: Option<string>)
    requires ClearEnabled(nonce, s, NodeReplies(i, reply)) && IsNonceTooLow(reply)
    ensures var s1 := ClearApply(c, nonce, s, NodeReplies(i, reply));
      && s1.send.done.Some? && s1.lowSeen && i in s1.closing && s1.send.senders == s.send.senders
      && ClearEnabled(nonce, s1, CloseReturns(i)) && !ClearEnabled(nonce, s1, NodeReplies(i, None))
      && var s2 := ClearApply(c, nonce, s1, CloseReturns(i));
         && At(s2.send, i) && s2.send.senders[i] == Sent(s.send.senders[i].tx, Some(CONTEXT_CANCELED))
         && i !in s2.closing && s2.closing == s.closing - {i}
         && ClearEnabled(nonce, s2, Inside(By(i, ProcessError)))
         && !At(ClearApply(c, nonce, s2, Inside(By(i, ProcessError))).send, i)
  {
    assert StandsAt(CONTEXT_CANCELED, CONTEXT_CANCELED, 0);
  }
}
