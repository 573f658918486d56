# Verified models of the Optimism off-chain services

This project models, in Dafny, the parts of the Optimism repository in which several steps, goroutines or
services have to fit together, and proves what they keep over all inputs, runs and interleavings.
`dafny verify dfyconfig.toml` checks everything.

- `send_state.dfy`, `tx_manager.dfy`, `clear_pending.dfy`: the batch submitter's transaction manager. `Send` is a
  state machine over the event loop, any number of sender goroutines, the one-slot receipt channel, the wait
  group, the context and the publication record; what the node and the callbacks answer is a parameter of each
  step. Safety, the meaning of the abort counter and the absence of deadlock are proved for every run.
  `ClearPendingTx` is a client whose every run is mapped to a run of `Send`.
- `batch.dfy`: proxyd's batch endpoint, from validation to grouping by repeated id, cache hits, minibatches,
  retries, failover, re-sorting (section 6 of the JSON-RPC 2.0 Specification lets replies come in any order) and
  scattering. Answers may differ by backend and by moment; each slot is traced to the exchange, the cached or
  polled value, or the failures it comes from.
- `consensus.dfy`: proxyd's consensus poller. The walk back from the lowest head is proved to find the common
  ancestor; the tracked number is proved not to decrease.
- `rpc_cache.dfy`, `numerals.dfy`: proxyd's block cache over an evictable store and a stale head, in all runs with
  bounded reorgs and any delay between a fetch and its put.
- `gas_price.dfy`: the gas oracle's price controller and its epochs.
- `derivation_path.dfy`, `varint.dfy`, `wallets.dfy`: l2geth's derivation paths, variable-length integers over
  recycled buffers, and the sorted wallet cache.
- `rate_limiter.dfy`: proxyd's in-memory limiter with its two locks.

Code that changes state is modelled by classes and methods with loops, each proved against a specification
function or a recorded history. Goroutines and clocks become steps of a state machine. Go's 64-bit arithmetic is
written out with its wrap-around; prices use unbounded integers and `real`.

Where the code does not do what is expected of it, the code is modelled as it is, an input is given and the exact
condition is proved:

- The confirmation test adds in 64 bits (`TxManager.ConfirmedTooEarly`). `TxManager.ConfirmedExactly` gives the two
  families of inputs on which it differs from the intended comparison.
- `Send` checks whether it is waiting for a confirmation and starts another sender in two steps. A hash can be
  recorded as mined in between (`TxManager.SpawnWhileMined`), although nothing was last seen mined when the check was
  made (`TxManager.SpawnFollowsCheck`); `TxManager.SpawnWhileMinedIff` says exactly when.
- The poller's scan treats a recorded head of 0 as "nothing found yet" (`Consensus.ZeroHeadLowersConsensus`).
  `Consensus.LowestIsMinimumIff` says when the scan still finds the minimum, and
  `Consensus.UpdateKeepsConsensusIff` when an update cannot lower the number.
- Chains without a common genesis make the proposed height wrap past 0 (`Consensus.DisjointChainsWrap`);
  `Consensus.WalkStaysAboveZeroIff` shows that only they do.
- A backend that returns an id it was not asked for passes the length check (`ReplyOrder.ForeignIdMisplaced`);
  `ReplyOrder.IdsLineUpIff` says when replies line up with requests.
- A response that a reorg overtakes between fetch and put stays in the cache (`RpcCache.LateResponseStays`);
  `RpcCache.NeverOvertakenIff` says from which fetches this cannot happen.
- A clock that steps back can give one timestamp two generations (`RateLimiter.ClockBackDoublesLimit`);
  `RateLimiter.LimitPerTimestampIff` says when a timestamp's limit holds.
- `drop` is documented to remove the wallets specified, and its comment expects an unknown wallet to be found
  missing; it removes the next higher wallet (`Wallets.DropRemovesAnother`) unless the unknown URL is above all
  others (`Wallets.DropRemovesUrlIff`).
- The empty derivation path prints as `m`, which is not accepted back (`DerivationPaths.PrintParse`).

Two more remarks. The gas pricer's error text says the change must lie in (0,100]; only the lower bound is checked, and
the value is used as a fraction of 1, not of 100, so the envelope is proved for every positive value. An epoch stays
completed when publishing its price fails (`GasPricing.GasPriceUpdater.UpdateGasPrice`).

## Model

| member | source | states |
|---|---|---|
| `SendStates.MinedMeaning` | bss-core/txmgr/send_state.go:59-85 | After any calls, a hash is in the mined set if and only if the last verdict given on it is "mined". |
| `SendStates.LaterCallsDecide` | bss-core/txmgr/send_state.go:59-85 | When nothing was last seen mined after some calls, what is last seen mined afterwards is decided by the later calls alone. |
| `SendStates.EmptiedAtLast` | bss-core/txmgr/send_state.go:70-85 | The record is reset exactly at those "not mined" verdicts that take away the only hash last seen mined. |
| `SendStates.CounterMeaning` | bss-core/txmgr/send_state.go:41-85 | For every sequence of calls, the counter is the number of nonce-too-low replies since the last reorg that emptied a non-empty mined set (since the start if there was none), modulo 2^64. |
| `SendStates.CountsFromUnique` | bss-core/txmgr/send_state.go:77-84 | The point from which replies count is unique, so the counter's meaning is not ambiguous. |
| `SendStates.NoLowRepliesNoCount` | bss-core/txmgr/send_state.go:41-57 | Without a nonce-too-low reply the counter is 0 whatever else happened. |
| `SendStates.AbortMeaning` | bss-core/txmgr/send_state.go:90-102 | A decision to abort means that no hash was last seen mined and that at least the configured number of nonce-too-low replies came in since the last reset. |
| `SendStates.AbortIff` | bss-core/txmgr/send_state.go:90-102 | The record decides to abort if and only if no hash was last seen mined and enough replies came in since the last reset. |
| `SendStates.SendState.constructor` | bss-core/txmgr/send_state.go:26-36 | A new record is empty; a threshold of zero is refused. |
| `SendStates.SendState.ProcessSendError` | bss-core/txmgr/send_state.go:41-57 | The fields stay the replay of all calls made so far, with this result added. |
| `SendStates.SendState.TxMined` | bss-core/txmgr/send_state.go:61-66 | The fields stay the replay of all calls made so far, with this sighting added. |
| `SendStates.SendState.TxNotMined` | bss-core/txmgr/send_state.go:70-85 | The fields stay the replay of all calls made so far, with this verdict added, including the reset. |
| `SendStates.SendState.ShouldAbortImmediately` | bss-core/txmgr/send_state.go:90-102 | True exactly when no hash was last seen mined and at least the configured number of nonce-too-low replies (modulo 2^64) came in since the last reset. |
| `SendStates.SendState.IsWaitingForConfirmation` | bss-core/txmgr/send_state.go:106-111 | True exactly when some hash was last seen mined. |
| `TxManager.CountedStep` | bss-core/txmgr/txmgr.go:123-139 | Every step of every interleaving keeps the wait group equal to the number of live senders. |
| `TxManager.PollsPublishedStep` | bss-core/txmgr/txmgr.go:159-182 | Every step keeps: receipts are looked up only for transactions that sendTx accepted. |
| `TxManager.SoundStep` | bss-core/txmgr/txmgr.go:179-237 | Every step keeps: a receipt being delivered, in the channel or about to be returned was looked up for a transaction of this call, and that receipt of that transaction was seen confirmed. |
| `TxManager.ReasonedStep` | bss-core/txmgr/txmgr.go:159-172 | Every step keeps: the context is done only because the caller's is, because giving up was justified, or because Send is already on its way out. |
| `TxManager.WellConcludedStep` | bss-core/txmgr/txmgr.go:229-237 | Every step keeps: an outcome has a receipt with the error its status calls for, or no receipt and the context's error. |
| `TxManager.RunInvariant` | bss-core/txmgr/txmgr.go:112-240 | All of these hold in every reachable state of Send, for any number of senders and every interleaving. |
| `TxManager.ConfirmedExactly` | bss-core/txmgr/txmgr.go:292-305 | The 64-bit confirmation test agrees with height + confirmations <= tip + 1 if and only if neither sum wraps alone in a way that matters; both failing families are given. |
| `TxManager.ConfirmedTooEarly` | bss-core/txmgr/txmgr.go:299 | An input on which the wrapped test accepts an unconfirmed receipt. |
| `TxManager.SendReturnsConfirmedReceipt` | bss-core/txmgr/txmgr.go:209-305 | In every run, the returned receipt was looked up for a transaction this Send published, and that receipt of that very transaction was compared with a tip that confirms it; the error is nil exactly when it did not revert, ErrReverted exactly when it did; without a receipt the error is the context's. |
| `TxManager.TipDecides` | bss-core/txmgr/txmgr.go:280-305 | Reading the tip makes a sender deliver its receipt if and only if that tip confirms it; otherwise, or when the tip cannot be read, it polls again. |
| `TxManager.RejectionDecides` | bss-core/txmgr/txmgr.go:161-172 | A sender whose publication failed goes on to cancel exactly when nothing was last seen mined and enough nonce-too-low replies came in; in any other state it returns without cancelling. |
| `TxManager.CheckDecides` | bss-core/txmgr/txmgr.go:214-221 | The check after a tick lets a sender start exactly when nothing is last seen mined. |
| `TxManager.ErrorIsCause` | bss-core/txmgr/txmgr.go:229-230 | In every run, the context error Send returns is the cause its context has. |
| `TxManager.PollsAgain` | bss-core/txmgr/txmgr.go:272-328 | Whatever lookup finds no receipt, the sender can come back to the same lookup with nothing but the verdict on the record changed. |
| `TxManager.CanPublishAndFind` | bss-core/txmgr/txmgr.go:138-182 | A sender that just started can publish any transaction it is given and find any receipt of it. |
| `TxManager.ConfirmedReceiptReachesCaller` | bss-core/txmgr/txmgr.go:179-240 | From every reachable state in which Send waits with an empty channel and some sender holds a receipt that a tip confirms, there is a path at whose end Send has returned exactly that receipt of that transaction, with the error its status calls for. |
| `TxManager.SendCanSucceed` | bss-core/txmgr/txmgr.go:112-240 | From the start, every transaction and every receipt of it that some tip confirms can be what Send returns. |
| `TxManager.PublishedMeansAccepted` | bss-core/txmgr/txmgr.go:159-172 | A published transaction is one for which a sender's sendTx returned nil at a definite step of the run. |
| `TxManager.SightingMeansChecked` | bss-core/txmgr/txmgr.go:272-305 | A confirmation check was made at a definite step by a sender that had found that receipt for that transaction. |
| `TxManager.LogMoment` | bss-core/txmgr/txmgr.go:160-169 | Every prefix of the calls on the record was the whole history at some moment of the run. |
| `TxManager.UnpromptedCancelHasCause` | bss-core/txmgr/txmgr.go:159-172 | If Send returns a context error although the caller's context is not done, the run has a moment at which nothing was last seen mined and at least the threshold of nonce-too-low replies had come since the last reset. |
| `TxManager.SpawnFollowsCheck` | bss-core/txmgr/txmgr.go:214-225 | In every run, each later sender is started after a check, made in a definite earlier state and followed by no other step of the loop, in which nothing was last seen mined. |
| `TxManager.SpawnWhileMined` | bss-core/txmgr/txmgr.go:219-225 | A run in which a sender is nevertheless started while a hash is last seen mined, because it was recorded between the check and the start. |
| `TxManager.SpawnWhileMinedIff` | bss-core/txmgr/txmgr.go:214-225 | In every run, a sender is started while a hash is last seen mined if and only if the calls made on the record between its check and its start recorded that hash as mined and did not take it back. |
| `TxManager.VerdictIsRecorded` | bss-core/txmgr/txmgr.go:273-321 | Each step changes what is last said of exactly the hash that was looked up, and of no other. |
| `TxManager.MovesApproachExit` | bss-core/txmgr/txmgr.go:138-198 | Whatever a sender is told, every move other than polling again brings it nearer to its return, and a done context stays done. |
| `TxManager.MovesAreBounded` | bss-core/txmgr/txmgr.go:138-198 | In every interleaving, a sender that does not poll again makes at most as many moves as it is away from returning, whatever it is told and whatever the others do. |
| `TxManager.SenderCanExit` | bss-core/txmgr/txmgr.go:138-198 | Once the context is done, each live sender reaches its return by at most seven moves of its own, whatever the callbacks and the backend answer and with no step of any other sender; the channel never blocks it. |
| `TxManager.AllSendersExit` | bss-core/txmgr/txmgr.go:123-139 | Once the context is done, all live senders can return, whatever the callbacks and the backend answer. |
| `TxManager.WaitCanEnd` | bss-core/txmgr/txmgr.go:123-130 | From the deferred wait the group can always be brought to zero: no deadlock. |
| `TxManager.LoopCanSelect` | bss-core/txmgr/txmgr.go:209-225 | With the context done, the event loop gets back to its select, whether or not it starts a sender on the way. |
| `TxManager.LoopCanEnd` | bss-core/txmgr/txmgr.go:209-231 | With the context done, the event loop can reach its deferred cancel and wait; an outcome already decided is kept. |
| `TxManager.SendCanReturn` | bss-core/txmgr/txmgr.go:112-240 | From every reachable state with the context done, Send can return, whatever the callbacks and the backend answer, and an outcome already decided is the one it returns. |
| `ClearPending.CanceledIsNotLow` | bss-core/drivers/clear_pending_tx.go:84-91 | The text the closure returns after cancelling is not itself a nonce-too-low text. |
| `ClearPending.NeverLowStep` | bss-core/drivers/clear_pending_tx.go:68-104 | Every step keeps: no nonce-too-low text reaches the record. |
| `ClearPending.AtNonceStep` | bss-core/drivers/clear_pending_tx.go:51-66 | Every step keeps: every transaction signed or published is at the nonce that was queried. |
| `ClearPending.ClearInvariantStep` | bss-core/drivers/clear_pending_tx.go:45-106 | Every step of the client keeps both, and a cancelled context has a cause: a nonce-too-low reply or the outer context. |
| `ClearPending.ClearRunIsSendRun` | bss-core/drivers/clear_pending_tx.go:45-106 | Every run of the client is, step for step, a run of Send, so all that is proved of Send holds of it. |
| `ClearPending.CounterStaysZero` | bss-core/drivers/clear_pending_tx.go:68-104 | In every run the nonce-too-low counter stays 0 and giving up is never justified. |
| `ClearPending.RetryHasCause` | bss-core/drivers/clear_pending_tx.go:106-115 | A retry is asked for only if the node answered nonce-too-low or the outer context was cancelled. |
| `ClearPending.ClearedIsConfirmed` | bss-core/drivers/clear_pending_tx.go:106-130 | A nil result means that the transaction whose receipt came back is at the queried nonce, was published, was confirmed and did not revert. |
| `ClearPending.ResultsExactly` | bss-core/drivers/clear_pending_tx.go:106-130 | In every run: success exactly with a receipt that did not revert, a retry exactly when no receipt came and the context was cancelled, Send's own error exactly with a reverted receipt or a passed deadline. |
| `ClearPending.LowReplyCancels` | bss-core/drivers/clear_pending_tx.go:84-91 | A nonce-too-low reply cancels the context at once; the sender it came to reports a cancellation instead and returns without a decision to abort. |
| `Consensus.LowestIsZero` | proxyd/consensus_poller.go:257-276 | The scan proposes nothing exactly when nobody is eligible or the last eligible backend is recorded at block 0. |
| `Consensus.LowestIsMinimumIff` | proxyd/consensus_poller.go:257-271 | The scan finds a lowest eligible head if and only if no eligible head is 0, or the last eligible one is. |
| `Consensus.LowestExactly` | proxyd/consensus_poller.go:257-271 | The scan's result is the recorded block of the first lowest eligible head: every earlier eligible head after the last one recorded at 0 is strictly higher, and none is lower. |
| `Consensus.RoundMeaning` | proxyd/consensus_poller.go:292-343 | A round succeeds exactly when all serving and answering backends return one block at the proposed height (with the wanted hash, if one is set); the group is then those backends, in order. |
| `Consensus.Poller.constructor` | proxyd/consensus_poller.go:169-201 | Nothing recorded, nothing published, an empty group. |
| `Consensus.Poller.UpdateBackend` | proxyd/consensus_poller.go:205-248 | A refresh records the fetched head of that backend and no other; a failed one changes nothing; changed tells whether the hash differs. |
| `Consensus.Poller.FindLowest` | proxyd/consensus_poller.go:257-271 | The loop computes the scan. |
| `Consensus.Poller.TryHeight` | proxyd/consensus_poller.go:293-334 | The inner loop computes one round, and whether its first mismatch is at or below the previous consensus. |
| `Consensus.Poller.Walk` | proxyd/consensus_poller.go:278-343 | The outer loop stops at the first round that agrees, proposes the wrapped height of that round, and collects the group and the broken flag. |
| `Consensus.Poller.UpdateGroup` | proxyd/consensus_poller.go:251-357 | With nothing to propose nothing changes; otherwise the walk's height and group are published, and the result tells whether the previous consensus was broken. |
| `Consensus.GenesisAgrees` | proxyd/consensus_poller.go:337-343 | With a shared genesis the round at block 0 agrees, so the walk ends. |
| `Consensus.AnsweringMembers` | proxyd/consensus_poller.go:296-334 | The group is exactly the backends that serve and answer for the height. |
| `Consensus.WalkFindsCommonAncestor` | proxyd/consensus_poller.go:278-354 | For hash-linked chains sharing a genesis and fixed during the update, the walk stops without wrapping at a height no higher than the lowest head; any two group members agree on every block up to it; in the first round the members have the recorded block; and every higher height is ruled out by answers that disagree there. |
| `Consensus.ChainsLetWalkEnd` | proxyd/consensus_poller.go:278-343 | Chains that share a genesis satisfy all that the group update asks of what it observes. |
| `Consensus.PublishedIsCommonAncestor` | proxyd/consensus_poller.go:251-357 | From the chains to what is published: the number is at most the head of the first lowest backend; the group is exactly the backends that answer for it; its members agree on every block up to it and, at that head, return the block recorded for that backend; every greater height is ruled out; and the broken flag is true exactly when the number is below both that head and the previous one. |
| `Consensus.WalkStaysAboveZeroIff` | proxyd/consensus_poller.go:337-343 | The walk stops without wrapping past 0 if and only if all members have the same genesis block. |
| `Consensus.DisjointChainsWrap` | proxyd/consensus_poller.go:337-343 | An input without a shared genesis on which the proposal wraps past 0 and an empty group is published at 2^64 - 1. |
| `Consensus.BrokenMeaning` | proxyd/consensus_poller.go:291-348 | When backends answer for the height asked, broken is true exactly when the published height is below both the lowest head and the previous consensus. |
| `Consensus.SharedHeightAgrees` | proxyd/consensus_poller.go:292-343 | The round that proposes a height all members share agrees, the first round included. |
| `Consensus.AgreedIsShared` | proxyd/consensus_poller.go:292-343 | Conversely, a round that agrees proposes a height all members share. |
| `Consensus.StopBounds` | proxyd/consensus_poller.go:292-354 | An update stops no higher than the lowest head and does not skip a shared height. |
| `Consensus.UpdateKeepsConsensusIff` | proxyd/consensus_poller.go:251-354 | One update leaves the number no lower if and only if the scan proposes nothing or a height no lower than the published one. |
| `Consensus.UpdateKeepsAhead` | proxyd/consensus_poller.go:251-354 | An update with no member at block 0 does not lower the number and leaves it at or below every recorded head. |
| `Consensus.ConsensusNeverDecreases` | proxyd/consensus_poller.go:205-354 | Over every sequence of chain growth, refreshes and updates with fixed, refreshed membership and no fetch errors, in which no update sees a member recorded at block 0, the number never decreases. |
| `Consensus.ZeroHeadLowersConsensus` | proxyd/consensus_poller.go:267-270 | A whole history from the initial state in which a backend, refreshed while its chain is only genesis, makes the number fall from 2 to 1, although every member was refreshed before each update, no fetch fails and all follow one chain. |
| `ReplyOrder.SortSorts` | proxyd/backend.go:576-580 | Sorting orders the replies by request position and keeps each reply exactly once. |
| `ReplyOrder.SortedUnique` | proxyd/backend.go:576-580 | With distinct positions there is only one sorted arrangement, so the choice of sorting algorithm does not matter. |
| `ReplyOrder.AnyOrderIsRestored` | proxyd/backend.go:565-581 | Whatever the bodies are and whatever order they come in, when the reply has the ids asked for, every sort puts the reply with the id of request i in place i, and all sorts give one result. |
| `ReplyOrder.IdsLineUpIff` | proxyd/backend.go:522-581 | After any sort, reply i carries the id of request i for all i if and only if the reply ids are the requested ids, each once; equal lengths alone do not give that. |
| `ReplyOrder.PermutingKeepsIds` | proxyd/backend.go:576-580 | Sorting by any algorithm keeps which ids the reply has. |
| `ReplyOrder.ReplyIsUnique` | proxyd/backend.go:565-581 | When the reply has the ids asked for, there is one reply to each request and no other. |
| `ReplyOrder.ForeignIdMisplaced` | proxyd/backend.go:576-580 | A reply with an unknown id passes the length check and takes the first slot. |
| `ReplyOrder.SortReplies` | proxyd/backend.go:566-581 | The array is permuted in place; if it has the ids asked for, reply i then carries the id of request i, whatever the bodies are. |
| `Rpc.InvalidIds` | proxyd/rpc.go:76-85 | The ids refused are nothing, a lone quote, an empty string, and anything that starts an object or an array. |
| `Rpc.ChecksDecide` | proxyd/server.go:379-438 | Over the fields of the call and the configuration: each reply the proxy gives itself has exactly its own cause (parse error, version, method, id, eth_accounts, whitelist, the method's own limit, sender limit), and a call none of them refuses is forwarded to the group its method maps to. |
| `Grouping.AddRouted` | proxyd/server.go:441-446 | Counting an id and appending to its group keeps the maps equal to their meaning over the calls so far. |
| `Grouping.ElemsStand` | proxyd/server.go:441-446 | Every element of a group is the call at its index, forwarded to that backend group under that key. |
| `Grouping.GroupsHaveDistinctIds` | proxyd/server.go:441-446 | No two requests of one group share an id, so the duplicate-id panic cannot be reached. |
| `Grouping.EveryCallIsGrouped` | proxyd/server.go:441-446 | Every forwarded call is an element of the group its key names. |
| `Grouping.GroupedTogetherIff` | proxyd/server.go:440-446 | Two forwarded calls are in one group if and only if they go to one backend group and equally many forwarded calls with their own id came before them. |
| `Grouping.ElemsInOrder` | proxyd/server.go:446 | A group keeps the order of the batch. |
| `Grouping.BatchStart` | proxyd/server.go:464-476 | The number of minibatches is the least that covers the misses. |
| `Grouping.MinibatchStands` | proxyd/server.go:476-478 | A minibatch inherits from its group that elements stand for their calls and have distinct ids. |
| `Grouping.MinibatchesCover` | proxyd/server.go:463-478 | Minibatches are not empty, no longer than the limit, and concatenate to exactly the misses in order. |
| `BatchServer.Server.DoForward` | proxyd/backend.go:433-539 | One exchange: replies of the right number are returned as one received reply per request, the one with its id if the ids match; a failed or unreadable exchange, and only that, is one to try again. |
| `BatchServer.Server.TryAll` | proxyd/backend.go:268-319 | First try and retries: received replies, or every try that could be made was made and failed. |
| `BatchServer.Server.ForwardTo` | proxyd/backend.go:258-320 | A backend: received replies, or its gate was tried and was closed, or all tries failed. |
| `BatchServer.Server.ForwardGroup` | proxyd/backend.go:589-642 | Failover: received replies from the first backend, in the order chosen for this call, that gives any, those before it having been asked in vain; or every backend chosen was. Nothing but this batch is posted, only to members of the group, and for a consensus-aware group only to those chosen at that moment. |
| `BatchServer.Server.ReadPolled` | proxyd/methods.go:241-271 | A hit for a polled method is the value read from the poller now. |
| `BatchServer.Server.ReadKept` | proxyd/methods.go:373-391 | A hit is a result a backend once returned for a call of the same method that is alike to the cache; a miss means nothing is kept, or the store could not be read for this request just now. |
| `BatchServer.Server.GetRpc` | proxyd/cache.go:135-149 | A hit is a polled value or such a kept result; a miss is explained in the same way. |
| `BatchServer.Server.PutRpc` | proxyd/cache.go:151-157 | Storing keeps: every cached result was received in answer to such a call. |
| `BatchServer.Server.Offer` | proxyd/server.go:498-506 | Only results that are not null are handed to the cache. |
| `BatchServer.Server.Place` | proxyd/server.go:494-507 | The element's slot gets the reply, and all filled slots stay right. |
| `BatchServer.Server.Scatter` | proxyd/server.go:494-507 | Every element's slot is filled with the answer to it; no other slot becomes wrong or empty. |
| `BatchServer.Server.AnswerMinibatch` | proxyd/server.go:479-507 | Every element of the minibatch is answered, with replies received for it or with the failure of a group asked in vain. |
| `BatchServer.Server.AnswerHits` | proxyd/server.go:451-461 | Hits fill their slots rightly; the misses are elements for which nothing is kept or the store could not be read, and keep the group's properties. |
| `BatchServer.Server.AnswerMisses` | proxyd/server.go:463-508 | Unless the deadline passes, every miss is answered; slots stay right. |
| `BatchServer.Server.AnswerGroup` | proxyd/server.go:450-509 | Unless the deadline passes, every element of the group is answered; slots stay right. |
| `BatchServer.Server.HandleBatch` | proxyd/server.go:363-512 | For every order of groups and replies, for answers that may differ by backend and moment: unless the deadline is seen to have passed, every slot is filled. A call that is refused has the reply its own fields call for; any other has a reply received for it during this call from the group its method maps to, a polled or cached result for it, or the failure of that group, whose every chosen backend was asked in vain during this call. In any case every request posted is that of a call that is not refused, posted to a backend of the group its method maps to. |
| `BatchServer.Server.Split` | proxyd/server.go:375-447 | The first pass leaves exactly the admitted calls without a slot, puts into each other slot the reply its fields call for, and puts all admitted calls into their groups. |
| `BatchServer.SortAllMeaning` | proxyd/server.go:375-447 | The first pass, as a function, has filled exactly the local slots and counted and grouped exactly the forwarded calls. |
| `BatchServer.IsAnswerLater` | proxyd/server.go:494-507 | What is an answer to a request stays one as more exchanges are made. |
| `BatchServer.RightIsIndividual` | proxyd/server.go:363-512 | If the nodes always answer alike, each slot holds what the call would get on its own, but for groups that failed. |
| `BatchServer.BatchPostsAreOfCalls` | proxyd/server.go:479-481 | What is posted for a minibatch are requests of admitted calls, at backends of the group their methods map to. |
| `RpcCache.BlockCache.constructor` | proxyd/methods.go:51-55 | An empty store with its confirmation depth. |
| `RpcCache.BlockCache.TooRecent` | proxyd/methods.go:93-105 | A block is too recent exactly when it fails the depth test against the polled head; a missing head counts as too recent. |
| `RpcCache.BlockCache.GetBlockByNumber` | proxyd/methods.go:73-79 | The response found for these parameters; `NumberHitIsBlock` and `NumberPutGet` say which that is. |
| `RpcCache.BlockCache.PutBlockByNumber` | proxyd/methods.go:81-109 | The store with this response kept, if it is to be; `NumberPutGet` says when, and what is found afterwards. |
| `RpcCache.BlockCache.GetBlockRange` | proxyd/methods.go:133-140 | The response found for these parameters; `RangeHitIsBlocks` and `RangePutGet` say which that is. |
| `RpcCache.BlockCache.PutBlockRange` | proxyd/methods.go:142-176 | The store with this response kept, if it is to be; `RangePutGet` says when, and what is found afterwards. |
| `RpcCache.KeyKinds` | proxyd/methods.go:57-63 | Keys of block queries, eth_call responses and polled values never coincide. |
| `RpcCache.KeyInjective` | proxyd/methods.go:57-63 | Different valid queries have different keys. |
| `RpcCache.HeadsKnownStep` | proxyd/proxyd.go:364-388 | Every step keeps: the polled head is one the chain once had, at most the highest. |
| `RpcCache.HeadsStayKnown` | proxyd/proxyd.go:364-388 | This holds in every run, whatever is put. |
| `RpcCache.SameAnswer` | proxyd/methods.go:57-176 | Chains that agree up to the highest block asked for give the same answer. |
| `RpcCache.AnswerLasts` | proxyd/methods.go:93-105 | In every run, an answer is still the chain's at any later time, if the blocks asked for were out of reach of a reorg when it was fetched, or no reorg came since. |
| `RpcCache.StoredIsSafe` | proxyd/methods.go:93-105 | What passes the depth test against a possibly stale head is out of reach of every later reorg. |
| `RpcCache.PutKeepsFaithful` | proxyd/methods.go:81-109 | A put keeps every stored response equal to the chain's answer, if what it stores is. |
| `RpcCache.FaithfulStep` | proxyd/methods.go:57-176 | So does every other step: head advance, bounded reorg, eviction, stale poll, other keys. |
| `RpcCache.TimelyPutIsCurrent` | proxyd/methods.go:81-109 | A put that was not overtaken, however late, hands in the chain's current answer. |
| `RpcCache.RunInvariant` | proxyd/methods.go:57-176 | In every run without overtaken puts, every stored response is the chain's answer and safe. |
| `RpcCache.HitIsCurrentAnswer` | proxyd/methods.go:373-399 | In every run without overtaken puts, with any delay between fetch and put and any old head polled, a hit for a block or block range equals what the chain answers at that moment. |
| `RpcCache.DecodesIff` | proxyd/methods.go:277-323 | The handlers accept the parameter lists of valid queries and no others, each as exactly its query, flag included. |
| `RpcCache.NumberHitIsBlock` | proxyd/methods.go:73-79 | In every run without overtaken puts, a hit on a text and a flag is the chain's block at the height the text names, in the form the flag asks for; any other parameters, and the moving heads, miss. |
| `RpcCache.RangeHitIsBlocks` | proxyd/methods.go:133-140 | The same of a range: the chain's blocks from the height the first text names to that the second names, in the form the flag asks for. |
| `RpcCache.NumberPutGet` | proxyd/methods.go:73-109 | A put of a single block changes what is found for its own parameters, exactly when they are well formed and deep enough, and for no other parameters of either handler. |
| `RpcCache.RangePutGet` | proxyd/methods.go:133-176 | The same of a put of a range, for which a head must be available. |
| `RpcCache.NamesOne` | proxyd/methods.go:325-363 | A text names at most one height. |
| `RpcCache.OneBlockRange` | proxyd/methods.go:133-140 | A range of one block is answered exactly when that block is, with that block alone; the moving heads are answered with the last block. |
| `RpcCache.EntryMayVanish` | proxyd/methods.go:373-391 | Every run goes on to one in which a given query misses: a hit is never promised. |
| `RpcCache.StoredIsServed` | proxyd/methods.go:81-109 | A response for settled blocks, handed in when the polled head is the highest, is served afterwards: the cache is not vacuously right. |
| `RpcCache.MayStoreBelow` | proxyd/methods.go:93-105 | A query passes the depth test when its highest block is far enough below the polled head. |
| `RpcCache.UnsafeCanBeOvertaken` | proxyd/methods.go:81-109 | If the blocks asked for can still be reached by a reorg when the answer is fetched, some continuation replaces them, buries them and leaves the handlers ready to store the old answer. |
| `RpcCache.UnsafePutServesWrong` | proxyd/methods.go:81-109 | In that continuation the late put is stored and the cache serves the wrong answer. |
| `RpcCache.NeverOvertakenIff` | proxyd/methods.go:81-109 | A fetched answer may be put at any later time if and only if, when it is fetched, the blocks asked for are genesis or deeper than a reorg may reach. |
| `RpcCache.LateResponseStays` | proxyd/methods.go:81-109 | A concrete run: a block is fetched, replaced, buried and polled past, then stored; the cache serves the block that is gone. |
| `Numerals.DecimalRoundTrip` | proxyd/proxyd.go:375-386 | The decimal text of a number is digits only, has no leading zero, and reads back as the number. |
| `Numerals.HexRoundTrip` | l2geth/common/hexutil/hexutil.go:115-119 | The base-16 text of a number is digits only, starts with zero for zero only, and reads back as the number. |
| `Numerals.QuantityIff` | l2geth/common/hexutil/hexutil.go:92-102 | A text is decoded to a number below 2^64 if and only if it is 0x and that number printed in base 16 without leading zeros, in letters of either case. |
| `Numerals.QuantityHasNoColon` | l2geth/common/hexutil/hexutil.go:92-102 | A decodable 0x quantity contains no colon, so it cannot run into its neighbours in a key. |
| `DerivationPaths.ReadComponent` | l2geth/accounts/hd.go:91-112 | The loop body computes the component's index or its error. |
| `DerivationPaths.ParseDerivationPath` | l2geth/accounts/hd.go:68-118 | The loop computes the parse: the first bad component decides the error, relative paths start at the default root. |
| `DerivationPaths.PathString` | l2geth/accounts/hd.go:122-136 | The loop computes the printed form. |
| `DerivationPaths.DecimalIsRead` | l2geth/accounts/hd.go:101 | A decimal text without leading zero is read in base 10 as the number it was printed from. |
| `DerivationPaths.ComponentRoundTrip` | l2geth/accounts/hd.go:90-116 | A printed component, hardened or not, is read back as itself. |
| `DerivationPaths.PlainRoundTrip` | l2geth/accounts/hd.go:100-112 | A decimal component is its number below 2^32, and out of range from there on. |
| `DerivationPaths.HardenedRoundTrip` | l2geth/accounts/hd.go:96-112 | With a quote it is its number plus 2^31 below 2^31, and out of the hardened range from there on. |
| `DerivationPaths.SignedRoundTrip` | l2geth/accounts/hd.go:101-111 | A plus sign changes nothing; below zero only minus zero is in range. |
| `DerivationPaths.NumbersAre` | l2geth/accounts/hd.go:101 | Exactly which texts are numbers, and of what value: digits of the base that 0x, 0o, 0b or a bare zero announces, or else of base 10, with single underscores only between digits or after the prefix. |
| `DerivationPaths.PrefixedComponent` | l2geth/accounts/hd.go:101-112 | Digits after 0x, 0X, 0o, 0O, 0b, 0B or 0 stand for their value in base 16, 8, 2 or 8, as far as it fits. |
| `DerivationPaths.HexComponent` | l2geth/accounts/hd.go:101-112 | A number printed in base 16 after 0x is read as that number, as far as it fits. |
| `DerivationPaths.SeparatedIff` | l2geth/accounts/hd.go:101 | Underscores are accepted exactly singly, not at the end, and at the start only after a prefix. |
| `DerivationPaths.UnderscoreIgnored` | l2geth/accounts/hd.go:101 | An underscore between two digits does not change the value. |
| `DerivationPaths.SpacesAre` | l2geth/accounts/hd.go:92 | The code points that count as white space. |
| `DerivationPaths.SplitPrinted` | l2geth/accounts/hd.go:72 | Splitting a printed path gives m and the texts of its components. |
| `DerivationPaths.PrintParse` | l2geth/accounts/hd.go:68-136 | For every path, parsing its printed form gives it back, except for the empty path, which is refused. |
| `DerivationPaths.ParsePrintParse` | l2geth/accounts/hd.go:68-136 | For every accepted text, the parse is not empty and printing and parsing it again changes nothing. |
| `DerivationPaths.PrintInjective` | l2geth/accounts/hd.go:122-136 | Different paths print differently. |
| `DerivationPaths.RelativeMeansRooted` | l2geth/accounts/hd.go:80-85 | A relative path means the same as with m/ in front, under the default root. |
| `DerivationPaths.BlanksAreIgnored` | l2geth/accounts/hd.go:91-99 | White space around a component, of any kind and amount, changes nothing. |
| `VarInt.LERoundTrip` | l2geth/common/varbytes.go:132-160 | A number written in k little-endian bytes that it fits into is read back. |
| `VarInt.LEUnique` | l2geth/common/varbytes.go:80-117 | Every k bytes are the k-byte form of exactly the number they are read as. |
| `VarInt.EncodeDecode` | l2geth/common/varbytes.go:172-283 | Every 64-bit integer is read back whatever follows it, the rest is left over, and the length is the computed size. |
| `VarInt.DecodeIsCanonical` | l2geth/common/varbytes.go:172-230 | Every accepted encoding is byte for byte what the writer writes for its value. |
| `VarInt.WireFormat` | l2geth/common/varbytes.go:172-260 | The first byte tells how many follow, the least significant of which comes first; a value that a shorter form holds is refused with its bytes consumed. |
| `VarInt.BrokenOff` | l2geth/common/varbytes.go:64-117 | Every proper prefix of an encoding reads as EOF if it is at most the first byte, as an unexpected EOF otherwise, and nothing is left over. |
| `VarInt.PrefixFree` | l2geth/common/varbytes.go:172-260 | No encoding is a prefix of another. |
| `VarInt.BytesRoundTrip` | l2geth/common/varbytes.go:322-358 | A byte array is read back with the rest left over, or refused exactly when it is over the limit. |
| `VarInt.ListRoundTrip` | l2geth/common/varbytes.go:322-358 | Arrays written one after the other, each within the limit, are read back in order. |
| `VarInt.FreeList.Borrow` | l2geth/common/varbytes.go:44-52 | The buffer handed out is 8 bytes long and no longer in the list: the one returned longest ago, or a new one if there is none. |
| `VarInt.FreeList.Return` | l2geth/common/varbytes.go:56-62 | The buffer joins the end of the list while that holds fewer than 1024, and is let go otherwise; none is in it twice. |
| `VarInt.FreeList.PutUint` | l2geth/common/varbytes.go:119-160 | The output grows by exactly the number's bytes, or not at all: nothing a recycled buffer held gets out. |
| `VarInt.FreeList.GetUint` | l2geth/common/varbytes.go:64-117 | The number read depends on the next k bytes only, not on the buffer's old contents; short input is told apart from none. |
| `VarInt.FreeList.WriteVarInt` | l2geth/common/varbytes.go:234-260 | The output grows by exactly the encoding, if there is room; otherwise by at most its first byte. |
| `VarInt.FreeList.ReadVarInt` | l2geth/common/varbytes.go:172-230 | Computes the outcome and the remaining input of the format, canonical check and short reads included. |
| `VarInt.FreeList.WriteVarBytes` | l2geth/common/varbytes.go:349-358 | The output grows by exactly the array's encoding, if there is room. |
| `VarInt.FreeList.ReadVarBytes` | l2geth/common/varbytes.go:322-345 | Computes the outcome and the remaining input of the format, limit check included. |
| `VarInt.FillLE` | l2geth/common/varbytes.go:132-160 | The front of the buffer holds the number's bytes whatever it held before. |
| `RateLimiter.LimitedKeys.constructor` | proxyd/frontend_rate_limiter.go:32-37 | No key is counted yet. |
| `RateLimiter.LimitedKeys.Take` | proxyd/frontend_rate_limiter.go:39-49 | The key's count grows by one, no other changes, and the call is let through exactly when the count was below the limit. |
| `RateLimiter.MemoryLimiter.constructor` | proxyd/frontend_rate_limiter.go:65-70 | No generation yet. |
| `RateLimiter.MemoryLimiter.Pick` | proxyd/frontend_rate_limiter.go:73-86 | The current generation is kept when its timestamp matches, otherwise replaced by an empty one. |
| `RateLimiter.MemoryLimiter.Take` | proxyd/frontend_rate_limiter.go:72-89 | Without interference: one more call in the timestamp's generation, let through exactly when below the limit. |
| `RateLimiter.InvariantStep` | proxyd/frontend_rate_limiter.go:39-89 | Every step of every interleaving keeps: each generation's counts are its calls, and it has let through min(max, calls). |
| `RateLimiter.RunInvariant` | proxyd/frontend_rate_limiter.go:39-89 | This holds in every reachable state. |
| `RateLimiter.LimitPerGeneration` | proxyd/frontend_rate_limiter.go:39-89 | In every interleaving and whatever the clock does, each generation lets each key through exactly min(max, calls) times. |
| `RateLimiter.LimitsAddUpIff` | proxyd/frontend_rate_limiter.go:39-89 | Limiting several counts limits their sum if and only if at most one of them is positive or the sum is within the limit. |
| `RateLimiter.CallsAddUp` | proxyd/frontend_rate_limiter.go:39-89 | The calls of a timestamp are those of its generations added up. |
| `RateLimiter.AcceptedAddUp` | proxyd/frontend_rate_limiter.go:39-89 | So are the calls let through. |
| `RateLimiter.LimitPerTimestampIff` | proxyd/frontend_rate_limiter.go:39-89 | In every interleaving and whatever the clock does, a key is let through exactly min(max, calls) times for a timestamp if and only if at most one of its generations counted the key, or its calls are within the limit, or the limit lets nothing through. |
| `RateLimiter.OneGenerationPerStamp` | proxyd/frontend_rate_limiter.go:79-81 | If no new generation reuses a timestamp, timestamps of generations are distinct. |
| `RateLimiter.ClockReusesNoStamp` | proxyd/frontend_rate_limiter.go:79-81 | A clock that never goes back reuses no timestamp, and generations have growing ones. |
| `RateLimiter.NoLimitNoPass` | proxyd/frontend_rate_limiter.go:39-49 | With a limit of 0 or less nothing is ever let through. |
| `RateLimiter.LimitPerTimestamp` | proxyd/frontend_rate_limiter.go:39-89 | As long as no timestamp gets a second generation, each key is let through exactly min(max, calls) times per truncated timestamp, late callers into replaced generations included. |
| `RateLimiter.ClockBackDoublesLimit` | proxyd/frontend_rate_limiter.go:79-81 | A run in which the clock steps back and a limit of 1 is passed twice for one timestamp. |
| `Wallets.CmpOrder` | l2geth/accounts/url.go:93-104 | URL.Cmp is a total order, and only equal URLs compare equal. |
| `Wallets.CompareMeaning` | l2geth/accounts/url.go:99-104 | A text comes before another exactly when they agree up to a place at which the first ends or has the smaller character. |
| `Wallets.SchemeFirst` | l2geth/accounts/url.go:99-104 | A URL comes before another exactly when its scheme does, whatever the paths, or the schemes are equal and its path does. |
| `Wallets.PlaceIsPlace` | l2geth/accounts/manager.go:207 | In a sorted cache the place found splits it into lower URLs and the others. |
| `Wallets.Search` | l2geth/accounts/manager.go:207 | The binary search finds that place. |
| `Wallets.MergeKeepsSorted` | l2geth/accounts/manager.go:205-215 | Inserting a wallet keeps the cache sorted. |
| `Wallets.MergeBag` | l2geth/accounts/manager.go:205-215 | Inserting a wallet adds exactly it. |
| `Wallets.DropKeepsSorted` | l2geth/accounts/manager.go:219-229 | Removing keeps the cache sorted. |
| `Wallets.DropRemovesUrlIff` | l2geth/accounts/manager.go:219-229 | Dropping a wallet takes away its URL and nothing else if and only if the URL is in the cache or all URLs there are below it. |
| `Wallets.DropRemovesAnother` | l2geth/accounts/manager.go:219-229 | A departure of an unknown wallet that removes another one. |
| `Wallets.MergeAllBag` | l2geth/accounts/manager.go:205-215 | Merging many wallets loses and invents none. |
| `Wallets.CacheStaysSorted` | l2geth/accounts/manager.go:112-121 | After any sequence of arrivals and departures the cache is sorted. |
| `Wallets.CacheHoldsArrivals` | l2geth/accounts/manager.go:112-121 | When departing wallets are in the cache, its URLs are the initial ones plus the arrived minus the departed, with multiplicity. |
| `Wallets.InsertWallet` | l2geth/accounts/manager.go:206-213 | The loop body of merge. |
| `Wallets.RemoveWallet` | l2geth/accounts/manager.go:220-227 | The loop body of drop; a wallet above all others is skipped. |
| `Wallets.Merge` | l2geth/accounts/manager.go:205-215 | The loop inserts all wallets one after the other and keeps the cache sorted. |
| `Wallets.Drop` | l2geth/accounts/manager.go:219-229 | The loop removes for all wallets one after the other and keeps the cache sorted. |
| `Wallets.Manager.constructor` | l2geth/accounts/manager.go:53-58 | The initial cache is sorted and holds exactly the backends' wallets. |
| `Wallets.Manager.Update` | l2geth/accounts/manager.go:112-121 | The cache stays sorted and equal to the initial one with all events so far applied. |
| `GasPricing.GasPricer.constructor` | gas-oracle/gasprices/l2_gas_pricer.go:36-41 | The first price is the given one, raised to the floor. |
| `GasPricing.NewGasPricer` | gas-oracle/gasprices/l2_gas_pricer.go:29-42 | Refused exactly for a floor below 1 or a change that is not positive. |
| `GasPricing.GasPricer.CalcNextEpochGasPrice` | gas-oracle/gasprices/l2_gas_pricer.go:46-75 | Negative usage and a target below 1 are refused, in that order; otherwise the price for the share of the target used. |
| `GasPricing.GasPricer.CompleteEpoch` | gas-oracle/gasprices/l2_gas_pricer.go:78-86 | The price stays the run of the first price over all completed epochs; a refused epoch changes nothing. |
| `GasPricing.ShareMeaning` | gas-oracle/gasprices/l2_gas_pricer.go:55 | Comparing the share used with a bound is comparing usage with that part of the target. |
| `GasPricing.NextIsLeast` | gas-oracle/gasprices/l2_gas_pricer.go:60-69 | The next price is the least integer at or above the floor and price times share; a share further from 1 than the largest change counts as one at that distance. |
| `GasPricing.RisesIff` | gas-oracle/gasprices/l2_gas_pricer.go:60-69 | The price rises if and only if more than the whole target was used. |
| `GasPricing.LowUsageLowers` | gas-oracle/gasprices/l2_gas_pricer.go:60-69 | At or below (1-m) of the target, the price falls if and only if it is above the floor and price * m >= 1; otherwise it stays. |
| `GasPricing.UsageDecides` | gas-oracle/gasprices/l2_gas_pricer.go:55-69 | Both of these in terms of usage and target. |
| `GasPricing.StepIsBounded` | gas-oracle/gasprices/l2_gas_pricer.go:60-69 | One epoch moves the price by a factor from max(0, 1-m) to 1+m, rounded up, and not below the floor. |
| `GasPricing.RunBetween` | gas-oracle/gasprices/l2_gas_pricer.go:78-86 | Moves between two monotone functions keep every run between the iterates of the two. |
| `GasPricing.PriceEnvelope` | gas-oracle/gasprices/l2_gas_pricer.go:29-86 | For every history of n epochs and every limit m > 0 on the change, the price is at least the floor, at least p0 max(0, 1-m)^n, and at most p0 (1+m)^n + ((1+m)^n - 1) / m. |
| `GasPricing.PricerStaysInEnvelope` | gas-oracle/gasprices/l2_gas_pricer.go:29-86 | The same of the price of every pricer after any calls. |
| `GasPricing.ShrinkClosed` | gas-oracle/gasprices/l2_gas_pricer.go:29-86 | n lower moves of p0 by the factor lo give p0 lo^n. |
| `GasPricing.UpperEdge` | gas-oracle/gasprices/l2_gas_pricer.go:29-86 | n upper moves of p0, each rounded up, give p0 (1+m)^n + ((1+m)^n - 1) / m. |
| `GasPricing.LowUsageSettles` | gas-oracle/gasprices/l2_gas_pricer.go:46-86 | Under low usage the price falls every epoch until it is at rest, and then stays. |
| `GasPricing.LowUsageReachesRest` | gas-oracle/gasprices/l2_gas_pricer.go:46-86 | It is at rest after at most p0 - floor epochs. |
| `GasPricing.GasPriceUpdater.constructor` | gas-oracle/gasprices/gas_price_updater.go:41-50 | No epoch completed; the first block is the given start. |
| `GasPricing.NewGasPriceUpdater` | gas-oracle/gasprices/gas_price_updater.go:26-51 | Refused exactly for a gas limit or an epoch length below 1. |
| `GasPricing.GasPriceUpdater.TotalGas` | gas-oracle/gasprices/gas_price_updater.go:70-79 | The gas of all blocks of the epoch modulo 2^64, or a failure exactly when one of them cannot be fetched. |
| `GasPricing.GasPriceUpdater.UpdateGasPrice` | gas-oracle/gasprices/gas_price_updater.go:53-94 | The epoch completes exactly when there are new blocks, all can be fetched and the target is accepted; then price, history and start move together, even if publishing fails; otherwise none of them moves. |
| `GasPricing.EachBlockOnce` | gas-oracle/gasprices/gas_price_updater.go:53-94 | Every block from the first start to the current one is in exactly one completed epoch. |
| `GasPricing.TotalsAddUp` | gas-oracle/gasprices/gas_price_updater.go:70-79 | The epochs' totals add up to the gas of all their blocks, modulo 2^64. |

## Left out

- HTTP, WebSocket, TLS, Redis, JSON text, metrics and logging in proxyd: requests and replies are parsed values, transports are oracles.
- proxyd's `cached` flag, which only labels a response.
- Replies with HTTP status 400: the status is written into each reply's error, and a reply without an error there makes the proxy panic (proxyd/backend.go:529-533); the model treats the replies of such an exchange like any others.
- How the members of a consensus group are filtered by health and shuffled: the backends asked are any sequence of group members, chosen anew for each call.
- The statistics behind health, bans, peer counts and freshness of a backend: one predicate for the first scan and one for serving stand for them.
- eth_call caching, and the stored results of eth_chainId and net_version: their entries are traced to replies, and their keys are shown not to collide with block queries, but their answers are not modelled.
- Snappy compression and JSON encoding of cached values: taken to round-trip; an entry written without the compressor does not decode through it.
- A chain or a confirmation depth so large that block number plus depth leaves 64 bits: runs of the cache stay within it.
- The wall clock: timestamps, deadlines, tickers and update times are parameters.
- Counting beyond the range of Go's int in the limiter: counts are unbounded.
- Signing, gas estimation and fee computation of clearing transactions: the closure returns a transaction at the nonce or an error.
- Liveness under a fair scheduler: it is proved that Send can always return once its context is done, whatever it is answered, not that a scheduler lets it.
- BatchServer.Server.HandleBatch: batches are handled one at a time; whether a limiter holds a call back is a field of the call, and requests posted are told apart by id, method and parameters only; concurrent requests share only the cache, whose entries are traced to replies in the same way. That a reply is the one with the id of its request is promised for exchanges whose reply has the requested ids; `ReplyOrder.IdsLineUpIff` says that nothing less gives it.
- BatchServer.Server.PutRpc: when an entry is stored, and what tells the parameters of a method apart, are oracles here; `rpc_cache.dfy` models both for block queries.
- ReplyOrder.SortReplies: the library sort is a function whose result is written back in place; the duplicate-id panic is a precondition, shown to hold for every group.
- RpcCache.HitIsCurrentAnswer: all backends serve one chain, so a fetched response is that chain's answer at the moment of the fetch.
- Consensus.ConsensusNeverDecreases: chains only grow during the run; a reorg can lower the number.
- GasPricing.GasPricer.CalcNextEpochGasPrice: float rounding and the conversion of prices above 2^64 are not modelled; prices are unbounded.
- GasPricing.GasPriceUpdater.UpdateGasPrice: a block's gas does not change between fetches, and block numbers are unbounded.
- Wallets.Merge: slices are values, so the sharing of backing arrays between the old and the new slice is not captured.
- ReadVarString and WriteVarString: the same format as byte arrays without the limit.
- Partial writes by an io.Writer: a write happens whole or not at all.
- Key derivation, cryptography, contract bindings, the indexer, exporters and command-line tools.
- RpcCache.NeverOvertakenIff: block numbers are far enough from 2^64 for the chain to grow past the confirmation depth.
