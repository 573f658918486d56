/**
 The proxy's cache for block queries. Responses are stored only for blocks that a possibly stale head puts
 beyond the confirmation depth, in a store that may drop any entry at any time and that also holds the polled
 head itself and the cached eth_call responses.
 */
module RpcCache {
  import opened Common
  import opened Numerals

  /** A JSON parameter. */
  datatype Param = Text(s: string) | Flag(b: bool) | Other

  datatype Query =
    | ByNumber(block: string, includeTx: bool)
    | ByRange(start: string, end: string, includeTx: bool)

  predicate ValidBlockInput(s: string) {
    s == "earliest" || s == "pending" || s == "latest" || DecodeQuantity(s).Some?
  }

  predicate IsBlockDependent(s: string) {
    s == "latest" || s == "pending"
  }

  /** The parameters of eth_getBlockByNumber. */
  function DecodeByNumber(params: seq<Param>): Option<Query> {
    if |params| != 2 || !params[0].Text? || !params[1].Flag? || !ValidBlockInput(params[0].s) then None
    else Some(ByNumber(params[0].s, params[1].b))
  }

  /** The parameters of eth_getBlockRange. */
  function DecodeByRange(params: seq<Param>): Option<Query> {
    if |params| != 3 || !params[0].Text? || !params[1].Text? || !params[2].Flag? then None
    else if !ValidBlockInput(params[0].s) || !ValidBlockInput(params[1].s) then None
    else Some(ByRange(params[0].s, params[1].s, params[2].b))
  }

  predicate ValidQuery(q: Query) {
    match q
    case ByNumber(block, _) => ValidBlockInput(block)
    case ByRange(start, end, _) => ValidBlockInput(start) && ValidBlockInput(end)
  }

  predicate Cacheable(q: Query) {
    match q
    case ByNumber(block, _) => !IsBlockDependent(block)
    case ByRange(start, end, _) => !IsBlockDependent(start) && !IsBlockDependent(end)
  }

  const BY_NUMBER := "method:eth_getBlockByNumber:"
  const BY_RANGE := "method:eth_getBlockRange:"
  const BY_CALL := "method:eth_call:"
  const HEAD_KEY := "lvc:block_number"
  const GAS_PRICE_KEY := "lvc:gas_price"

  function BoolText(b: bool): string {
    if b then "true" else "false"
  }

  function Key(q: Query): string {
    match q
    case ByNumber(block, includeTx) => BY_NUMBER + block + ":" + BoolText(includeTx)
    case ByRange(start, end, includeTx) => BY_RANGE + start + ":" + end + ":" + BoolText(includeTx)
  }

  /* ---- The chain ---- */

  /** The canonical blocks, genesis first. */
  type Chain = c: seq<string> | |c| > 0 witness [""]

  datatype Json = OneBlock(block: string, includeTx: bool) | ManyBlocks(blocks: seq<string>, includeTx: bool)

  function HeightOf(chain: Chain, input: string): nat
    requires ValidBlockInput(input)
  {
    if input == "earliest" then 0 else if IsBlockDependent(input) then |chain| - 1 else DecodeQuantity(input).value
  }

  /** What a node with this chain answers; None stands for a null result or an error. */
  function Answer(chain: Chain, q: Query): Option<Json>
    requires ValidQuery(q)
  {
    match q
    case ByNumber(block, includeTx) =>
      var h := HeightOf(chain, block);
      if h < |chain| then Some(OneBlock(chain[h], includeTx)) else None
    case ByRange(start, end, includeTx) =>
      var s, e := HeightOf(chain, start), HeightOf(chain, end);
      if s <= e <= s + 1000 && e < |chain| then Some(ManyBlocks(chain[s..e + 1], includeTx)) else None
  }

  /* ---- The store and the handlers ---- */

  /** An entry written as it is (the polled values) or through the compressor (the responses). */
  datatype Entry = Plain(text: string) | Packed(json: Json)

  type Store = map<string, Entry>

  /** The head last written by the poller, if it is still there. */
  function ReadHead(store: Store): Option<uint64> {
    if HEAD_KEY in store && store[HEAD_KEY].Plain? then ParseUint64(store[HEAD_KEY].text, 10) else None
  }

  /** An input passes the depth test: genesis always does, a number when the head is far enough above it. */
  predicate DeepEnough(head: Option<uint64>, confirmations: uint64, input: string) {
    input == "earliest"
    || (head.Some? && DecodeQuantity(input).Some?
        && head.value > (DecodeQuantity(input).value + confirmations) % TWO64)
  }

  predicate MayStore(store: Store, confirmations: uint64, q: Query) {
    && Cacheable(q)
    && match q
       case ByNumber(block, _) => DeepEnough(ReadHead(store), confirmations, block)
       case ByRange(start, end, _) =>
         && ReadHead(store).Some?
         && DeepEnough(ReadHead(store), confirmations, start)
         && DeepEnough(ReadHead(store), confirmations, end)
  }

  function Stored(store: Store, confirmations: uint64, q: Query, json: Json): Store {
    if MayStore(store, confirmations, q) then store[Key(q) := Packed(json)] else store
  }

  function Lookup(store: Store, q: Query): Option<Json> {
    if Cacheable(q) && Key(q) in store && store[Key(q)].Packed? then Some(store[Key(q)].json) else None
  }

  /** What the handlers find and keep for the parameters of a request. */
  function NumberHit(store: Store, params: seq<Param>): Option<Json> {
    match DecodeByNumber(params) case None => None case Some(q) => Lookup(store, q)
  }

  function NumberPut(store: Store, confirmations: uint64, params: seq<Param>, json: Json): Store {
    match DecodeByNumber(params) case None => store case Some(q) => Stored(store, confirmations, q, json)
  }

  function RangeHit(store: Store, params: seq<Param>): Option<Json> {
    match DecodeByRange(params) case None => None case Some(q) => Lookup(store, q)
  }

  function RangePut(store: Store, confirmations: uint64, params: seq<Param>, json: Json): Store {
    match DecodeByRange(params) case None => store case Some(q) => Stored(store, confirmations, q, json)
  }

  class BlockCache {
    var store: Store
    const confirmations: uint64

    constructor (confirmations: uint64)
      ensures this.confirmations == confirmations && store == map[]
    {
      this.confirmations, store := confirmations, map[];
    }

    /** A number is too recent to store, or the head needed to tell is not available. */
    method TooRecent(input: string) returns (recent: bool)
      ensures recent <==> !DeepEnough(ReadHead(store), confirmations, input)
    {
      if input == "earliest" {
        return false;
      }
      var head := ReadHead(store);
      if head.None? {
        return true;
      }
      var number := DecodeQuantity(input);
      if number.None? {
        return true;
      }
      return head.value <= (number.value + confirmations) % TWO64;
    }

    method GetBlockByNumber(params: seq<Param>) returns (hit: Option<Json>)
      ensures hit == NumberHit(store, params)
    {
      var q := DecodeByNumber(params);
      if q.None? || IsBlockDependent(q.value.block) {
        return None;
      }
      var key := BY_NUMBER + q.value.block + ":" + BoolText(q.value.includeTx);
      if key !in store || store[key].Plain? {
        return None;
      }
      return Some(store[key].json);
    }

    method PutBlockByNumber(params: seq<Param>, json: Json)
      modifies this
      ensures store == NumberPut(old(store), confirmations, params, json)
    {
      var q := DecodeByNumber(params);
      if q.None? || IsBlockDependent(q.value.block) {
        return;
      }
      var recent := TooRecent(q.value.block);
      if recent {
        return;
      }
      store := store[BY_NUMBER + q.value.block + ":" + BoolText(q.value.includeTx) := Packed(json)];
    }

    method GetBlockRange(params: seq<Param>) returns (hit: Option<Json>)
      ensures hit == RangeHit(store, params)
    {
      var q := DecodeByRange(params);
      if q.None? || IsBlockDependent(q.value.start) || IsBlockDependent(q.value.end) {
        return None;
      }
      var key := BY_RANGE + q.value.start + ":" + q.value.end + ":" + BoolText(q.value.includeTx);
      if key !in store || store[key].Plain? {
        return None;
      }
      return Some(store[key].json);
    }

    method PutBlockRange(params: seq<Param>, json: Json)
      modifies this
      ensures store == RangePut(old(store), confirmations, params, json)
    {
      var q := DecodeByRange(params);
      if q.None? || IsBlockDependent(q.value.start) || IsBlockDependent(q.value.end) {
        return;
      }
      if ReadHead(store).None? {
        return;
      }
      var startRecent := TooRecent(q.value.start);
      var endRecent := TooRecent(q.value.end);
      if startRecent || endRecent {
        return;
      }
      store := store[BY_RANGE + q.value.start + ":" + q.value.end + ":" + BoolText(q.value.includeTx) := Packed(json)];
    }
  }

  /* ---- Keys ---- */

  lemma FirstColon(a: string, b: string, x: string, y: string)
    requires ':' !in a && ':' !in b && a + ":" + x == b + ":" + y
    ensures a == b && x == y
  {
    var s, t := a + ":" + x, b + ":" + y;
    assert forall i | 0 <= i < |a| :: s[i] == a[i];
    assert forall i | 0 <= i < |b| :: t[i] == b[i];
    assert s[|a|] == ':' && t[|b|] == ':';
    assert a == s[..|a|] && b == t[..|b|];
    assert s[..|a|] == a && t[..|b|] == b;
    assert s[|a| + 1..] == x && t[|b| + 1..] == y;
  }

  lemma InputHasNoColon(s: string)
    requires ValidBlockInput(s)
    ensures ':' !in s
  {
    if DecodeQuantity(s).Some? {
      QuantityHasNoColon(s);
    }
  }

  lemma BoolTextInjective(a: bool, b: bool)
    requires BoolText(a) == BoolText(b)
    ensures a == b
  {
    assert BoolText(a)[0] == if a then 't' else 'f';
    assert BoolText(b)[0] == if b then 't' else 'f';
  }

  /** The four kinds of key cannot be confused. */
  lemma KeyKinds(q: Query)
    ensures Key(q) != HEAD_KEY && Key(q) != GAS_PRICE_KEY
    ensures |Key(q)| > 19 && Key(q)[19] == if q.ByNumber? then 'B' else 'R'
    ensures forall rest: string :: Key(q) != BY_CALL + rest
  {
    var k := Key(q);
    if q.ByNumber? {
      assert k[..|BY_NUMBER|] == BY_NUMBER;
    } else {
      assert k[..|BY_RANGE|] == BY_RANGE;
    }
    assert k[0] == 'm' && k[11] == 'g';
    forall rest: string ensures k != BY_CALL + rest {
      assert (BY_CALL + rest)[..|BY_CALL|] == BY_CALL;
      assert (BY_CALL + rest)[11] == 'c';
    }
  }

  lemma AfterPrefix(prefix: string, a: string, x: string)
    ensures (prefix + a + ":" + x)[|prefix|..] == a + ":" + x
  {
  }

  lemma NumberKeyInjective(p: Query, q: Query)
    requires p.ByNumber? && q.ByNumber? && ValidQuery(p) && ValidQuery(q) && Key(p) == Key(q)
    ensures p == q
  {
    InputHasNoColon(p.block);
    InputHasNoColon(q.block);
    AfterPrefix(BY_NUMBER, p.block, BoolText(p.includeTx));
    AfterPrefix(BY_NUMBER, q.block, BoolText(q.includeTx));
    FirstColon(p.block, q.block, BoolText(p.includeTx), BoolText(q.includeTx));
    BoolTextInjective(p.includeTx, q.includeTx);
  }

  /** A range key after its prefix: the start, a colon, and the rest. */
  lemma RangeKeyTail(q: Query)
    requires q.ByRange?
    ensures Key(q)[|BY_RANGE|..] == q.start + ":" + (q.end + ":" + BoolText(q.includeTx))
  {
    var prefix, a, b, c := BY_RANGE, q.start, q.end, BoolText(q.includeTx);
    assert prefix + a + ":" + b + ":" + c == prefix + (a + ":" + (b + ":" + c));
  }

  lemma RangeKeyInjective(p: Query, q: Query)
    requires p.ByRange? && q.ByRange? && ValidQuery(p) && ValidQuery(q) && Key(p) == Key(q)
    ensures p == q
  {
    InputHasNoColon(p.start);
    InputHasNoColon(q.start);
    InputHasNoColon(p.end);
    InputHasNoColon(q.end);
    RangeKeyTail(p);
    RangeKeyTail(q);
    FirstColon(p.start, q.start, p.end + ":" + BoolText(p.includeTx), q.end + ":" + BoolText(q.includeTx));
    FirstColon(p.end, q.end, BoolText(p.includeTx), BoolText(q.includeTx));
    BoolTextInjective(p.includeTx, q.includeTx);
  }

  /** Different valid queries are stored under different keys. */
  lemma KeyInjective(p: Query, q: Query)
    requires ValidQuery(p) && ValidQuery(q) && Key(p) == Key(q)
    ensures p == q
  {
    KeyKinds(p);
    KeyKinds(q);
    if p.ByNumber? {
      NumberKeyInjective(p, q);
    } else {
      RangeKeyInjective(p, q);
    }
  }

  /* ---- Runs ---- */

  /**
   The chain, the highest head it ever had, every head it ever had, and the store.
   */
  datatype State = State(chain: Chain, highest: nat, heads: set<nat>, store: Store)

  datatype Action =
    | Advance(block: string)                       // a block is added
    | Reorg(keep: nat, blocks: seq<string>)        // the blocks from height `keep` on are replaced
    | Evict(key: string)
    | Poll(head: nat)                              // the poller writes a head it read at any earlier time
    | PollGasPrice(text: string)
    | Put(q: Query, json: Json, at: nat)           // a response fetched in state number `at` is handed to the cache
    | PutCall(rest: string, json: Json)            // an eth_call response is stored

  predicate InRange(chain: Chain, confirmations: uint64) {
    |chain| + confirmations < TWO64
  }

  function WithChain(s: State, chain: Chain): State {
    var head := |chain| - 1;
    s.(chain := chain, highest := if head > s.highest then head else s.highest, heads := s.heads + {head})
  }

  predicate Enabled(confirmations: uint64, s: State, a: Action) {
    match a
    case Advance(block) => InRange(s.chain + [block], confirmations)
    case Reorg(keep, blocks) =>
      // A reorg replaces no genesis and reaches no deeper than the confirmation depth below the highest head.
      && 0 < keep <= |s.chain| && keep + confirmations >= s.highest
      && InRange(s.chain[..keep] + blocks, confirmations)
    case Poll(head) => head in s.heads
    case Put(q, _, _) => ValidQuery(q)
    case _ => true
  }

  function Apply(confirmations: uint64, s: State, a: Action): State
    requires Enabled(confirmations, s, a)
  {
    match a
    case Advance(block) => WithChain(s, s.chain + [block])
    case Reorg(keep, blocks) => WithChain(s, s.chain[..keep] + blocks)
    case Evict(key) => s.(store := s.store - {key})
    case Poll(head) => s.(store := s.store[HEAD_KEY := Plain(Decimal(head))])
    case PollGasPrice(text) => s.(store := s.store[GAS_PRICE_KEY := Plain(text)])
    case Put(q, json, _) => s.(store := Stored(s.store, confirmations, q, json))
    case PutCall(rest, json) => s.(store := s.store[BY_CALL + rest := Packed(json)])
  }

  predicate InitialState(confirmations: uint64, s: State) {
    && InRange(s.chain, confirmations) && s.store == map[]
    && s.highest == |s.chain| - 1 && s.heads == {|s.chain| - 1}
  }

  /** State `k` is followed by the next one through `a`; what is put was the chain's answer when it was fetched. */
  ghost predicate Follows(confirmations: uint64, t: seq<State>, k: nat, a: Action)
    requires k + 1 < |t|
  {
    && Enabled(confirmations, t[k], a) && t[k + 1] == Apply(confirmations, t[k], a)
    && (a.Put? ==> a.at <= k && Answer(t[a.at].chain, a.q) == Some(a.json))
  }

  /** Any number of steps may pass between the fetch of a response and its put. */
  ghost predicate IsRun(confirmations: uint64, acts: seq<Action>, t: seq<State>) {
    && |t| == |acts| + 1 && InitialState(confirmations, t[0])
    && forall k: nat | k < |acts| :: Follows(confirmations, t, k, acts[k])
  }

  lemma RunPrefix(confirmations: uint64, acts: seq<Action>, t: seq<State>, n: nat)
    requires IsRun(confirmations, acts, t) && n <= |acts|
    ensures IsRun(confirmations, acts[..n], t[..n + 1])
  {
    var front, before := acts[..n], t[..n + 1];
    forall k: nat | k < n ensures Follows(confirmations, before, k, front[k]) {
      assert Follows(confirmations, t, k, acts[k]);
    }
  }

  lemma Extend(confirmations: uint64, acts: seq<Action>, t: seq<State>, a: Action)
    returns (acts': seq<Action>, t': seq<State>)
    requires IsRun(confirmations, acts, t) && Enabled(confirmations, t[|acts|], a)
    requires a.Put? ==> a.at <= |acts| && Answer(t[a.at].chain, a.q) == Some(a.json)
    ensures acts' == acts + [a] && t' == t + [Apply(confirmations, t[|acts|], a)] && IsRun(confirmations, acts', t')
  {
    acts', t' := acts + [a], t + [Apply(confirmations, t[|acts|], a)];
    forall k: nat | k < |acts'| ensures Follows(confirmations, t', k, acts'[k]) {
      if k < |acts| {
        assert Follows(confirmations, t, k, acts[k]);
      }
    }
  }

  /** The chain is no longer than its numbers allow, and its heads and the polled head are old heads. */
  ghost predicate HeadsKnown(confirmations: uint64, s: State) {
    && InRange(s.chain, confirmations)
    && s.highest + confirmations < TWO64
    && |s.chain| - 1 <= s.highest <= |s.chain| + confirmations
    && (forall h | h in s.heads :: h <= s.highest)
    && (ReadHead(s.store).Some? ==> ReadHead(s.store).value <= s.highest)
  }

  lemma HeadsKnownStep(confirmations: uint64, s: State, a: Action)
    requires Enabled(confirmations, s, a) && HeadsKnown(confirmations, s)
    ensures HeadsKnown(confirmations, Apply(confirmations, s, a))
  {
    match a
    case Poll(head) => DecimalRoundTrip(head);
    case Put(q, json, _) => KeyKinds(q);
    case PutCall(rest, json) => assert (BY_CALL + rest)[0] == BY_CALL[0];
    case PollGasPrice(text) => assert GAS_PRICE_KEY[4] != HEAD_KEY[4];
    case _ =>
  }

  lemma {:induction false} HeadsStayKnown(confirmations: uint64, acts: seq<Action>, t: seq<State>)
    requires IsRun(confirmations, acts, t)
    ensures HeadsKnown(confirmations, t[|acts|])
  {
    if acts != [] {
      var n := |acts| - 1;
      RunPrefix(confirmations, acts, t, n);
      HeadsStayKnown(confirmations, acts[..n], t[..n + 1]);
      assert Follows(confirmations, t, n, acts[n]);
      HeadsKnownStep(confirmations, t[n], acts[n]);
    }
  }

  /* ---- Which answers last ---- */

  function FixedHeight(input: string): nat
    requires ValidBlockInput(input) && !IsBlockDependent(input)
  {
    if input == "earliest" then 0 else DecodeQuantity(input).value
  }

  /** The highest block a cacheable query asks for. */
  function Top(q: Query): nat
    requires ValidQuery(q) && Cacheable(q)
  {
    match q
    case ByNumber(block, _) => FixedHeight(block)
    case ByRange(_, end, _) => FixedHeight(end)
  }

  /** No reorg can reach the blocks asked for: they are genesis, or deeper than a reorg may go. */
  predicate Safe(confirmations: uint64, highest: nat, q: Query)
    requires ValidQuery(q) && Cacheable(q)
  {
    Top(q) == 0 || Top(q) + confirmations < highest
  }

  lemma SameSlice(chain: seq<string>, chain': seq<string>, keep: nat, s: nat, e: nat)
    requires s <= e <= keep <= |chain| && keep <= |chain'| && chain[..keep] == chain'[..keep]
    ensures chain[s..e] == chain'[s..e]
  {
    forall i | s <= i < e ensures chain[i] == chain'[i] {
      assert chain[..keep][i] == chain'[..keep][i];
    }
  }

  /** Chains that agree up to the highest block asked for give the same answer. */
  lemma SameAnswer(chain: Chain, chain': Chain, keep: nat, q: Query)
    requires ValidQuery(q) && Cacheable(q) && Top(q) < keep
    requires keep <= |chain| && keep <= |chain'| && chain[..keep] == chain'[..keep]
    ensures Answer(chain, q) == Answer(chain', q)
  {
    match q
    case ByNumber(block, _) =>
      var h := FixedHeight(block);
      assert chain[h] == chain[..keep][h] && chain'[h] == chain'[..keep][h];
    case ByRange(start, end, _) =>
      var s, e := FixedHeight(start), FixedHeight(end);
      if s <= e {
        SameSlice(chain, chain', keep, s, e + 1);
      }
  }

  lemma AnsweredIsThere(chain: Chain, q: Query)
    requires ValidQuery(q) && Cacheable(q) && Answer(chain, q).Some?
    ensures Top(q) < |chain|
  {
  }

  /** One step keeps an answer, if it is no reorg or the blocks asked for are safe. */
  lemma AnswerKeptStep(confirmations: uint64, s: State, a: Action, q: Query)
    requires Enabled(confirmations, s, a) && ValidQuery(q) && Cacheable(q) && Answer(s.chain, q).Some?
    requires !a.Reorg? || Safe(confirmations, s.highest, q)
    ensures Answer(Apply(confirmations, s, a).chain, q) == Answer(s.chain, q)
  {
    AnsweredIsThere(s.chain, q);
    match a
    case Advance(block) => SameAnswer(s.chain, s.chain + [block], |s.chain|, q);
    case Reorg(keep, blocks) => SameAnswer(s.chain, s.chain[..keep] + blocks, keep, q);
    case _ =>
  }

  lemma {:induction false} HighestGrows(confirmations: uint64, acts: seq<Action>, t: seq<State>, i: nat)
    requires IsRun(confirmations, acts, t) && i <= |acts|
    ensures t[i].highest <= t[|acts|].highest
  {
    if i < |acts| {
      var n := |acts| - 1;
      RunPrefix(confirmations, acts, t, n);
      HighestGrows(confirmations, acts[..n], t[..n + 1], i);
      assert Follows(confirmations, t, n, acts[n]);
    }
  }

  ghost predicate NoReorg(acts: seq<Action>, i: nat) {
    forall k | i <= k < |acts| :: !acts[k].Reorg?
  }

  /**
   An answer fetched in state `i` is still the chain's answer later, if the blocks asked for were safe when it
   was fetched or no reorg came since.
   */
  lemma {:induction false} AnswerLasts(confirmations: uint64, acts: seq<Action>, t: seq<State>, i: nat, q: Query)
    requires IsRun(confirmations, acts, t) && i <= |acts|
    requires ValidQuery(q) && Cacheable(q) && Answer(t[i].chain, q).Some?
    requires Safe(confirmations, t[i].highest, q) || NoReorg(acts, i)
    ensures Answer(t[|acts|].chain, q) == Answer(t[i].chain, q)
  {
    if i < |acts| {
      var n := |acts| - 1;
      RunPrefix(confirmations, acts, t, n);
      AnswerLasts(confirmations, acts[..n], t[..n + 1], i, q);
      HighestGrows(confirmations, acts[..n], t[..n + 1], i);
      assert Follows(confirmations, t, n, acts[n]);
      AnswerKeptStep(confirmations, t[n], acts[n], q);
    }
  }

  /* ---- The cache is right ---- */

  /** Every response in the store is the chain's answer, and the blocks asked for are safe. */
  ghost predicate Faithful(confirmations: uint64, s: State) {
    forall q: Query | ValidQuery(q) && Lookup(s.store, q).Some? ::
      Safe(confirmations, s.highest, q) && Answer(s.chain, q) == Lookup(s.store, q)
  }

  lemma NewChainKeepsFaithful(confirmations: uint64, s: State, a: Action)
    requires Enabled(confirmations, s, a) && (a.Advance? || a.Reorg?) && Faithful(confirmations, s)
    ensures Faithful(confirmations, Apply(confirmations, s, a))
  {
    var s' := Apply(confirmations, s, a);
    forall q: Query | ValidQuery(q) && Lookup(s'.store, q).Some?
      ensures Safe(confirmations, s'.highest, q) && Answer(s'.chain, q) == Lookup(s'.store, q)
    {
      assert Lookup(s.store, q) == Lookup(s'.store, q);
      AnswerKeptStep(confirmations, s, a, q);
    }
  }

  lemma DeepIsBelow(head: uint64, confirmations: uint64, input: string)
    requires ValidBlockInput(input) && !IsBlockDependent(input) && FixedHeight(input) + confirmations < TWO64
    ensures DeepEnough(Some(head), confirmations, input) <==> input == "earliest" || FixedHeight(input) + confirmations < head
  {
  }

  /** What the handlers let through is safe from every later reorg, although the head they consult may be old. */
  lemma StoredIsSafe(confirmations: uint64, s: State, q: Query)
    requires HeadsKnown(confirmations, s) && ValidQuery(q) && Answer(s.chain, q).Some?
    requires MayStore(s.store, confirmations, q)
    ensures Safe(confirmations, s.highest, q)
  {
    AnsweredIsThere(s.chain, q);
    var head, input := ReadHead(s.store), if q.ByNumber? then q.block else q.end;
    if input != "earliest" {
      DeepIsBelow(head.value, confirmations, input);
    }
  }

  lemma PutKeepsFaithful(confirmations: uint64, s: State, q: Query, json: Json)
    requires HeadsKnown(confirmations, s) && Faithful(confirmations, s)
    requires ValidQuery(q) && (MayStore(s.store, confirmations, q) ==> Answer(s.chain, q) == Some(json))
    ensures Faithful(confirmations, s.(store := Stored(s.store, confirmations, q, json)))
  {
    if MayStore(s.store, confirmations, q) {
      StoredIsSafe(confirmations, s, q);
      var store' := Stored(s.store, confirmations, q, json);
      forall p: Query | ValidQuery(p) && Lookup(store', p).Some?
        ensures Safe(confirmations, s.highest, p) && Answer(s.chain, p) == Lookup(store', p)
      {
        if Key(p) == Key(q) {
          KeyInjective(p, q);
        } else {
          assert Lookup(store', p) == Lookup(s.store, p);
        }
      }
    }
  }

  lemma OtherKeyKeepsFaithful(confirmations: uint64, s: State, store': Store)
    requires Faithful(confirmations, s)
    requires forall q: Query :: Lookup(store', q).Some? ==> Lookup(store', q) == Lookup(s.store, q)
    ensures Faithful(confirmations, s.(store := store'))
  {
    forall q: Query | ValidQuery(q) && Lookup(store', q).Some?
      ensures Safe(confirmations, s.highest, q) && Answer(s.chain, q) == Lookup(store', q)
    {
      assert Lookup(store', q) == Lookup(s.store, q);
    }
  }

  lemma FaithfulStep(confirmations: uint64, s: State, a: Action)
    requires Enabled(confirmations, s, a) && HeadsKnown(confirmations, s) && Faithful(confirmations, s)
    requires a.Put? && MayStore(s.store, confirmations, a.q) ==> Answer(s.chain, a.q) == Some(a.json)
    ensures Faithful(confirmations, Apply(confirmations, s, a))
  {
    if a.Advance? || a.Reorg? {
      NewChainKeepsFaithful(confirmations, s, a);
    } else if a.Put? {
      PutKeepsFaithful(confirmations, s, a.q, a.json);
    } else {
      var s' := Apply(confirmations, s, a);
      forall q: Query ensures Lookup(s'.store, q).Some? ==> Lookup(s'.store, q) == Lookup(s.store, q) {
        KeyKinds(q);
      }
      OtherKeyKeepsFaithful(confirmations, s, s'.store);
    }
  }

  /** A put that is not overtaken: the blocks were safe when the response was fetched, or no reorg came since. */
  ghost predicate Timely(confirmations: uint64, acts: seq<Action>, t: seq<State>, k: nat)
    requires IsRun(confirmations, acts, t) && k < |acts|
  {
    acts[k].Put? && Cacheable(acts[k].q) ==>
      Follows(confirmations, t, k, acts[k])
      && (Safe(confirmations, t[acts[k].at].highest, acts[k].q) || NoReorg(acts[..k], acts[k].at))
  }

  ghost predicate AllTimely(confirmations: uint64, acts: seq<Action>, t: seq<State>)
    requires IsRun(confirmations, acts, t)
  {
    forall k: nat | k < |acts| :: Timely(confirmations, acts, t, k)
  }

  lemma TimelyPutIsCurrent(confirmations: uint64, acts: seq<Action>, t: seq<State>, k: nat)
    requires IsRun(confirmations, acts, t) && k < |acts| && Timely(confirmations, acts, t, k)
    requires acts[k].Put? && Cacheable(acts[k].q)
    ensures Answer(t[k].chain, acts[k].q) == Some(acts[k].json)
  {
    RunPrefix(confirmations, acts, t, k);
    assert Follows(confirmations, t, k, acts[k]);
    AnswerLasts(confirmations, acts[..k], t[..k + 1], acts[k].at, acts[k].q);
  }

  lemma {:induction false} RunInvariant(confirmations: uint64, acts: seq<Action>, t: seq<State>)
    requires IsRun(confirmations, acts, t) && AllTimely(confirmations, acts, t)
    ensures Faithful(confirmations, t[|acts|])
  {
    if acts != [] {
      var n := |acts| - 1;
      RunPrefix(confirmations, acts, t, n);
      TimelyBefore(confirmations, acts, t);
      RunInvariant(confirmations, acts[..n], t[..n + 1]);
      HeadsStayKnown(confirmations, acts[..n], t[..n + 1]);
      assert Follows(confirmations, t, n, acts[n]) && Timely(confirmations, acts, t, n);
      if acts[n].Put? && Cacheable(acts[n].q) {
        TimelyPutIsCurrent(confirmations, acts, t, n);
      }
      FaithfulStep(confirmations, t[n], acts[n]);
    }
  }

  lemma TimelyBefore(confirmations: uint64, acts: seq<Action>, t: seq<State>)
    requires IsRun(confirmations, acts, t) && AllTimely(confirmations, acts, t) && acts != []
    ensures IsRun(confirmations, acts[..|acts| - 1], t[..|acts|])
    ensures AllTimely(confirmations, acts[..|acts| - 1], t[..|acts|])
  {
    var n := |acts| - 1;
    RunPrefix(confirmations, acts, t, n);
    var front, before := acts[..n], t[..n + 1];
    forall k: nat | k < n ensures Timely(confirmations, front, before, k) {
      assert Timely(confirmations, acts, t, k) && front[..k] == acts[..k];
      assert Follows(confirmations, t, k, acts[k]) && Follows(confirmations, before, k, front[k]);
    }
  }

  /**
   In every run in which no put was overtaken by a reorg, however late puts come and however old the polled
   head is, a cache hit is what the chain answers at that moment.
   */
  lemma HitIsCurrentAnswer(confirmations: uint64, acts: seq<Action>, t: seq<State>, q: Query)
    requires IsRun(confirmations, acts, t) && AllTimely(confirmations, acts, t) && ValidQuery(q)
    ensures var hit := Lookup(t[|acts|].store, q);
            hit.Some? ==> hit == Answer(t[|acts|].chain, q)
  {
    RunInvariant(confirmations, acts, t);
  }

  /* ---- The handlers, by the parameters of the request ---- */

  /** The parameters that ask a query. */
  function Params(q: Query): seq<Param> {
    match q
    case ByNumber(block, includeTx) => [Text(block), Flag(includeTx)]
    case ByRange(start, end, includeTx) => [Text(start), Text(end), Flag(includeTx)]
  }

  /** The handlers accept the parameters of valid queries and no others. */
  lemma DecodesIff(params: seq<Param>, q: Query)
    ensures DecodeByNumber(params) == Some(q) <==> q.ByNumber? && ValidQuery(q) && params == Params(q)
    ensures DecodeByRange(params) == Some(q) <==> q.ByRange? && ValidQuery(q) && params == Params(q)
  {
    if q.ByNumber? && DecodeByNumber(params) == Some(q) {
      assert params == [params[0], params[1]];
    }
    if q.ByRange? && DecodeByRange(params) == Some(q) {
      assert params == [params[0], params[1], params[2]];
    }
  }

  /** The input names this height, wherever the head is: `earliest` is genesis, a quantity its own number. */
  predicate Names(input: string, height: nat) {
    (input == "earliest" && height == 0) || DecodeQuantity(input) == Some(height)
  }

  lemma NamesOne(input: string, h: nat, k: nat)
    requires Names(input, h) && Names(input, k)
    ensures h == k
  {
    assert !Has0xPrefix("earliest") by {
      assert "earliest"[0] == 'e';
    }
  }

  /** A range of one block is that block, and the moving heads are the last block. */
  lemma OneBlockRange(chain: Chain, input: string, includeTx: bool)
    requires ValidBlockInput(input)
    ensures Answer(chain, ByRange(input, input, includeTx)) ==
            match Answer(chain, ByNumber(input, includeTx))
            case None => None
            case Some(one) => Some(ManyBlocks([one.block], includeTx))
    ensures IsBlockDependent(input) ==>
              Answer(chain, ByNumber(input, includeTx)) == Some(OneBlock(chain[|chain| - 1], includeTx))
  {
    var h := HeightOf(chain, input);
    if h < |chain| {
      assert chain[h..h + 1] == [chain[h]];
    }
  }

  lemma HeightIsNamed(chain: Chain, input: string)
    requires ValidBlockInput(input) && !IsBlockDependent(input)
    ensures Names(input, HeightOf(chain, input))
  {
  }

  /**
   In every run in which no put was overtaken, a hit has the block that the text names at that moment, with or
   without transactions as the flag asks; parameters of any other shape, and the moving heads, never hit.
   */
  lemma NumberHitIsBlock(confirmations: uint64, acts: seq<Action>, t: seq<State>, params: seq<Param>)
    returns (height: nat)
    requires IsRun(confirmations, acts, t) && AllTimely(confirmations, acts, t)
    requires NumberHit(t[|acts|].store, params).Some?
    ensures |params| == 2 && params[0].Text? && params[1].Flag? && Names(params[0].s, height)
    ensures height < |t[|acts|].chain|
    ensures NumberHit(t[|acts|].store, params) == Some(OneBlock(t[|acts|].chain[height], params[1].b))
  {
    var q := DecodeByNumber(params).value;
    DecodesIff(params, q);
    HitIsCurrentAnswer(confirmations, acts, t, q);
    HeightIsNamed(t[|acts|].chain, q.block);
    height := HeightOf(t[|acts|].chain, q.block);
  }

  /** The same of a range: the blocks from the first named to the second, in order. */
  lemma RangeHitIsBlocks(confirmations: uint64, acts: seq<Action>, t: seq<State>, params: seq<Param>)
    returns (first: nat, last: nat)
    requires IsRun(confirmations, acts, t) && AllTimely(confirmations, acts, t)
    requires RangeHit(t[|acts|].store, params).Some?
    ensures |params| == 3 && params[0].Text? && params[1].Text? && params[2].Flag?
    ensures Names(params[0].s, first) && Names(params[1].s, last) && first <= last < |t[|acts|].chain|
    ensures RangeHit(t[|acts|].store, params) == Some(ManyBlocks(t[|acts|].chain[first..last + 1], params[2].b))
  {
    var q := DecodeByRange(params).value;
    DecodesIff(params, q);
    HitIsCurrentAnswer(confirmations, acts, t, q);
    HeightIsNamed(t[|acts|].chain, q.start);
    HeightIsNamed(t[|acts|].chain, q.end);
    first, last := HeightOf(t[|acts|].chain, q.start), HeightOf(t[|acts|].chain, q.end);
  }

  /** A response to these parameters is kept. */
  predicate NumberKept(store: Store, confirmations: uint64, params: seq<Param>) {
    && |params| == 2 && params[0].Text? && params[1].Flag?
    && DeepEnough(ReadHead(store), confirmations, params[0].s)
  }

  predicate RangeKept(store: Store, confirmations: uint64, params: seq<Param>) {
    && |params| == 3 && params[0].Text? && params[1].Text? && params[2].Flag? && ReadHead(store).Some?
    && DeepEnough(ReadHead(store), confirmations, params[0].s)
    && DeepEnough(ReadHead(store), confirmations, params[1].s)
  }

  lemma DeepIsFixed(head: Option<uint64>, confirmations: uint64, input: string)
    requires DeepEnough(head, confirmations, input)
    ensures ValidBlockInput(input) && !IsBlockDependent(input)
  {
    assert !Has0xPrefix("latest") && !Has0xPrefix("pending") by {
      assert "latest"[0] == 'l' && "pending"[0] == 'p';
    }
    assert "earliest"[0] == 'e' && "latest"[0] == 'l' && "pending"[0] == 'p';
  }

  lemma NumberPutIs(store: Store, confirmations: uint64, params: seq<Param>, json: Json)
    ensures if NumberKept(store, confirmations, params) then
              var q := ByNumber(params[0].s, params[1].b);
              && ValidQuery(q) && Cacheable(q) && params == Params(q)
              && NumberPut(store, confirmations, params, json) == store[Key(q) := Packed(json)]
            else NumberPut(store, confirmations, params, json) == store
  {
    if NumberKept(store, confirmations, params) {
      var q := ByNumber(params[0].s, params[1].b);
      DeepIsFixed(ReadHead(store), confirmations, params[0].s);
      assert params == Params(q);
      DecodesIff(params, q);
    }
  }

  lemma RangePutIs(store: Store, confirmations: uint64, params: seq<Param>, json: Json)
    ensures if RangeKept(store, confirmations, params) then
              var q := ByRange(params[0].s, params[1].s, params[2].b);
              && ValidQuery(q) && Cacheable(q) && params == Params(q)
              && RangePut(store, confirmations, params, json) == store[Key(q) := Packed(json)]
            else RangePut(store, confirmations, params, json) == store
  {
    if RangeKept(store, confirmations, params) {
      var q := ByRange(params[0].s, params[1].s, params[2].b);
      DeepIsFixed(ReadHead(store), confirmations, params[0].s);
      DeepIsFixed(ReadHead(store), confirmations, params[1].s);
      assert params == Params(q);
      DecodesIff(params, q);
    }
  }

  /** An entry written for one query is found for it and for no other. */
  lemma EntryIsFound(store: Store, q: Query, json: Json, params: seq<Param>)
    requires ValidQuery(q) && Cacheable(q)
    ensures var store' := store[Key(q) := Packed(json)];
      && NumberHit(store', params) == (if q.ByNumber? && params == Params(q) then Some(json) else NumberHit(store, params))
      && RangeHit(store', params) == (if q.ByRange? && params == Params(q) then Some(json) else RangeHit(store, params))
      && ReadHead(store') == ReadHead(store)
  {
    KeyKinds(q);
    DecodesIff(params, q);
    FoundElsewhere(store, q, json, DecodeByNumber(params));
    FoundElsewhere(store, q, json, DecodeByRange(params));
    if DecodeByNumber(params).Some? {
      DecodesIff(params, DecodeByNumber(params).value);
    }
    if DecodeByRange(params).Some? {
      DecodesIff(params, DecodeByRange(params).value);
    }
  }

  lemma FoundElsewhere(store: Store, q: Query, json: Json, p: Option<Query>)
    requires ValidQuery(q) && Cacheable(q) && (p.Some? ==> ValidQuery(p.value))
    ensures p.Some? ==> Lookup(store[Key(q) := Packed(json)], p.value) ==
                        if p.value == q then Some(json) else Lookup(store, p.value)
  {
    if p.Some? && Key(p.value) == Key(q) {
      KeyInjective(p.value, q);
    }
  }

  /** A put changes what is found for its own parameters, if it is kept, and for no others. */
  lemma NumberPutGet(store: Store, confirmations: uint64, put: seq<Param>, get: seq<Param>, json: Json)
    ensures var store' := NumberPut(store, confirmations, put, json);
      && NumberHit(store', get) ==
         (if put == get && NumberKept(store, confirmations, put) then Some(json) else NumberHit(store, get))
      && RangeHit(store', get) == RangeHit(store, get) && ReadHead(store') == ReadHead(store)
  {
    NumberPutIs(store, confirmations, put, json);
    if NumberKept(store, confirmations, put) {
      EntryIsFound(store, ByNumber(put[0].s, put[1].b), json, get);
    }
  }

  lemma RangePutGet(store: Store, confirmations: uint64, put: seq<Param>, get: seq<Param>, json: Json)
    ensures var store' := RangePut(store, confirmations, put, json);
      && RangeHit(store', get) ==
         (if put == get && RangeKept(store, confirmations, put) then Some(json) else RangeHit(store, get))
      && NumberHit(store', get) == NumberHit(store, get) && ReadHead(store') == ReadHead(store)
  {
    RangePutIs(store, confirmations, put, json);
    if RangeKept(store, confirmations, put) {
      EntryIsFound(store, ByRange(put[0].s, put[1].s, put[2].b), json, get);
    }
  }

  /** The input names genesis, or a block deeper than a reorg may reach. */
  predicate Settled(confirmations: uint64, highest: nat, input: string) {
    input == "earliest" || (DecodeQuantity(input).Some? && DecodeQuantity(input).value + confirmations < highest)
  }

  /** A response handed in for settled blocks, when the polled head is the highest, is served until evicted. */
  lemma StoredIsServed(confirmations: uint64, s: State, q: Query, json: Json)
    requires HeadsKnown(confirmations, s) && ValidQuery(q) && Cacheable(q) && ReadHead(s.store) == Some(s.highest)
    requires q.ByNumber? ==> Settled(confirmations, s.highest, q.block)
    requires q.ByRange? ==> Settled(confirmations, s.highest, q.start) && Settled(confirmations, s.highest, q.end)
    ensures Lookup(Stored(s.store, confirmations, q, json), q) == Some(json)
  {
    assert forall input: string | Settled(confirmations, s.highest, input) ::
        DeepEnough(ReadHead(s.store), confirmations, input);
  }

  /** A query that is answered passes the depth test when its highest block is far enough below the polled head. */
  lemma MayStoreBelow(store: Store, confirmations: uint64, chain: Chain, q: Query)
    requires ValidQuery(q) && Cacheable(q) && Answer(chain, q).Some? && ReadHead(store).Some?
    requires Top(q) + confirmations < ReadHead(store).value
    ensures MayStore(store, confirmations, q)
  {
    var head := ReadHead(store).value;
    match q
    case ByNumber(block, _) => DeepIsBelow(head, confirmations, block);
    case ByRange(start, end, _) =>
      DeepIsBelow(head, confirmations, start);
      DeepIsBelow(head, confirmations, end);
  }

  /** Any entry may vanish at any time: every run goes on to one in which the query misses. */
  lemma EntryMayVanish(confirmations: uint64, acts: seq<Action>, t: seq<State>, q: Query)
    returns (acts': seq<Action>, t': seq<State>)
    requires IsRun(confirmations, acts, t)
    ensures IsRun(confirmations, acts', t') && Continues(acts, t, acts', t') && t'[|acts'|].chain == t[|acts|].chain
    ensures Lookup(t'[|acts'|].store, q) == None
  {
    acts', t' := Extend(confirmations, acts, t, Evict(Key(q)));
  }

  /* ---- Overtaken responses ---- */

  /** A chain that differs from `chain` at height `h`, and is `length` blocks long. */
  function Replaced(chain: Chain, h: nat, length: nat): Chain
    requires 0 < h < |chain| && h < length
  {
    chain[..h] + Replacement(chain, h, length)
  }

  function Replacement(chain: Chain, h: nat, length: nat): (blocks: seq<string>)
    requires 0 < h < |chain| && h < length
    ensures |blocks| == length - h && blocks[0] != chain[h]
  {
    assert |chain[h] + "x"| != |chain[h]|;
    seq(length - h, i => chain[h] + "x")
  }

  lemma ReplacedAnswersOtherwise(chain: Chain, q: Query, length: nat)
    requires ValidQuery(q) && Cacheable(q) && Answer(chain, q).Some? && 0 < Top(q) < |chain| && Top(q) < length
    ensures Answer(Replaced(chain, Top(q), length), q) != Answer(chain, q)
    ensures Answer(Replaced(chain, Top(q), length), q).Some?
  {
    var h := Top(q);
    var chain' := Replaced(chain, h, length);
    assert chain'[h] != chain[h];
    if q.ByRange? {
      var s := FixedHeight(q.start);
      assert chain[s..h + 1][h - s] == chain[h] && chain'[s..h + 1][h - s] == chain'[h];
    }
  }

  /**
   If the blocks asked for are not safe when the answer is fetched, there is a run that goes on from there with a
   reorg and a poll, after which the handlers would still store the answer although it is no longer the chain's.
   */
  lemma UnsafeCanBeOvertaken(confirmations: uint64, acts: seq<Action>, t: seq<State>, q: Query)
    returns (acts': seq<Action>, t': seq<State>)
    requires IsRun(confirmations, acts, t) && ValidQuery(q) && Cacheable(q) && Answer(t[|acts|].chain, q).Some?
    requires !Safe(confirmations, t[|acts|].highest, q) && Top(q) + 2 * confirmations + 2 < TWO64
    ensures IsRun(confirmations, acts', t') && Continues(acts, t, acts', t') && |acts'| == |acts| + 2
    ensures MayStore(t'[|acts'|].store, confirmations, q)
    ensures Answer(t'[|acts'|].chain, q) != Answer(t[|acts|].chain, q)
  {
    var s := t[|acts|];
    AnsweredIsThere(s.chain, q);
    var h, length := Top(q), Top(q) + confirmations + 2;
    ReplacedAnswersOtherwise(s.chain, q, length);
    var reorg := Reorg(h, Replacement(s.chain, h, length));
    ReorgMoves(confirmations, s, h, length);
    acts', t' := Extend(confirmations, acts, t, reorg);
    var store := t'[|acts'|].store;
    PolledIsRead(store, length - 1);
    acts', t' := Extend(confirmations, acts', t', Poll(length - 1));
    MayStoreBelow(t'[|acts'|].store, confirmations, t'[|acts'|].chain, q);
  }

  lemma ReorgMoves(confirmations: uint64, s: State, h: nat, length: nat)
    requires 0 < h < |s.chain| && h < length && h + confirmations >= s.highest && length + confirmations < TWO64
    ensures var a := Reorg(h, Replacement(s.chain, h, length));
      && Enabled(confirmations, s, a)
      && Apply(confirmations, s, a).chain == Replaced(s.chain, h, length)
      && length - 1 in Apply(confirmations, s, a).heads
  {
  }

  lemma PolledIsRead(store: Store, head: uint64)
    ensures ReadHead(store[HEAD_KEY := Plain(Decimal(head))]) == Some(head)
  {
    DecimalRoundTrip(head);
  }

  ghost predicate Continues(acts: seq<Action>, t: seq<State>, acts': seq<Action>, t': seq<State>) {
    acts <= acts' && t <= t'
  }

  /** The same run, one step further: the put is made and the cache serves the wrong answer. */
  lemma UnsafePutServesWrong(confirmations: uint64, acts: seq<Action>, t: seq<State>, q: Query)
    returns (acts': seq<Action>, t': seq<State>)
    requires IsRun(confirmations, acts, t) && ValidQuery(q) && Cacheable(q) && Answer(t[|acts|].chain, q).Some?
    requires !Safe(confirmations, t[|acts|].highest, q) && Top(q) + 2 * confirmations + 2 < TWO64
    ensures IsRun(confirmations, acts', t') && Continues(acts, t, acts', t')
    ensures Lookup(t'[|acts'|].store, q) == Answer(t[|acts|].chain, q) != Answer(t'[|acts'|].chain, q)
  {
    acts', t' := UnsafeCanBeOvertaken(confirmations, acts, t, q);
    assert t'[|acts|] == t[|acts|];
    acts', t' := Extend(confirmations, acts', t', Put(q, Answer(t[|acts|].chain, q).value, |acts|));
  }

  /** Wherever the run goes from here, what the handlers would store for `q` is still the answer fetched here. */
  ghost predicate NeverOvertaken(confirmations: uint64, acts: seq<Action>, t: seq<State>, q: Query)
    requires IsRun(confirmations, acts, t) && ValidQuery(q)
  {
    forall acts': seq<Action>, t': seq<State> |
      Continues(acts, t, acts', t') && IsRun(confirmations, acts', t') && MayStore(t'[|acts'|].store, confirmations, q) ::
      Answer(t'[|acts'|].chain, q) == Answer(t[|acts|].chain, q)
  }

  /**
   A fetched answer may be put at any later time if and only if the blocks asked for are genesis or deeper than a
   reorg may reach when it is fetched.
   */
  lemma NeverOvertakenIff(confirmations: uint64, acts: seq<Action>, t: seq<State>, q: Query)
    requires IsRun(confirmations, acts, t) && ValidQuery(q) && Cacheable(q) && Answer(t[|acts|].chain, q).Some?
    requires Top(q) + 2 * confirmations + 2 < TWO64
    ensures NeverOvertaken(confirmations, acts, t, q) <==> Safe(confirmations, t[|acts|].highest, q)
  {
    if Safe(confirmations, t[|acts|].highest, q) {
      forall acts': seq<Action>, t': seq<State> |
        Continues(acts, t, acts', t') && IsRun(confirmations, acts', t') && MayStore(t'[|acts'|].store, confirmations, q)
        ensures Answer(t'[|acts'|].chain, q) == Answer(t[|acts|].chain, q)
      {
        assert t'[|acts|] == t[|acts|];
        AnswerLasts(confirmations, acts', t', |acts|, q);
      }
    } else {
      var acts', t' := UnsafeCanBeOvertaken(confirmations, acts, t, q);
      assert Continues(acts, t, acts', t') && IsRun(confirmations, acts', t');
    }
  }

  /**
   A response overtaken by a reorg and put late stays: on a chain of two blocks with depth 1, block 1 is fetched,
   replaced, buried and polled past, and then stored; the cache serves the block that is gone.
   */
  lemma LateResponseStays() returns (acts: seq<Action>, t: seq<State>)
    ensures IsRun(1, acts, t) && ValidQuery(ByNumber("0x1", true))
    ensures Lookup(t[|acts|].store, ByNumber("0x1", true)) == Some(OneBlock("a", true))
    ensures Answer(t[|acts|].chain, ByNumber("0x1", true)) != Some(OneBlock("a", true))
  {
    var q := ByNumber("0x1", true);
    assert "0x1"[2..] == "1" && "1"[..0] == "" && ValueOf("1", 16) == ValueOf("", 16) * 16 + 1;
    assert DecodeQuantity("0x1") == Some(1);
    var t0: seq<State> := [State(["g", "a"], 1, {1}, map[])];
    assert IsRun(1, [], t0);
    acts, t := UnsafePutServesWrong(1, [], t0, q);
  }
}
