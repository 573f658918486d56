/** JSON-RPC values as the proxy handles them, and the per-request decisions it takes on its own. */
module Rpc {
  import opened Common

  /** A parsed request. The id is the raw text the client sent. */
  datatype Req = Req(id: string, name: string, params: string)

  datatype RpcErr =
    | ParseError
    | InvalidRequest(reason: string)
    | MethodNotWhitelisted
    | OverRateLimit
    | SenderRejected(reason: string)
    | NoBackends
    | NodeError(code: int, message: string)

  /** A result (absent when null) or an error. */
  datatype Body = Result(json: Option<string>) | Error(err: RpcErr)

  /** The id is absent when the request's id could not be read or was not valid. */
  datatype Res = Res(id: Option<string>, body: Body)

  /** One element of a client batch, with what the limiters say about it when they are asked. */
  datatype Call = Call(parsed: Option<Req>, version: string, limited: bool, senderErr: Option<string>)

  datatype Config = Config(
    methods: map<string, string>,           // whitelisted method -> backend group
    groups: map<string, seq<nat>>,          // backend group -> its backends, in order
    consensusAware: set<string>,            // groups with a consensus poller
    overrides: set<string>,                 // methods with a limiter of their own
    senderLimit: bool,
    maxUpstream: nat,
    maxRetries: nat,
    keyText: (string, string) -> string     // what the cache tells the parameters of a method apart by
  )

  predicate ValidConfig(cfg: Config) {
    && cfg.maxUpstream > 0
    && forall m | m in cfg.methods :: cfg.methods[m] == "" || cfg.methods[m] in cfg.groups
  }

  predicate IsValidId(id: string) {
    if |id| > 0 && id[0] == '\"' && id[|id| - 1] == '\"' then |id| > 2
    else |id| > 0 && id[0] != '{' && id[0] != '['
  }

  datatype Route = Local(res: Res) | Forward(group: string)

  function GroupOf(cfg: Config, m: string): string {
    if m in cfg.methods then cfg.methods[m] else ""
  }

  /** Either the proxy answers the request itself, or it belongs to a backend group. */
  function Classify(cfg: Config, c: Call): Route {
    if c.parsed.None? then Local(Res(None, Error(ParseError)))
    else
      var req := c.parsed.value;
      if c.version != "2.0" then Local(Res(None, Error(InvalidRequest("invalid JSON-RPC version"))))
      else if req.name == "" then Local(Res(None, Error(InvalidRequest("no method specified"))))
      else if !IsValidId(req.id) then Local(Res(None, Error(InvalidRequest("invalid ID"))))
      else if req.name == "eth_accounts" then Local(Res(Some(req.id), Result(Some("[]"))))
      else if GroupOf(cfg, req.name) == "" then Local(Res(Some(req.id), Error(MethodNotWhitelisted)))
      else if req.name in cfg.overrides && c.limited then Local(Res(Some(req.id), Error(OverRateLimit)))
      else if req.name == "eth_sendRawTransaction" && cfg.senderLimit && c.senderErr.Some? then
        Local(Res(Some(req.id), Error(SenderRejected(c.senderErr.value))))
      else Forward(GroupOf(cfg, req.name))
  }

  predicate Routed(cfg: Config, c: Call) {
    Classify(cfg, c).Forward?
  }

  /** The ids that are refused: nothing, a lone quote, an empty string, an object or an array. */
  lemma InvalidIds(id: string)
    ensures !IsValidId(id) <==> id == "" || id == "\"" || id == "\"\"" || id[0] == '{' || id[0] == '['
  {
    if |id| == 1 && id[0] == '\"' {
      assert id == "\"";
    }
    if |id| == 2 && id[0] == '\"' && id[1] == '\"' {
      assert id == "\"\"";
    }
  }

  /* ---- Which calls the proxy answers itself, over the fields of the call and the configuration ---- */

  predicate WellFormed(c: Call) {
    c.parsed.Some? && c.version == "2.0" && c.parsed.value.name != "" && IsValidId(c.parsed.value.id)
  }

  predicate Mapped(cfg: Config, name: string) {
    name in cfg.methods && cfg.methods[name] != ""
  }

  /** The method has a limiter of its own, and that holds the call back. */
  predicate Limited(cfg: Config, c: Call, name: string) {
    name in cfg.overrides && c.limited
  }

  predicate SenderRefused(cfg: Config, c: Call, name: string) {
    name == "eth_sendRawTransaction" && cfg.senderLimit && c.senderErr.Some?
  }

  /** Nothing speaks against forwarding the call. */
  predicate Admitted(cfg: Config, c: Call) {
    && WellFormed(c)
    && var name := c.parsed.value.name;
       name != "eth_accounts" && Mapped(cfg, name) && !Limited(cfg, c, name) && !SenderRefused(cfg, c, name)
  }

  /** The refusals of calls that are not well formed, each with its own cause; they carry no id. */
  predicate MalformedExactly(c: Call, slot: Option<Res>) {
    && (slot == Some(Res(None, Error(ParseError))) <==> c.parsed.None?)
    && (slot == Some(Res(None, Error(InvalidRequest("invalid JSON-RPC version")))) <==> c.parsed.Some? && c.version != "2.0")
    && (slot == Some(Res(None, Error(InvalidRequest("no method specified")))) <==>
          c.parsed.Some? && c.version == "2.0" && c.parsed.value.name == "")
    && (slot == Some(Res(None, Error(InvalidRequest("invalid ID")))) <==>
          c.parsed.Some? && c.version == "2.0" && c.parsed.value.name != "" && !IsValidId(c.parsed.value.id))
  }

  /** The replies to well formed calls, each with its own cause; they carry the id of the call. */
  ghost predicate RefusedExactly(cfg: Config, c: Call, slot: Option<Res>)
    requires c.parsed.Some?
  {
    var id, name := Some(c.parsed.value.id), c.parsed.value.name;
    && (slot == Some(Res(id, Result(Some("[]")))) <==> WellFormed(c) && name == "eth_accounts")
    && (slot == Some(Res(id, Error(MethodNotWhitelisted))) <==> WellFormed(c) && name != "eth_accounts" && !Mapped(cfg, name))
    && (slot == Some(Res(id, Error(OverRateLimit))) <==>
          WellFormed(c) && name != "eth_accounts" && Mapped(cfg, name) && Limited(cfg, c, name))
    && (forall reason: string :: slot == Some(Res(id, Error(SenderRejected(reason)))) <==>
          && WellFormed(c) && name != "eth_accounts" && Mapped(cfg, name) && !Limited(cfg, c, name)
          && SenderRefused(cfg, c, name) && c.senderErr == Some(reason))
  }

  /** What the proxy puts into the slot of a call by itself. */
  ghost predicate OwnReplyExactly(cfg: Config, c: Call, slot: Option<Res>) {
    && MalformedExactly(c, slot)
    && (c.parsed.Some? ==> RefusedExactly(cfg, c, slot))
    && (slot.None? <==> Admitted(cfg, c))
  }

  lemma MalformedReplies(cfg: Config, c: Call, slot: Option<Res>)
    requires slot == match Classify(cfg, c) case Local(res) => Some(res) case Forward(_) => None
    ensures MalformedExactly(c, slot)
  {
    assert |"invalid JSON-RPC version"| == 24 && |"no method specified"| == 19 && |"invalid ID"| == 10;
  }

  /** The checks, in their order, decide each reply and each forwarded call. */
  lemma ChecksDecide(cfg: Config, c: Call, slot: Option<Res>)
    requires slot == match Classify(cfg, c) case Local(res) => Some(res) case Forward(_) => None
    ensures OwnReplyExactly(cfg, c, slot)
    ensures Admitted(cfg, c) ==> Classify(cfg, c) == Forward(cfg.methods[c.parsed.value.name])
  {
    MalformedReplies(cfg, c, slot);
    assert "eth_accounts" != "eth_sendRawTransaction" by {
      assert |"eth_accounts"| == 12 && |"eth_sendRawTransaction"| == 22;
    }
  }

  /** What the nodes of a group answer to a method with parameters. */
  type Nodes = (string, string, string) -> Body

  function Answer(nodes: Nodes, group: string, req: Req): Res {
    Res(Some(req.id), nodes(group, req.name, req.params))
  }

  /** What a client would get for the call on its own. */
  function Individually(cfg: Config, nodes: Nodes, c: Call): Res {
    match Classify(cfg, c)
    case Local(res) => res
    case Forward(group) => if c.parsed.Some? then Answer(nodes, group, c.parsed.value) else Res(None, Error(ParseError))
  }

  predicate DistinctIds(reqs: seq<Req>) {
    forall i, j | 0 <= i < j < |reqs| :: reqs[i].id != reqs[j].id
  }
}

/** Putting a backend's replies into the order of the requests. */
module ReplyOrder {
  import opened Common
  import opened Rpc

  function IdText(r: Res): string {
    if r.id.None? then "" else r.id.value
  }

  /** An id the proxy did not ask for sorts with position 0. */
  function PosOf(pos: map<string, nat>, r: Res): nat {
    if IdText(r) in pos then pos[IdText(r)] else 0
  }

  predicate SortedBy(pos: map<string, nat>, s: seq<Res>) {
    forall i, j | 0 <= i < j < |s| :: PosOf(pos, s[i]) <= PosOf(pos, s[j])
  }

  function Insert(pos: map<string, nat>, x: Res, s: seq<Res>): seq<Res> {
    if s == [] || PosOf(pos, x) <= PosOf(pos, s[0]) then [x] + s else [s[0]] + Insert(pos, x, s[1..])
  }

  function Sort(pos: map<string, nat>, s: seq<Res>): seq<Res> {
    if s == [] then [] else Insert(pos, s[0], Sort(pos, s[1..]))
  }

  lemma {:induction false} InsertKeeps(pos: map<string, nat>, x: Res, s: seq<Res>)
    ensures multiset(Insert(pos, x, s)) == multiset{x} + multiset(s)
  {
    if s != [] {
      assert s == [s[0]] + s[1..];
      if PosOf(pos, x) > PosOf(pos, s[0]) {
        InsertKeeps(pos, x, s[1..]);
      }
    }
  }

  /** Every element of `s` has position `p` or later. */
  predicate From(pos: map<string, nat>, p: nat, s: seq<Res>) {
    forall i | 0 <= i < |s| :: p <= PosOf(pos, s[i])
  }

  lemma {:induction false} InsertFrom(pos: map<string, nat>, x: Res, s: seq<Res>, p: nat)
    requires From(pos, p, s) && p <= PosOf(pos, x)
    ensures From(pos, p, Insert(pos, x, s))
  {
    if s != [] && PosOf(pos, x) > PosOf(pos, s[0]) {
      InsertFrom(pos, x, s[1..], p);
    }
  }

  lemma {:induction false} InsertSorts(pos: map<string, nat>, x: Res, s: seq<Res>)
    requires SortedBy(pos, s)
    ensures SortedBy(pos, Insert(pos, x, s))
  {
    if s != [] && PosOf(pos, x) > PosOf(pos, s[0]) {
      InsertSorts(pos, x, s[1..]);
      InsertFrom(pos, x, s[1..], PosOf(pos, s[0]));
    }
  }

  lemma {:induction false} SortSorts(pos: map<string, nat>, s: seq<Res>)
    ensures SortedBy(pos, Sort(pos, s)) && multiset(Sort(pos, s)) == multiset(s)
  {
    if s != [] {
      assert s == [s[0]] + s[1..];
      SortSorts(pos, s[1..]);
      InsertSorts(pos, s[0], Sort(pos, s[1..]));
      InsertKeeps(pos, s[0], Sort(pos, s[1..]));
    }
  }

  /** In a sorted sequence the element with the least position comes first. */
  lemma LeastFirst(pos: map<string, nat>, s: seq<Res>, t: seq<Res>)
    requires s != [] && t != [] && SortedBy(pos, s) && multiset(s) == multiset(t)
    requires forall i, j | 0 <= i < j < |t| :: PosOf(pos, t[i]) < PosOf(pos, t[j])
    ensures s[0] == t[0]
  {
    assert s[0] in multiset(t) && t[0] in multiset(s);
    var i :| 0 <= i < |t| && t[i] == s[0];
    var j :| 0 <= j < |s| && s[j] == t[0];
    assert PosOf(pos, s[0]) <= PosOf(pos, s[j]);
  }

  lemma TailKeeps(s: seq<Res>, t: seq<Res>)
    requires s != [] && t != [] && s[0] == t[0] && multiset(s) == multiset(t)
    ensures multiset(s[1..]) == multiset(t[1..])
  {
    assert s == [s[0]] + s[1..] && t == [t[0]] + t[1..];
    assert multiset(s[1..]) == multiset(s) - multiset{s[0]};
    assert multiset(t[1..]) == multiset(t) - multiset{t[0]};
  }

  /** A sorted arrangement is unique when the positions in it are distinct. */
  lemma {:induction false} SortedUnique(pos: map<string, nat>, s: seq<Res>, t: seq<Res>)
    requires SortedBy(pos, s) && multiset(s) == multiset(t)
    requires forall i, j | 0 <= i < j < |t| :: PosOf(pos, t[i]) < PosOf(pos, t[j])
    ensures s == t
  {
    assert |s| == |multiset(s)| == |multiset(t)| == |t|;
    if s != [] {
      LeastFirst(pos, s, t);
      TailKeeps(s, t);
      SortedUnique(pos, s[1..], t[1..]);
      assert s == [s[0]] + s[1..] && t == [t[0]] + t[1..];
    }
  }

  ghost predicate Positions(pos: map<string, nat>, reqs: seq<Req>) {
    forall i | 0 <= i < |reqs| :: reqs[i].id in pos && pos[reqs[i].id] == i
  }

  /** A reply reduced to its id. */
  function Bare(r: Res): Res {
    Res(Some(IdText(r)), Result(None))
  }

  function BareAll(s: seq<Res>): (r: seq<Res>)
    ensures |r| == |s| && forall i | 0 <= i < |s| :: r[i] == Bare(s[i])
  {
    seq(|s|, i requires 0 <= i < |s| => Bare(s[i]))
  }

  function Wanted(reqs: seq<Req>): (r: seq<Res>)
    ensures |r| == |reqs| && forall i | 0 <= i < |reqs| :: r[i] == Res(Some(reqs[i].id), Result(None))
  {
    seq(|reqs|, i requires 0 <= i < |reqs| => Res(Some(reqs[i].id), Result(None)))
  }

  /** The ids in the reply are the ids asked for, each once; nothing is said of the bodies or the order. */
  predicate IdsMatch(reqs: seq<Req>, res: seq<Res>) {
    multiset(BareAll(res)) == multiset(Wanted(reqs))
  }

  function Without(s: seq<Res>, i: nat): seq<Res>
    requires i < |s|
  {
    s[..i] + s[i + 1..]
  }

  lemma TakeOut(s: seq<Res>, i: nat)
    requires i < |s|
    ensures multiset(s) == multiset(Without(s, i)) + multiset{s[i]}
  {
    assert s == s[..i] + [s[i]] + s[i + 1..];
  }

  lemma BareWithout(s: seq<Res>, i: nat)
    requires i < |s|
    ensures BareAll(Without(s, i)) == Without(BareAll(s), i)
  {
  }

  lemma SameRest(s: seq<Res>, t: seq<Res>, i: nat)
    requires multiset(s) == multiset(t) && s != [] && i < |t| && t[i] == s[0]
    ensures multiset(Without(s, 0)) == multiset(Without(t, i))
  {
    TakeOut(s, 0);
    TakeOut(t, i);
    assert multiset(Without(s, 0)) == multiset(s) - multiset{s[0]};
    assert multiset(Without(t, i)) == multiset(t) - multiset{t[i]};
  }

  /** Replies in another order have the same ids. */
  lemma {:induction false} PermutingKeepsIds(s: seq<Res>, t: seq<Res>)
    requires multiset(s) == multiset(t)
    ensures multiset(BareAll(s)) == multiset(BareAll(t))
  {
    if s == [] {
      assert |t| == |multiset(t)| == |multiset(s)| == 0;
    } else {
      assert s[0] in multiset(t);
      var i: nat :| i < |t| && t[i] == s[0];
      SameRest(s, t, i);
      PermutingKeepsIds(Without(s, 0), Without(t, i));
      BareWithout(s, 0);
      BareWithout(t, i);
      TakeOut(BareAll(s), 0);
      TakeOut(BareAll(t), i);
    }
  }

  lemma SortedIdsLineUp(reqs: seq<Req>, pos: map<string, nat>, out: seq<Res>)
    requires Positions(pos, reqs) && SortedBy(pos, out) && IdsMatch(reqs, out)
    ensures BareAll(out) == Wanted(reqs)
  {
    var bare, want := BareAll(out), Wanted(reqs);
    assert forall i | 0 <= i < |out| :: PosOf(pos, bare[i]) == PosOf(pos, out[i]);
    assert forall i | 0 <= i < |want| :: PosOf(pos, want[i]) == i;
    SortedUnique(pos, bare, want);
  }

  /**
   After any sort, reply `i` carries the id of request `i` for every `i` exactly when the ids in the reply are
   the ids asked for, each once. The length check alone does not ensure that.
   */
  lemma IdsLineUpIff(reqs: seq<Req>, pos: map<string, nat>, res: seq<Res>, out: seq<Res>)
    requires Positions(pos, reqs) && SortedBy(pos, out) && multiset(out) == multiset(res)
    ensures BareAll(out) == Wanted(reqs) <==> IdsMatch(reqs, res)
  {
    PermutingKeepsIds(out, res);
    if IdsMatch(reqs, res) {
      SortedIdsLineUp(reqs, pos, out);
    }
  }

  /**
   Whatever the bodies are and whatever order they come in: when the reply has the ids asked for, every sort puts
   the reply with the id of request `i` in place `i`, and all sorts give the same result.
   */
  lemma AnyOrderIsRestored(reqs: seq<Req>, pos: map<string, nat>, res: seq<Res>, out: seq<Res>, other: seq<Res>)
    requires Positions(pos, reqs) && IdsMatch(reqs, res)
    requires SortedBy(pos, out) && multiset(out) == multiset(res)
    requires SortedBy(pos, other) && multiset(other) == multiset(res)
    ensures |out| == |reqs| && forall i | 0 <= i < |out| :: IdText(out[i]) == reqs[i].id
    ensures other == out
  {
    IdsLineUpIff(reqs, pos, res, out);
    assert |BareAll(out)| == |Wanted(reqs)|;
    forall i | 0 <= i < |out| ensures IdText(out[i]) == reqs[i].id && PosOf(pos, out[i]) == i {
      assert BareAll(out)[i] == Wanted(reqs)[i];
    }
    SortedUnique(pos, other, out);
  }

  lemma {:induction false} OnceEach(s: seq<Res>, x: Res)
    requires forall i, j | 0 <= i < j < |s| :: s[i] != s[j]
    ensures multiset(s)[x] <= 1
  {
    if s != [] {
      var front, last := s[..|s| - 1], s[|s| - 1];
      OnceEach(front, x);
      assert s == front + [last];
      assert last !in front;
    }
  }

  lemma TwiceCounts(s: seq<Res>, i: nat, j: nat)
    requires i < j < |s| && s[i] == s[j]
    ensures multiset(s)[s[i]] >= 2
  {
    assert s == s[..i] + [s[i]] + s[i + 1..j] + [s[j]] + s[j + 1..];
  }

  /** With distinct requests there is only one reply to each. */
  lemma ReplyIsUnique(reqs: seq<Req>, res: seq<Res>, i: nat, j: nat)
    requires DistinctIds(reqs) && IdsMatch(reqs, res) && i < |res| && j < |res| && IdText(res[i]) == IdText(res[j])
    ensures i == j
  {
    var bare, want := BareAll(res), Wanted(reqs);
    OnceEach(want, bare[i]);
    if i < j {
      TwiceCounts(bare, i, j);
    } else if j < i {
      TwiceCounts(bare, j, i);
    }
  }

  /** A reply with an id nobody asked for is put first, in front of the slots of others. */
  lemma ForeignIdMisplaced(body: Body)
    ensures var reqs := [Req("1", "m", ""), Req("2", "m", "")];
            var res := [Res(Some("2"), body), Res(Some("9"), body)];
            var pos := map["1" := 0, "2" := 1];
            |res| == |reqs| && Positions(pos, reqs) && Sort(pos, res)[0].id == Some("9")
  {
    var res := [Res(Some("2"), body), Res(Some("9"), body)];
    var pos: map<string, nat> := map["1" := 0, "2" := 1];
    assert "1"[0] != "2"[0] && "9"[0] != "1"[0] && "9"[0] != "2"[0];
    assert PosOf(pos, res[0]) == 1 && PosOf(pos, res[1]) == 0;
    assert res[1..] == [res[1]] && res[1..][1..] == [];
    assert Sort(pos, res[1..]) == [res[1]];
    assert Insert(pos, res[0], [res[1]]) == [res[1]] + Insert(pos, res[0], [res[1]][1..]);
  }

  /** Sorts the replies in place. Two requests with one id are a bug of the caller: the proxy panics. */
  method SortReplies(reqs: seq<Req>, res: array<Res>)
    requires DistinctIds(reqs)
    modifies res
    ensures multiset(res[..]) == multiset(old(res[..]))
    ensures IdsMatch(reqs, old(res[..])) ==>
              res.Length == |reqs| && forall i | 0 <= i < res.Length :: IdText(res[i]) == reqs[i].id
  {
    var pos: map<string, nat> := map[];
    for i := 0 to |reqs|
      invariant forall k | 0 <= k < i :: reqs[k].id in pos && pos[reqs[k].id] == k
    {
      pos := pos[reqs[i].id := i];
    }
    ghost var before := res[..];
    var sorted := Sort(pos, res[..]);
    SortSorts(pos, before);
    assert |sorted| == |multiset(sorted)| == |before|;
    forall i | 0 <= i < res.Length {
      res[i] := sorted[i];
    }
    assert res[..] == sorted;
    if IdsMatch(reqs, before) {
      AnyOrderIsRestored(reqs, pos, before, sorted, sorted);
    }
  }
}

/** How a batch is cut up before it is forwarded. */
module Grouping {
  import opened Common
  import opened Rpc

  /** Requests with one id go to different group ids. */
  datatype GroupKey = GroupKey(groupId: nat, backendGroup: string)

  datatype Elem = Elem(req: Req, index: nat)

  function ReqOf(cfg: Config, c: Call): Req
    requires Routed(cfg, c)
  {
    c.parsed.value
  }

  /** How many of the first `i` calls are forwarded with this id. */
  function IdCount(cfg: Config, calls: seq<Call>, i: nat, id: string): nat
    requires i <= |calls|
  {
    if i == 0 then 0
    else IdCount(cfg, calls, i - 1, id) + if Routed(cfg, calls[i - 1]) && ReqOf(cfg, calls[i - 1]).id == id then 1 else 0
  }

  function KeyOf(cfg: Config, calls: seq<Call>, j: nat): GroupKey
    requires j < |calls| && Routed(cfg, calls[j])
  {
    GroupKey(IdCount(cfg, calls, j, ReqOf(cfg, calls[j]).id) + 1, Classify(cfg, calls[j]).group)
  }

  /** The elements of group `g` among the first `i` calls, in order. */
  function Elems(cfg: Config, calls: seq<Call>, i: nat, g: GroupKey): seq<Elem>
    requires i <= |calls|
  {
    if i == 0 then []
    else
      var c := calls[i - 1];
      Elems(cfg, calls, i - 1, g) +
      if Routed(cfg, c) && KeyOf(cfg, calls, i - 1) == g then [Elem(ReqOf(cfg, c), i - 1)] else []
  }

  function Batch(batches: map<GroupKey, seq<Elem>>, key: GroupKey): seq<Elem> {
    if key in batches then batches[key] else []
  }

  ghost predicate IdCountsMatch(cfg: Config, calls: seq<Call>, i: nat, ids: map<string, nat>)
    requires i <= |calls|
  {
    forall id: string :: Count(ids, id) == IdCount(cfg, calls, i, id)
  }

  ghost predicate BatchesMatch(cfg: Config, calls: seq<Call>, i: nat, batches: map<GroupKey, seq<Elem>>)
    requires i <= |calls|
  {
    forall key: GroupKey :: Batch(batches, key) == Elems(cfg, calls, i, key)
  }

  lemma SkipLocal(cfg: Config, calls: seq<Call>, i: nat, ids: map<string, nat>, batches: map<GroupKey, seq<Elem>>)
    requires i < |calls| && !Routed(cfg, calls[i]) && IdCountsMatch(cfg, calls, i, ids) && BatchesMatch(cfg, calls, i, batches)
    ensures IdCountsMatch(cfg, calls, i + 1, ids) && BatchesMatch(cfg, calls, i + 1, batches)
  {
  }

  lemma AddRouted(cfg: Config, calls: seq<Call>, i: nat, ids: map<string, nat>, batches: map<GroupKey, seq<Elem>>)
    requires i < |calls| && Routed(cfg, calls[i]) && IdCountsMatch(cfg, calls, i, ids) && BatchesMatch(cfg, calls, i, batches)
    ensures var req, key := ReqOf(cfg, calls[i]), KeyOf(cfg, calls, i);
            && key == GroupKey(Count(ids, req.id) + 1, Classify(cfg, calls[i]).group)
            && IdCountsMatch(cfg, calls, i + 1, ids[req.id := Count(ids, req.id) + 1])
            && BatchesMatch(cfg, calls, i + 1, batches[key := Batch(batches, key) + [Elem(req, i)]])
  {
    var req, key := ReqOf(cfg, calls[i]), KeyOf(cfg, calls, i);
    assert Count(ids, req.id) == IdCount(cfg, calls, i, req.id);
    var ids', batches' := ids[req.id := Count(ids, req.id) + 1], batches[key := Batch(batches, key) + [Elem(req, i)]];
    forall id: string ensures Count(ids', id) == IdCount(cfg, calls, i + 1, id) {
      assert Count(ids, id) == IdCount(cfg, calls, i, id);
    }
    forall k: GroupKey ensures Batch(batches', k) == Elems(cfg, calls, i + 1, k) {
      assert Batch(batches, k) == Elems(cfg, calls, i, k);
    }
  }

  /** `e` is call number `e.index`, and that call is forwarded to backend group `group`. */
  predicate Stands(cfg: Config, calls: seq<Call>, group: string, e: Elem) {
    && e.index < |calls|
    && Classify(cfg, calls[e.index]) == Forward(group)
    && ReqOf(cfg, calls[e.index]) == e.req
  }

  predicate AllStand(cfg: Config, calls: seq<Call>, group: string, es: seq<Elem>) {
    forall k | 0 <= k < |es| :: Stands(cfg, calls, group, es[k])
  }

  predicate Distinct(es: seq<Elem>) {
    forall a, b | 0 <= a < b < |es| :: es[a].req.id != es[b].req.id
  }

  function Reqs(es: seq<Elem>): (r: seq<Req>)
    ensures |r| == |es| && forall k | 0 <= k < |es| :: r[k] == es[k].req
  {
    seq(|es|, k requires 0 <= k < |es| => es[k].req)
  }

  lemma {:induction false} IdCountGrows(cfg: Config, calls: seq<Call>, j: nat, i: nat, id: string)
    requires j < i <= |calls| && Routed(cfg, calls[j]) && ReqOf(cfg, calls[j]).id == id
    ensures IdCount(cfg, calls, i, id) > IdCount(cfg, calls, j, id)
  {
    if j < i - 1 {
      IdCountGrows(cfg, calls, j, i - 1, id);
    }
  }

  lemma {:induction false} ElemsStand(cfg: Config, calls: seq<Call>, i: nat, g: GroupKey)
    requires i <= |calls|
    ensures AllStand(cfg, calls, g.backendGroup, Elems(cfg, calls, i, g))
    ensures forall k | 0 <= k < |Elems(cfg, calls, i, g)| ::
              Elems(cfg, calls, i, g)[k].index < i && KeyOf(cfg, calls, Elems(cfg, calls, i, g)[k].index) == g
  {
    if i > 0 {
      ElemsStand(cfg, calls, i - 1, g);
    }
  }

  /** A call is not grouped with an earlier one of the same id. */
  lemma NewIdInGroup(cfg: Config, calls: seq<Call>, i: nat, g: GroupKey, a: nat)
    requires i < |calls| && Routed(cfg, calls[i]) && KeyOf(cfg, calls, i) == g && a < |Elems(cfg, calls, i, g)|
    ensures Elems(cfg, calls, i, g)[a].req.id != ReqOf(cfg, calls[i]).id
  {
    ElemsStand(cfg, calls, i, g);
    var e := Elems(cfg, calls, i, g)[a];
    assert Stands(cfg, calls, g.backendGroup, e) && KeyOf(cfg, calls, e.index) == g;
    if e.req.id == ReqOf(cfg, calls[i]).id {
      IdCountGrows(cfg, calls, e.index, i, e.req.id);
    }
  }

  /** No two requests of one group share an id, so the duplicate-id panic cannot be reached. */
  lemma {:induction false} GroupsHaveDistinctIds(cfg: Config, calls: seq<Call>, i: nat, g: GroupKey)
    requires i <= |calls|
    ensures Distinct(Elems(cfg, calls, i, g))
  {
    if i > 0 {
      GroupsHaveDistinctIds(cfg, calls, i - 1, g);
      var front, c := Elems(cfg, calls, i - 1, g), calls[i - 1];
      if Routed(cfg, c) && KeyOf(cfg, calls, i - 1) == g {
        forall a | 0 <= a < |front| ensures front[a].req.id != ReqOf(cfg, c).id {
          NewIdInGroup(cfg, calls, i - 1, g, a);
        }
      }
    }
  }

  /** Every forwarded call is in the group its key names. */
  lemma {:induction false} EveryCallIsGrouped(cfg: Config, calls: seq<Call>, i: nat, j: nat)
    requires j < i <= |calls| && Routed(cfg, calls[j])
    ensures exists k | 0 <= k < |Elems(cfg, calls, i, KeyOf(cfg, calls, j))| ::
              Elems(cfg, calls, i, KeyOf(cfg, calls, j))[k].index == j
  {
    var g := KeyOf(cfg, calls, j);
    var front := Elems(cfg, calls, i - 1, g);
    if j < i - 1 {
      EveryCallIsGrouped(cfg, calls, i - 1, j);
      var k :| 0 <= k < |front| && front[k].index == j;
      assert Elems(cfg, calls, i, g)[k].index == j;
    } else {
      assert Elems(cfg, calls, i, g)[|front|].index == j;
    }
  }

  /** The earlier forwarded calls with this id. */
  ghost function Earlier(cfg: Config, calls: seq<Call>, i: nat, id: string): set<nat>
    requires i <= |calls|
  {
    set j: nat | j < i && Routed(cfg, calls[j]) && ReqOf(cfg, calls[j]).id == id
  }

  lemma EarlierStep(cfg: Config, calls: seq<Call>, i: nat, id: string)
    requires 0 < i <= |calls|
    ensures var same := Routed(cfg, calls[i - 1]) && ReqOf(cfg, calls[i - 1]).id == id;
            Earlier(cfg, calls, i, id) == Earlier(cfg, calls, i - 1, id) + if same then {i - 1} else {}
    ensures i - 1 !in Earlier(cfg, calls, i - 1, id)
  {
  }

  lemma {:induction false} IdCountIsCardinality(cfg: Config, calls: seq<Call>, i: nat, id: string)
    requires i <= |calls|
    ensures IdCount(cfg, calls, i, id) == |Earlier(cfg, calls, i, id)|
  {
    if i > 0 {
      IdCountIsCardinality(cfg, calls, i - 1, id);
      EarlierStep(cfg, calls, i, id);
    }
  }

  /** Two calls go together exactly when they go to one backend group and as many calls with their id came before. */
  lemma GroupedTogetherIff(cfg: Config, calls: seq<Call>, j: nat, k: nat)
    requires j < |calls| && k < |calls| && Routed(cfg, calls[j]) && Routed(cfg, calls[k])
    ensures KeyOf(cfg, calls, j) == KeyOf(cfg, calls, k) <==>
            && Classify(cfg, calls[j]) == Classify(cfg, calls[k])
            && |Earlier(cfg, calls, j, ReqOf(cfg, calls[j]).id)| == |Earlier(cfg, calls, k, ReqOf(cfg, calls[k]).id)|
  {
    IdCountIsCardinality(cfg, calls, j, ReqOf(cfg, calls[j]).id);
    IdCountIsCardinality(cfg, calls, k, ReqOf(cfg, calls[k]).id);
  }

  /** A group keeps the order of the calls. */
  lemma {:induction false} ElemsInOrder(cfg: Config, calls: seq<Call>, i: nat, g: GroupKey)
    requires i <= |calls|
    ensures forall a, b | 0 <= a < b < |Elems(cfg, calls, i, g)| ::
              Elems(cfg, calls, i, g)[a].index < Elems(cfg, calls, i, g)[b].index
  {
    if i > 0 {
      ElemsInOrder(cfg, calls, i - 1, g);
      ElemsStand(cfg, calls, i - 1, g);
    }
  }

  /* ---- Minibatches ---- */

  function NumBatches(n: nat, size: nat): nat
    requires size > 0
  {
    (n + size - 1) / size
  }

  function Min(a: nat, b: nat): nat {
    if a < b then a else b
  }

  lemma BatchStart(n: nat, size: nat, i: nat)
    requires size > 0
    ensures i < NumBatches(n, size) <==> i * size < n
  {
    var q := NumBatches(n, size);
    assert n + size - 1 == q * size + (n + size - 1) % size;
    if i < q {
      assert (i + 1) * size <= q * size;
    } else {
      assert q * size <= i * size;
    }
  }

  function Minibatch(es: seq<Elem>, size: nat, i: nat): seq<Elem>
    requires size > 0 && i < NumBatches(|es|, size)
  {
    BatchStart(|es|, size, i);
    es[i * size..Min(i * size + size, |es|)]
  }

  lemma MinibatchStands(cfg: Config, calls: seq<Call>, group: string, es: seq<Elem>, size: nat, i: nat)
    requires size > 0 && i < NumBatches(|es|, size) && AllStand(cfg, calls, group, es) && Distinct(es)
    ensures AllStand(cfg, calls, group, Minibatch(es, size, i)) && Distinct(Minibatch(es, size, i))
  {
    BatchStart(|es|, size, i);
    var start := i * size;
    assert forall k | 0 <= k < |Minibatch(es, size, i)| :: Minibatch(es, size, i)[k] == es[start + k];
  }

  function JoinBatches(es: seq<Elem>, size: nat, i: nat): seq<Elem>
    requires size > 0 && i <= NumBatches(|es|, size)
  {
    if i == 0 then [] else JoinBatches(es, size, i - 1) + Minibatch(es, size, i - 1)
  }

  lemma {:induction false} JoinedPrefix(es: seq<Elem>, size: nat, i: nat)
    requires size > 0 && i <= NumBatches(|es|, size)
    ensures JoinBatches(es, size, i) == es[..Min(i * size, |es|)]
  {
    if i > 0 {
      JoinedPrefix(es, size, i - 1);
      BatchStart(|es|, size, i - 1);
      assert i * size == (i - 1) * size + size;
    }
  }

  /** The minibatches are not empty, not too long, and together are exactly the misses in order. */
  lemma MinibatchesCover(es: seq<Elem>, size: nat)
    requires size > 0
    ensures forall i: nat | i < NumBatches(|es|, size) :: 0 < |Minibatch(es, size, i)| <= size
    ensures JoinBatches(es, size, NumBatches(|es|, size)) == es
  {
    var q := NumBatches(|es|, size);
    forall i: nat | i < q ensures 0 < |Minibatch(es, size, i)| <= size {
      BatchStart(|es|, size, i);
    }
    BatchStart(|es|, size, q);
    JoinedPrefix(es, size, q);
  }
}

/** The batch endpoint: splitting, caching, forwarding with retries and failover, and scattering the answers. */
module BatchServer {
  import opened Common
  import opened Rpc
  import opened Grouping
  import opened ReplyOrder

  datatype Gate = Ready | Offline | OverCapacity
  datatype Reply = NetworkError | BadBody | NotBatched | Replied(res: seq<Res>)

  /** Methods the cache answers from a polled value. */
  const POLLED: set<string> := {"eth_blockNumber", "eth_gasPrice"}

  /** What the outside does at each moment; moments never repeat, so nothing ties one answer to the next. */
  datatype Wire = Wire(
    gate: (nat, nat) -> Gate,               // backend, moment
    post: (nat, nat, seq<Req>) -> Reply,    // backend, moment, requests
    expired: nat -> bool,                   // the request's deadline has passed
    chosen: (nat, string) -> seq<nat>,      // moment, group: the healthy members of its consensus group, shuffled
    readable: nat -> bool,                  // the store answers a read
    keeps: nat -> bool,                     // the cache stores what it is given
    polled: (nat, string) -> Option<string> // moment, method: the value last polled, if there is one
  )

  /** What each moment was used for; moment `t` is entry `t`. */
  datatype Use =
    | Choose(group: string)
    | TryGate(backend: nat)
    | Post(backend: nat, reqs: seq<Req>)
    | ReadClock
    | ReadPoll(name: string)
    | ReadStore(req: Req)
    | Keep

  /* ---- What is sent out ---- */

  ghost predicate NoPosts(t0: nat, log: seq<Use>) {
    forall t: nat | t0 <= t < |log| :: !log[t].Post?
  }

  /** From `t0` on, nothing but `reqs` is posted, and only to backends of the group. */
  ghost predicate OnlyPosts(cfg: Config, g: string, reqs: seq<Req>, t0: nat, log: seq<Use>) {
    g in cfg.groups && forall t: nat | t0 <= t < |log| && log[t].Post? :: log[t].reqs == reqs && log[t].backend in cfg.groups[g]
  }

  /** Call `j` is admitted, is this request, and its method is mapped to a group of the backend. */
  predicate SendsCall(cfg: Config, calls: seq<Call>, j: nat, r: Req, b: nat) {
    && j < |calls| && Admitted(cfg, calls[j]) && calls[j].parsed.value == r
    && cfg.methods[r.name] in cfg.groups && b in cfg.groups[cfg.methods[r.name]]
  }

  ghost predicate PostIsOfCalls(cfg: Config, calls: seq<Call>, use: Use) {
    use.Post? ==> forall r | r in use.reqs :: exists j: nat :: SendsCall(cfg, calls, j, r, use.backend)
  }

  /** From `t0` on, every request posted is that of an admitted call, posted to a backend of the group it maps to. */
  ghost predicate PostsFrom(cfg: Config, calls: seq<Call>, t0: nat, log: seq<Use>) {
    forall t: nat | t0 <= t < |log| :: PostIsOfCalls(cfg, calls, log[t])
  }

  lemma NoPostsJoin(t0: nat, past: seq<Use>, log: seq<Use>)
    requires NoPosts(t0, past) && past <= log && NoPosts(|past|, log)
    ensures NoPosts(t0, log)
  {
    assert forall t: nat | t < |past| :: log[t] == past[t];
  }

  lemma PostsJoin(cfg: Config, calls: seq<Call>, t0: nat, past: seq<Use>, log: seq<Use>)
    requires PostsFrom(cfg, calls, t0, past) && past <= log && PostsFrom(cfg, calls, |past|, log)
    ensures PostsFrom(cfg, calls, t0, log)
  {
    assert forall t: nat | t < |past| :: log[t] == past[t];
  }

  lemma NoPostsAreFine(cfg: Config, calls: seq<Call>, t0: nat, log: seq<Use>)
    requires NoPosts(t0, log)
    ensures PostsFrom(cfg, calls, t0, log)
  {
  }

  lemma StandingIsAdmitted(cfg: Config, calls: seq<Call>, g: string, e: Elem)
    requires Stands(cfg, calls, g, e)
    ensures Admitted(cfg, calls[e.index]) && cfg.methods[e.req.name] == g && calls[e.index].parsed.value == e.req
  {
    ChecksDecide(cfg, calls[e.index], None);
  }

  lemma BatchPostsAreOfCalls(cfg: Config, calls: seq<Call>, g: string, es: seq<Elem>, t0: nat, log: seq<Use>)
    requires OnlyPosts(cfg, g, Reqs(es), t0, log) && AllStand(cfg, calls, g, es)
    ensures PostsFrom(cfg, calls, t0, log)
  {
    forall t: nat | t0 <= t < |log| && log[t].Post? ensures PostIsOfCalls(cfg, calls, log[t]) {
      forall r | r in log[t].reqs ensures exists j: nat :: SendsCall(cfg, calls, j, r, log[t].backend) {
        var k :| 0 <= k < |es| && Reqs(es)[k] == r;
        assert Stands(cfg, calls, g, es[k]);
        StandingIsAdmitted(cfg, calls, g, es[k]);
        assert SendsCall(cfg, calls, es[k].index, r, log[t].backend);
      }
    }
  }

  /** The slot of a call after the batch: the proxy's own reply exactly as the checks say, or an answer to the call. */
  ghost predicate SlotMeans(cfg: Config, w: Wire, c: Call, res: Res, t0: nat, log: seq<Use>) {
    && (!Admitted(cfg, c) ==> OwnReplyExactly(cfg, c, Some(res)))
    && (Admitted(cfg, c) ==> IsAnswer(cfg, w, cfg.methods[c.parsed.value.name], c.parsed.value, res, t0, log))
  }

  lemma RightMeans(cfg: Config, w: Wire, c: Call, res: Res, t0: nat, log: seq<Use>)
    requires IsRight(cfg, w, c, res, t0, log)
    ensures SlotMeans(cfg, w, c, res, t0, log)
  {
    ChecksDecide(cfg, c, match Classify(cfg, c) case Local(own) => Some(own) case Forward(_) => None);
  }

  /* ---- Where a response comes from ---- */

  /**
   At moment `t` backend `b` of the group was sent `reqs`, `req` among them, and `res` is one of as many replies.
   If the replies have the ids asked for, it is the one with the id of `req`.
   */
  ghost predicate ReplyAt(cfg: Config, w: Wire, g: string, req: Req, res: Res, b: nat, t: nat, reqs: seq<Req>) {
    && g in cfg.groups && b in cfg.groups[g] && DistinctIds(reqs) && req in reqs
    && w.post(b, t, reqs).Replied? && |w.post(b, t, reqs).res| == |reqs| && res in w.post(b, t, reqs).res
    && (IdsMatch(reqs, w.post(b, t, reqs).res) ==> IdText(res) == req.id)
  }

  /** `res` was received in answer to `req`, at a moment from `t0` on. */
  ghost predicate Received(cfg: Config, w: Wire, g: string, req: Req, res: Res, t0: nat, log: seq<Use>) {
    exists b: nat, t: nat, reqs: seq<Req> ::
      t0 <= t < |log| && log[t] == Post(b, reqs) && ReplyAt(cfg, w, g, req, res, b, t, reqs)
  }

  /** A call of the method, alike to the cache, was answered with this result. */
  ghost predicate AnsweredBefore(cfg: Config, w: Wire, name: string, key: string, json: string, log: seq<Use>) {
    exists req: Req, id: Option<string> ::
      && req.name == name && cfg.keyText(name, req.params) == key
      && Received(cfg, w, GroupOf(cfg, name), req, Res(id, Result(Some(json))), 0, log)
  }

  ghost predicate FromCache(cfg: Config, w: Wire, req: Req, res: Res, log: seq<Use>) {
    && res.id == Some(req.id) && res.body.Result? && res.body.json.Some?
    && AnsweredBefore(cfg, w, req.name, cfg.keyText(req.name, req.params), res.body.json.value, log)
  }

  ghost predicate FromPoll(w: Wire, req: Req, res: Res, t0: nat, log: seq<Use>) {
    && req.name in POLLED
    && exists t: nat | t0 <= t < |log| && log[t] == ReadPoll(req.name) ::
         w.polled(t, req.name).Some? && res == Res(Some(req.id), Result(w.polled(t, req.name)))
  }

  /** A failure the backend is tried again after. */
  predicate Transient(r: Reply) {
    r.NetworkError? || r.BadBody?
  }

  /** A reply that is no reply to the batch. */
  predicate Unexpected(r: Reply, n: nat) {
    r.NotBatched? || (r.Replied? && |r.res| != n)
  }

  /** The `k` tries made from moment `t` on all failed, and there was no other to make. */
  ghost predicate TriesFailed(cfg: Config, w: Wire, b: nat, reqs: seq<Req>, t: nat, k: nat, log: seq<Use>) {
    && 0 < k <= cfg.maxRetries + 1 && t + k <= |log|
    && (forall m: nat | t <= m < t + k :: log[m] == Post(b, reqs))
    && (forall m: nat | t <= m < t + k - 1 :: Transient(w.post(b, m, reqs)))
    && var last := w.post(b, t + k - 1, reqs);
       Unexpected(last, |reqs|) || (k == cfg.maxRetries + 1 && Transient(last))
  }

  ghost predicate AllTriesFailed(cfg: Config, w: Wire, b: nat, reqs: seq<Req>, t: nat, log: seq<Use>) {
    exists k: nat :: TriesFailed(cfg, w, b, reqs, t, k, log)
  }

  /** At moment `t` the backend's gate was tried: it was closed, or it was open and every try that followed failed. */
  ghost predicate InVainAt(cfg: Config, w: Wire, b: nat, reqs: seq<Req>, t: nat, log: seq<Use>) {
    && t < |log| && log[t] == TryGate(b)
    && (w.gate(b, t) != Ready || AllTriesFailed(cfg, w, b, reqs, t + 1, log))
  }

  ghost predicate AskedInVain(cfg: Config, w: Wire, b: nat, reqs: seq<Req>, t0: nat, log: seq<Use>) {
    exists t: nat | t0 <= t :: InVainAt(cfg, w, b, reqs, t, log)
  }

  /** The backends asked when a request is forwarded at moment `t`, in order. */
  function Candidates(cfg: Config, w: Wire, g: string, t: nat): seq<nat>
    requires g in cfg.groups
  {
    if g in cfg.consensusAware then w.chosen(t, g) else cfg.groups[g]
  }

  /** A consensus group holds backends of its group only. */
  ghost predicate ChoosesMembers(cfg: Config, w: Wire) {
    forall t: nat, g: string, b: nat | g in cfg.groups && b in w.chosen(t, g) :: b in cfg.groups[g]
  }

  /** At moment `t` the backends to ask were chosen, and from then on each of them was asked in vain. */
  ghost predicate AllAskedInVain(cfg: Config, w: Wire, g: string, reqs: seq<Req>, t: nat, log: seq<Use>)
    requires g in cfg.groups
  {
    && t < |log| && log[t] == Choose(g)
    && forall b: nat | b in Candidates(cfg, w, g, t) :: AskedInVain(cfg, w, b, reqs, t, log)
  }

  /** The answer was the last thing to happen, and the backends that come before the one that gave it were asked in vain. */
  ghost predicate FirstToAnswer(cfg: Config, w: Wire, backends: seq<nat>, reqs: seq<Req>, t: nat, i: nat, log: seq<Use>) {
    && i < |backends| && t < |log| && log[|log| - 1] == Post(backends[i], reqs)
    && forall k: nat | k < i :: AskedInVain(cfg, w, backends[k], reqs, t, log)
  }

  ghost predicate Answered(cfg: Config, w: Wire, backends: seq<nat>, reqs: seq<Req>, t: nat, log: seq<Use>) {
    exists i: nat :: FirstToAnswer(cfg, w, backends, reqs, t, i, log)
  }

  /** Every backend chosen for the group, at some moment from `t0` on, was asked in vain. */
  ghost predicate GroupFailed(cfg: Config, w: Wire, g: string, reqs: seq<Req>, t0: nat, log: seq<Use>) {
    g in cfg.groups && exists t: nat | t0 <= t :: AllAskedInVain(cfg, w, g, reqs, t, log)
  }

  ghost predicate Unanswered(cfg: Config, w: Wire, g: string, req: Req, t0: nat, log: seq<Use>) {
    exists reqs: seq<Req> :: req in reqs && GroupFailed(cfg, w, g, reqs, t0, log)
  }

  /** What a forwarded request may be answered with, when it is handled from `t0` on. */
  ghost predicate IsAnswer(cfg: Config, w: Wire, g: string, req: Req, res: Res, t0: nat, log: seq<Use>) {
    || Received(cfg, w, g, req, res, t0, log)
    || FromCache(cfg, w, req, res, log)
    || FromPoll(w, req, res, t0, log)
    || (res == Res(Some(req.id), Error(NoBackends)) && Unanswered(cfg, w, g, req, t0, log))
  }

  ghost predicate IsRight(cfg: Config, w: Wire, c: Call, res: Res, t0: nat, log: seq<Use>) {
    match Classify(cfg, c)
    case Local(own) => res == own
    case Forward(g) => c.parsed.Some? && IsAnswer(cfg, w, g, c.parsed.value, res, t0, log)
  }

  lemma ReceivedLater(cfg: Config, w: Wire, g: string, req: Req, res: Res, s0: nat, past: seq<Use>, t0: nat, log: seq<Use>)
    requires Received(cfg, w, g, req, res, s0, past) && t0 <= s0 && past <= log
    ensures Received(cfg, w, g, req, res, t0, log)
  {
    var b: nat, t: nat, reqs: seq<Req> :|
      s0 <= t < |past| && past[t] == Post(b, reqs) && ReplyAt(cfg, w, g, req, res, b, t, reqs);
    assert log[t] == Post(b, reqs);
  }

  lemma AnsweredLater(cfg: Config, w: Wire, name: string, key: string, json: string, past: seq<Use>, log: seq<Use>)
    requires AnsweredBefore(cfg, w, name, key, json, past) && past <= log
    ensures AnsweredBefore(cfg, w, name, key, json, log)
  {
    var req: Req, id: Option<string> :|
      && req.name == name && cfg.keyText(name, req.params) == key
      && Received(cfg, w, GroupOf(cfg, name), req, Res(id, Result(Some(json))), 0, past);
    ReceivedLater(cfg, w, GroupOf(cfg, name), req, Res(id, Result(Some(json))), 0, past, 0, log);
  }

  lemma InVainLater(cfg: Config, w: Wire, b: nat, reqs: seq<Req>, s0: nat, past: seq<Use>, t0: nat, log: seq<Use>)
    requires AskedInVain(cfg, w, b, reqs, s0, past) && t0 <= s0 && past <= log
    ensures AskedInVain(cfg, w, b, reqs, t0, log)
  {
    var t: nat :| s0 <= t && InVainAt(cfg, w, b, reqs, t, past);
    if w.gate(b, t) == Ready {
      var k: nat :| TriesFailed(cfg, w, b, reqs, t + 1, k, past);
      assert TriesFailed(cfg, w, b, reqs, t + 1, k, log);
    }
    assert InVainAt(cfg, w, b, reqs, t, log);
  }

  lemma UnansweredLater(cfg: Config, w: Wire, g: string, req: Req, s0: nat, past: seq<Use>, t0: nat, log: seq<Use>)
    requires Unanswered(cfg, w, g, req, s0, past) && t0 <= s0 && past <= log
    ensures Unanswered(cfg, w, g, req, t0, log)
  {
    var reqs: seq<Req> :| req in reqs && GroupFailed(cfg, w, g, reqs, s0, past);
    var t: nat :| s0 <= t && AllAskedInVain(cfg, w, g, reqs, t, past);
    forall b: nat | b in Candidates(cfg, w, g, t) ensures AskedInVain(cfg, w, b, reqs, t, log) {
      InVainLater(cfg, w, b, reqs, t, past, t, log);
    }
    assert AllAskedInVain(cfg, w, g, reqs, t, log);
    assert GroupFailed(cfg, w, g, reqs, t0, log);
  }

  lemma FromPollLater(w: Wire, req: Req, res: Res, s0: nat, past: seq<Use>, t0: nat, log: seq<Use>)
    requires FromPoll(w, req, res, s0, past) && t0 <= s0 && past <= log
    ensures FromPoll(w, req, res, t0, log)
  {
    var t: nat :| && s0 <= t < |past| && past[t] == ReadPoll(req.name) && w.polled(t, req.name).Some?
                  && res == Res(Some(req.id), Result(w.polled(t, req.name)));
    assert log[t] == ReadPoll(req.name);
  }

  /** What is an answer stays one as time passes. */
  lemma IsAnswerLater(cfg: Config, w: Wire, g: string, req: Req, res: Res, s0: nat, past: seq<Use>, t0: nat, log: seq<Use>)
    requires IsAnswer(cfg, w, g, req, res, s0, past) && t0 <= s0 && past <= log
    ensures IsAnswer(cfg, w, g, req, res, t0, log)
  {
    if Received(cfg, w, g, req, res, s0, past) {
      ReceivedLater(cfg, w, g, req, res, s0, past, t0, log);
    } else if FromCache(cfg, w, req, res, past) {
      AnsweredLater(cfg, w, req.name, cfg.keyText(req.name, req.params), res.body.json.value, past, log);
    } else if FromPoll(w, req, res, s0, past) {
      FromPollLater(w, req, res, s0, past, t0, log);
    } else {
      UnansweredLater(cfg, w, g, req, s0, past, t0, log);
    }
  }

  /** The slots filled so far are right. */
  ghost predicate AllRight(cfg: Config, w: Wire, calls: seq<Call>, slots: seq<Option<Res>>, t0: nat, log: seq<Use>) {
    && |slots| == |calls|
    && forall j | 0 <= j < |calls| && slots[j].Some? :: IsRight(cfg, w, calls[j], slots[j].value, t0, log)
  }

  lemma AllRightLater(cfg: Config, w: Wire, calls: seq<Call>, slots: seq<Option<Res>>, t0: nat, past: seq<Use>, log: seq<Use>)
    requires AllRight(cfg, w, calls, slots, t0, past) && past <= log
    ensures AllRight(cfg, w, calls, slots, t0, log)
  {
    forall j | 0 <= j < |calls| && slots[j].Some? ensures IsRight(cfg, w, calls[j], slots[j].value, t0, log) {
      assert IsRight(cfg, w, calls[j], slots[j].value, t0, past);
      match Classify(cfg, calls[j])
      case Local(_) =>
      case Forward(g) => IsAnswerLater(cfg, w, g, calls[j].parsed.value, slots[j].value, t0, past, t0, log);
    }
  }

  /** Filling the slot of a forwarded call with an answer to it. */
  lemma FillRight(cfg: Config, w: Wire, calls: seq<Call>, slots: seq<Option<Res>>, g: string, e: Elem, res: Res,
                  t0: nat, log: seq<Use>)
    requires AllRight(cfg, w, calls, slots, t0, log) && Stands(cfg, calls, g, e) && IsAnswer(cfg, w, g, e.req, res, t0, log)
    ensures AllRight(cfg, w, calls, slots[e.index := Some(res)], t0, log)
  {
  }

  /** An answer to the element's request; a result was received for it. */
  ghost predicate Answers(cfg: Config, w: Wire, g: string, e: Elem, res: Res, t0: nat, log: seq<Use>) {
    IsAnswer(cfg, w, g, e.req, res, t0, log) && (res.body.Result? ==> Received(cfg, w, g, e.req, res, t0, log))
  }

  lemma AnswersLater(cfg: Config, w: Wire, g: string, e: Elem, res: Res, t0: nat, past: seq<Use>, log: seq<Use>)
    requires Answers(cfg, w, g, e, res, t0, past) && past <= log
    ensures Answers(cfg, w, g, e, res, t0, log)
  {
    IsAnswerLater(cfg, w, g, e.req, res, t0, past, t0, log);
    if res.body.Result? {
      ReceivedLater(cfg, w, g, e.req, res, t0, past, t0, log);
    }
  }

  ghost predicate AllAnswer(cfg: Config, w: Wire, g: string, es: seq<Elem>, res: seq<Res>, t0: nat, log: seq<Use>) {
    |res| == |es| && forall k | 0 <= k < |es| :: Answers(cfg, w, g, es[k], res[k], t0, log)
  }

  lemma AllAnswerLater(cfg: Config, w: Wire, g: string, es: seq<Elem>, res: seq<Res>, t0: nat, past: seq<Use>, log: seq<Use>, k: nat)
    requires AllAnswer(cfg, w, g, es, res, t0, past) && past <= log && k < |es|
    ensures Answers(cfg, w, g, es[k], res[k], t0, log)
  {
    AnswersLater(cfg, w, g, es[k], res[k], t0, past, log);
  }

  /** The slots of the first `k` elements are filled. */
  predicate Filled(es: seq<Elem>, k: nat, slots: seq<Option<Res>>) {
    && k <= |es|
    && (forall i | 0 <= i < |es| :: es[i].index < |slots|)
    && forall m | 0 <= m < k :: slots[es[m].index].Some?
  }

  /** The elements of the first `i` minibatches have their slots filled. */
  ghost predicate BatchesFilled(misses: seq<Elem>, size: nat, i: nat, slots: seq<Option<Res>>)
    requires size > 0
  {
    && i <= NumBatches(|misses|, size)
    && forall e | e in JoinBatches(misses, size, i) :: e.index < |slots| && slots[e.index].Some?
  }

  lemma OneMoreBatch(misses: seq<Elem>, size: nat, i: nat, before: seq<Option<Res>>, slots: seq<Option<Res>>)
    requires size > 0 && i < NumBatches(|misses|, size) && BatchesFilled(misses, size, i, before)
    requires StaysFilled(before, slots) && Filled(Minibatch(misses, size, i), |Minibatch(misses, size, i)|, slots)
    ensures BatchesFilled(misses, size, i + 1, slots)
  {
  }

  lemma AllBatchesFilled(misses: seq<Elem>, size: nat, slots: seq<Option<Res>>)
    requires size > 0 && BatchesFilled(misses, size, NumBatches(|misses|, size), slots)
    ensures Filled(misses, |misses|, slots)
  {
    MinibatchesCover(misses, size);
    assert forall k | 0 <= k < |misses| :: misses[k] in misses;
  }

  lemma InRange(cfg: Config, calls: seq<Call>, g: string, es: seq<Elem>, slots: seq<Option<Res>>)
    requires AllStand(cfg, calls, g, es) && |slots| == |calls|
    ensures Filled(es, 0, slots)
  {
    assert forall k | 0 <= k < |es| :: Stands(cfg, calls, g, es[k]);
  }

  lemma FillOne(es: seq<Elem>, k: nat, before: seq<Option<Res>>, slots: seq<Option<Res>>, res: Res)
    requires Filled(es, k, slots) && k < |es| && StaysFilled(before, slots)
    ensures Filled(es, k + 1, slots[es[k].index := Some(res)])
    ensures StaysFilled(before, slots[es[k].index := Some(res)])
  {
  }

  lemma MayOffer(cfg: Config, w: Wire, calls: seq<Call>, g: string, e: Elem, res: Res, t0: nat, log: seq<Use>)
    requires Stands(cfg, calls, g, e) && (res.body.Result? ==> Received(cfg, w, g, e.req, res, t0, log))
    ensures res.body.Result? ==> Received(cfg, w, GroupOf(cfg, e.req.name), e.req, res, 0, log)
  {
    if res.body.Result? {
      ReceivedLater(cfg, w, g, e.req, res, t0, log, 0, log);
    }
  }

  /** No filled slot is emptied. */
  ghost predicate StaysFilled(before: seq<Option<Res>>, after: seq<Option<Res>>) {
    |before| == |after| && forall j | 0 <= j < |before| && before[j].Some? :: after[j].Some?
  }

  type Cache = map<(string, string), string>

  /** Every cached result was received in answer to a call of its method that is alike to the cache. */
  ghost predicate Sourced(cfg: Config, w: Wire, cache: Cache, log: seq<Use>) {
    forall k: (string, string) | k in cache :: AnsweredBefore(cfg, w, k.0, k.1, cache[k], log)
  }

  /** From `t0` on, the store did not answer when it was read for the request. */
  ghost predicate ReadFailed(w: Wire, req: Req, t0: nat, log: seq<Use>) {
    exists t: nat | t0 <= t < |log| && log[t] == ReadStore(req) :: !w.readable(t)
  }

  /** Nothing is kept for the request, the store could not be read, or the answer would be a polled value. */
  ghost predicate IsMiss(cfg: Config, w: Wire, cache: Cache, req: Req, t0: nat, log: seq<Use>) {
    || req.name in POLLED
    || (req.name, cfg.keyText(req.name, req.params)) !in cache
    || ReadFailed(w, req, t0, log)
  }

  lemma IsMissLater(cfg: Config, w: Wire, cache: Cache, req: Req, s0: nat, past: seq<Use>, t0: nat, log: seq<Use>)
    requires IsMiss(cfg, w, cache, req, s0, past) && t0 <= s0 && past <= log
    ensures IsMiss(cfg, w, cache, req, t0, log)
  {
    if ReadFailed(w, req, s0, past) {
      var t: nat :| s0 <= t < |past| && past[t] == ReadStore(req) && !w.readable(t);
      assert log[t] == ReadStore(req);
    }
  }

  ghost predicate NotCached(cfg: Config, w: Wire, cache: Cache, es: seq<Elem>, t0: nat, log: seq<Use>) {
    forall i | 0 <= i < |es| :: IsMiss(cfg, w, cache, es[i].req, t0, log)
  }

  lemma NotCachedLater(cfg: Config, w: Wire, cache: Cache, es: seq<Elem>, t0: nat, past: seq<Use>, log: seq<Use>)
    requires NotCached(cfg, w, cache, es, t0, past) && past <= log
    ensures NotCached(cfg, w, cache, es, t0, log)
  {
    forall i | 0 <= i < |es| ensures IsMiss(cfg, w, cache, es[i].req, t0, log) {
      IsMissLater(cfg, w, cache, es[i].req, t0, past, t0, log);
    }
  }

  lemma OneMoreMiss(cfg: Config, w: Wire, cache: Cache, es: seq<Elem>, e: Elem, t0: nat, s0: nat, log: seq<Use>)
    requires NotCached(cfg, w, cache, es, t0, log) && IsMiss(cfg, w, cache, e.req, s0, log) && t0 <= s0
    ensures NotCached(cfg, w, cache, es + [e], t0, log)
  {
    IsMissLater(cfg, w, cache, e.req, s0, log, t0, log);
  }

  lemma SourcedWith(cfg: Config, w: Wire, cache: Cache, key: (string, string), json: string, log: seq<Use>)
    requires Sourced(cfg, w, cache, log) && AnsweredBefore(cfg, w, key.0, key.1, json, log)
    ensures Sourced(cfg, w, cache[key := json], log)
  {
  }

  lemma SourcedLater(cfg: Config, w: Wire, cache: Cache, past: seq<Use>, log: seq<Use>)
    requires Sourced(cfg, w, cache, past) && past <= log
    ensures Sourced(cfg, w, cache, log)
  {
    forall k: (string, string) | k in cache ensures AnsweredBefore(cfg, w, k.0, k.1, cache[k], log) {
      AnsweredLater(cfg, w, k.0, k.1, cache[k], past, log);
    }
  }

  /** Every request got its answer in this exchange or that one, from `t0` on. */
  ghost predicate AllReceived(cfg: Config, w: Wire, g: string, reqs: seq<Req>, res: seq<Res>, t0: nat, log: seq<Use>) {
    |res| == |reqs| && forall i | 0 <= i < |reqs| :: Received(cfg, w, g, reqs[i], res[i], t0, log)
  }

  datatype Failure = IsOffline | IsOverCapacity | UnexpectedReply | Permanent | Unserviceable
  datatype Forwarded = Sent(res: seq<Res>) | Failed(why: Failure)

  /** What one exchange that passes the length check gives, sorted. */
  lemma ExchangeIsReceived(cfg: Config, w: Wire, g: string, b: nat, t: nat, reqs: seq<Req>, out: seq<Res>, t0: nat, log: seq<Use>)
    requires g in cfg.groups && b in cfg.groups[g] && DistinctIds(reqs) && t0 <= t < |log| && log[t] == Post(b, reqs)
    requires w.post(b, t, reqs).Replied? && |w.post(b, t, reqs).res| == |reqs|
    requires multiset(out) == multiset(w.post(b, t, reqs).res)
    requires IdsMatch(reqs, w.post(b, t, reqs).res) ==>
               |out| == |reqs| && forall i | 0 <= i < |out| :: IdText(out[i]) == reqs[i].id
    ensures AllReceived(cfg, w, g, reqs, out, t0, log)
  {
    var res := w.post(b, t, reqs).res;
    assert |out| == |multiset(out)| == |multiset(res)| == |res|;
    forall i | 0 <= i < |reqs| ensures Received(cfg, w, g, reqs[i], out[i], t0, log) {
      assert out[i] in multiset(res);
      assert ReplyAt(cfg, w, g, reqs[i], out[i], b, t, reqs);
    }
  }

  /** A result received is sourced under the key of its request. */
  lemma KeptIsSourced(cfg: Config, w: Wire, cache: Cache, req: Req, res: Res, past: seq<Use>, log: seq<Use>)
    requires past <= log && Sourced(cfg, w, cache, log) && res.body.Result? && res.body.json.Some?
    requires Received(cfg, w, GroupOf(cfg, req.name), req, res, 0, past)
    ensures Sourced(cfg, w, cache[(req.name, cfg.keyText(req.name, req.params)) := res.body.json.value], log)
  {
    var text, json := cfg.keyText(req.name, req.params), res.body.json.value;
    ReceivedLater(cfg, w, GroupOf(cfg, req.name), req, res, 0, past, 0, log);
    assert res == Res(res.id, Result(Some(json)));
    assert AnsweredBefore(cfg, w, req.name, text, json, log);
    SourcedWith(cfg, w, cache, (req.name, text), json, log);
  }

  class Server {
    const cfg: Config
    const w: Wire
    var cache: Cache
    var log: seq<Use>

    ghost predicate Valid()
      reads this
    {
      ValidConfig(cfg) && ChoosesMembers(cfg, w) && Sourced(cfg, w, cache, log)
    }

    constructor (cfg: Config, w: Wire)
      requires ValidConfig(cfg) && ChoosesMembers(cfg, w)
      ensures Valid() && this.cfg == cfg && this.w == w && cache == map[] && log == []
    {
      this.cfg, this.w, cache, log := cfg, w, map[], [];
    }

    /** The next moment, and what it is used for. */
    method Moment(use: Use) returns (t: nat)
      modifies this`log
      ensures t == |old(log)| && log == old(log) + [use]
    {
      t, log := |log|, log + [use];
    }

    /** One exchange with a backend: the length check, then the sort. */
    method DoForward(ghost g: string, b: nat, reqs: seq<Req>) returns (r: Forwarded)
      requires g in cfg.groups && b in cfg.groups[g] && DistinctIds(reqs)
      modifies this`log
      ensures log == old(log) + [Post(b, reqs)]
      ensures r.Sent? ==> AllReceived(cfg, w, g, reqs, r.res, |old(log)|, log)
      ensures r.Failed? ==> r.why == UnexpectedReply || r.why == Permanent
      ensures var reply := w.post(b, |old(log)|, reqs);
        && (r.Sent? <==> reply.Replied? && |reply.res| == |reqs|)
        && (r == Failed(Permanent) <==> reply.NetworkError? || reply.BadBody?)
    {
      var t := Moment(Post(b, reqs));
      var reply := w.post(b, t, reqs);
      match reply
      case NetworkError => return Failed(Permanent);
      case BadBody => return Failed(Permanent);
      case NotBatched => return Failed(UnexpectedReply);
      case Replied(res) =>
        if |res| != |reqs| {
          return Failed(UnexpectedReply);
        }
        var replies := new Res[|res|](i requires 0 <= i < |res| => res[i]);
        assert replies[..] == res;
        SortReplies(reqs, replies);
        ExchangeIsReceived(cfg, w, g, b, t, reqs, replies[..], |old(log)|, log);
        return Sent(replies[..]);
    }

    /** A backend: its gate, then the first try and the retries. */
    method ForwardTo(ghost g: string, b: nat, reqs: seq<Req>) returns (r: Forwarded)
      requires g in cfg.groups && b in cfg.groups[g] && DistinctIds(reqs)
      modifies this`log
      ensures old(log) < log && OnlyPosts(cfg, g, reqs, |old(log)|, log)
      ensures r.Sent? ==> AllReceived(cfg, w, g, reqs, r.res, |old(log)|, log)
      ensures r.Sent? ==> log[|log| - 1] == Post(b, reqs)
      ensures r.Failed? ==> r.why != Unserviceable && AskedInVain(cfg, w, b, reqs, |old(log)|, log)
      ensures forall m: nat | |old(log)| <= m < |log| && log[m].Post? :: log[m].backend == b
    {
      var t := Moment(TryGate(b));
      ghost var past := log;
      match w.gate(b, t)
      case Offline =>
        assert InVainAt(cfg, w, b, reqs, t, log);
        return Failed(IsOffline);
      case OverCapacity =>
        assert InVainAt(cfg, w, b, reqs, t, log);
        return Failed(IsOverCapacity);
      case Ready =>
        r := TryAll(g, b, reqs);
        if r.Sent? {
          AllReceivedLater(cfg, w, g, reqs, r.res, |past|, log, t, log);
        } else {
          assert InVainAt(cfg, w, b, reqs, t, log);
        }
    }

    /** The first try and the retries. */
    method TryAll(ghost g: string, b: nat, reqs: seq<Req>) returns (r: Forwarded)
      requires g in cfg.groups && b in cfg.groups[g] && DistinctIds(reqs)
      modifies this`log
      ensures old(log) < log && OnlyPosts(cfg, g, reqs, |old(log)|, log)
      ensures r.Sent? ==> AllReceived(cfg, w, g, reqs, r.res, |old(log)|, log)
      ensures forall m: nat | |old(log)| <= m < |log| :: log[m] == Post(b, reqs)
      ensures r.Failed? ==> (r.why == UnexpectedReply || r.why == Permanent)
                            && AllTriesFailed(cfg, w, b, reqs, |old(log)|, log)
    {
      r := Failed(Permanent);
      for i := 0 to cfg.maxRetries + 1
        invariant old(log) <= log && |log| == |old(log)| + i && r == Failed(Permanent)
        invariant forall m: nat | |old(log)| <= m < |log| :: log[m] == Post(b, reqs)
        invariant forall m: nat | |old(log)| <= m < |log| :: Transient(w.post(b, m, reqs))
      {
        ghost var past := log;
        r := DoForward(g, b, reqs);
        if r.Sent? {
          AllReceivedLater(cfg, w, g, reqs, r.res, |past|, log, |old(log)|, log);
          return;
        }
        if r.why == UnexpectedReply {
          assert TriesFailed(cfg, w, b, reqs, |old(log)|, i + 1, log);
          return;
        }
      }
      assert TriesFailed(cfg, w, b, reqs, |old(log)|, cfg.maxRetries + 1, log);
    }

    /** A backend group: the first backend that answers; otherwise the group is unserviceable. */
    method ForwardGroup(g: string, reqs: seq<Req>) returns (r: Forwarded)
      requires g in cfg.groups && DistinctIds(reqs) && ChoosesMembers(cfg, w)
      modifies this`log
      ensures old(log) <= log && OnlyPosts(cfg, g, reqs, |old(log)|, log)
      ensures r.Sent? ==> AllReceived(cfg, w, g, reqs, r.res, |old(log)|, log)
      ensures r.Failed? ==> r.why == Unserviceable && GroupFailed(cfg, w, g, reqs, |old(log)|, log)
      ensures reqs != [] && r.Sent? ==>
                Answered(cfg, w, if g in cfg.consensusAware then w.chosen(|old(log)|, g) else cfg.groups[g], reqs, |old(log)|, log)
      ensures g in cfg.consensusAware ==>
                forall m: nat | |old(log)| <= m < |log| && log[m].Post? :: log[m].backend in w.chosen(|old(log)|, g)
    {
      if |reqs| == 0 {
        return Sent([]);
      }
      var t := Moment(Choose(g));
      var backends := Candidates(cfg, w, g, t);
      for i := 0 to |backends|
        invariant old(log) < log && log[t] == Choose(g) && OnlyPosts(cfg, g, reqs, t, log)
        invariant forall k | 0 <= k < i :: AskedInVain(cfg, w, backends[k], reqs, t, log)
        invariant forall m: nat | t <= m < |log| && log[m].Post? :: log[m].backend in backends
      {
        ghost var past := log;
        assert backends[i] in backends;
        r := ForwardTo(g, backends[i], reqs);
        forall k | 0 <= k < i ensures AskedInVain(cfg, w, backends[k], reqs, t, log) {
          InVainLater(cfg, w, backends[k], reqs, t, past, t, log);
        }
        if r.Sent? {
          AllReceivedLater(cfg, w, g, reqs, r.res, |past|, log, t, log);
          assert FirstToAnswer(cfg, w, backends, reqs, t, i, log);
          return;
        }
        InVainLater(cfg, w, backends[i], reqs, |past|, log, t, log);
      }
      assert AllAskedInVain(cfg, w, g, reqs, t, log);
      return Failed(Unserviceable);
    }

    /** The value last polled for a method. */
    method ReadPolled(req: Req) returns (hit: Option<Res>)
      requires Valid() && req.name in POLLED
      modifies this`log
      ensures Valid() && old(log) <= log && NoPosts(|old(log)|, log)
      ensures hit.Some? ==> FromPoll(w, req, hit.value, |old(log)|, log)
    {
      var t := Moment(ReadPoll(req.name));
      SourcedLater(cfg, w, cache, old(log), log);
      var value := w.polled(t, req.name);
      if value.None? {
        return None;
      }
      assert log[t] == ReadPoll(req.name);
      return Some(Res(Some(req.id), Result(value)));
    }

    /** The result kept for a call that is alike, if the store can be read. */
    method ReadKept(req: Req) returns (hit: Option<Res>)
      requires Valid()
      modifies this`log
      ensures Valid() && old(log) <= log && NoPosts(|old(log)|, log)
      ensures hit.Some? ==> FromCache(cfg, w, req, hit.value, log)
      ensures hit.None? ==> IsMiss(cfg, w, cache, req, |old(log)|, log)
    {
      var t := Moment(ReadStore(req));
      SourcedLater(cfg, w, cache, old(log), log);
      if !w.readable(t) {
        assert log[t] == ReadStore(req);
        return None;
      }
      var key := (req.name, cfg.keyText(req.name, req.params));
      if key !in cache {
        return None;
      }
      assert AnsweredBefore(cfg, w, key.0, key.1, cache[key], log);
      return Some(Res(Some(req.id), Result(Some(cache[key]))));
    }

    /** What the cache answers: a polled value, or a result kept for a call that is alike. */
    method GetRpc(req: Req) returns (hit: Option<Res>)
      requires Valid()
      modifies this`log
      ensures Valid() && old(log) <= log && NoPosts(|old(log)|, log)
      ensures hit.Some? ==> FromCache(cfg, w, req, hit.value, log) || FromPoll(w, req, hit.value, |old(log)|, log)
      ensures hit.None? ==> IsMiss(cfg, w, cache, req, |old(log)|, log)
    {
      if req.name in POLLED {
        hit := ReadPolled(req);
      } else {
        hit := ReadKept(req);
      }
    }

    /** The cache may keep a result that is not null. */
    method PutRpc(req: Req, res: Res)
      requires Valid() && res.body.Result? && res.body.json.Some?
      requires Received(cfg, w, GroupOf(cfg, req.name), req, res, 0, log)
      modifies this
      ensures Valid() && old(log) <= log && NoPosts(|old(log)|, log)
    {
      if req.name in POLLED {
        return;
      }
      var t := Moment(Keep);
      SourcedLater(cfg, w, cache, old(log), log);
      if w.keeps(t) {
        KeptIsSourced(cfg, w, cache, req, res, old(log), log);
        cache := cache[(req.name, cfg.keyText(req.name, req.params)) := res.body.json.value];
      }
    }

    /** Only a result that is not null is handed to the cache. */
    method Offer(req: Req, res: Res)
      requires Valid() && (res.body.Result? ==> Received(cfg, w, GroupOf(cfg, req.name), req, res, 0, log))
      modifies this
      ensures Valid() && old(log) <= log && NoPosts(|old(log)|, log)
    {
      if res.body.Result? && res.body.json.Some? {
        PutRpc(req, res);
      }
    }

    /** Puts one reply into its slot, and hands it to the cache if it has a result. */
    method Place(calls: seq<Call>, g: string, e: Elem, res: Res, before: seq<Option<Res>>, ghost t0: nat)
      returns (slots: seq<Option<Res>>)
      requires Valid() && Stands(cfg, calls, g, e) && IsAnswer(cfg, w, g, e.req, res, t0, log)
      requires res.body.Result? ==> Received(cfg, w, g, e.req, res, t0, log)
      requires AllRight(cfg, w, calls, before, t0, log)
      modifies this
      ensures Valid() && old(log) <= log && NoPosts(|old(log)|, log)
      ensures slots == before[e.index := Some(res)] && AllRight(cfg, w, calls, slots, t0, log)
    {
      FillRight(cfg, w, calls, before, g, e, res, t0, log);
      slots := before[e.index := Some(res)];
      MayOffer(cfg, w, calls, g, e, res, t0, log);
      Offer(e.req, res);
      AllRightLater(cfg, w, calls, slots, t0, old(log), log);
    }

    /** Scatters the replies to a minibatch. */
    method Scatter(calls: seq<Call>, g: string, es: seq<Elem>, res: seq<Res>, before: seq<Option<Res>>, ghost t0: nat)
      returns (slots: seq<Option<Res>>)
      requires Valid() && AllStand(cfg, calls, g, es) && AllRight(cfg, w, calls, before, t0, log)
      requires AllAnswer(cfg, w, g, es, res, t0, log)
      modifies this
      ensures Valid() && old(log) <= log && NoPosts(|old(log)|, log)
      ensures AllRight(cfg, w, calls, slots, t0, log) && StaysFilled(before, slots) && Filled(es, |es|, slots)
    {
      slots := before;
      InRange(cfg, calls, g, es, slots);
      for k := 0 to |es|
        invariant Valid() && old(log) <= log && AllRight(cfg, w, calls, slots, t0, log)
        invariant StaysFilled(before, slots) && Filled(es, k, slots) && NoPosts(|old(log)|, log)
      {
        ghost var past := log;
        AllAnswerLater(cfg, w, g, es, res, t0, old(log), log, k);
        FillOne(es, k, before, slots, res[k]);
        slots := Place(calls, g, es[k], res[k], slots, t0);
        NoPostsJoin(|old(log)|, past, log);
      }
    }

    /** Forwards one minibatch and scatters what comes back: the answers in order, or one error per request. */
    method AnswerMinibatch(calls: seq<Call>, g: string, es: seq<Elem>, before: seq<Option<Res>>, ghost t0: nat)
      returns (slots: seq<Option<Res>>)
      requires Valid() && g in cfg.groups && AllStand(cfg, calls, g, es) && Distinct(es) && t0 <= |log|
      requires AllRight(cfg, w, calls, before, t0, log)
      modifies this
      ensures Valid() && old(log) <= log && PostsFrom(cfg, calls, |old(log)|, log)
      ensures AllRight(cfg, w, calls, slots, t0, log) && StaysFilled(before, slots) && Filled(es, |es|, slots)
    {
      ghost var past := log;
      var sent := ForwardGroup(g, Reqs(es));
      SourcedLater(cfg, w, cache, past, log);
      AllRightLater(cfg, w, calls, before, t0, past, log);
      var res: seq<Res>;
      if sent.Sent? {
        res := sent.res;
        AllReceivedLater(cfg, w, g, Reqs(es), res, |past|, log, t0, log);
        assert forall k | 0 <= k < |es| :: Received(cfg, w, g, Reqs(es)[k], res[k], t0, log) && Reqs(es)[k] == es[k].req;
      } else {
        res := seq(|es|, k requires 0 <= k < |es| => Res(Some(es[k].req.id), Error(NoBackends)));
        forall k | 0 <= k < |es| ensures Unanswered(cfg, w, g, es[k].req, t0, log) {
          assert Reqs(es)[k] == es[k].req;
          UnansweredLater(cfg, w, g, es[k].req, |past|, log, t0, log);
        }
      }
      BatchPostsAreOfCalls(cfg, calls, g, es, |past|, log);
      ghost var answered := log;
      slots := Scatter(calls, g, es, res, before, t0);
      NoPostsAreFine(cfg, calls, |answered|, log);
      PostsJoin(cfg, calls, |past|, answered, log);
    }

    /** Answers what the cache has; the rest are the misses, in order. */
    method AnswerHits(calls: seq<Call>, g: string, es: seq<Elem>, before: seq<Option<Res>>, ghost t0: nat)
      returns (slots: seq<Option<Res>>, misses: seq<Elem>)
      requires Valid() && AllStand(cfg, calls, g, es) && Distinct(es) && t0 <= |log|
      requires AllRight(cfg, w, calls, before, t0, log)
      modifies this`log
      ensures Valid() && old(log) <= log && NoPosts(|old(log)|, log)
      ensures AllRight(cfg, w, calls, slots, t0, log) && StaysFilled(before, slots)
      ensures AllStand(cfg, calls, g, misses) && Distinct(misses)
      ensures forall m | 0 <= m < |es| :: slots[es[m].index].Some? || es[m] in misses
      ensures (forall e | e in misses :: e in es) && NotCached(cfg, w, cache, misses, t0, log)
    {
      slots, misses := before, [];
      for k := 0 to |es|
        invariant Valid() && old(log) <= log && NoPosts(|old(log)|, log)
        invariant AllRight(cfg, w, calls, slots, t0, log) && StaysFilled(before, slots)
        invariant SortedOut(es, k, slots, misses) && NotCached(cfg, w, cache, misses, t0, log)
      {
        assert Stands(cfg, calls, g, es[k]);
        ghost var past := log;
        var hit := GetRpc(es[k].req);
        NoPostsJoin(|old(log)|, past, log);
        AllRightLater(cfg, w, calls, slots, t0, past, log);
        NotCachedLater(cfg, w, cache, misses, t0, past, log);
        if hit.Some? {
          HitIsAnswer(cfg, w, g, es[k].req, hit.value, t0, |past|, log);
          FillRight(cfg, w, calls, slots, g, es[k], hit.value, t0, log);
          SortOutHit(es, k, slots, misses, hit.value);
          slots := slots[es[k].index := hit];
        } else {
          SortOutMiss(es, k, slots, misses);
          OneMoreMiss(cfg, w, cache, misses, es[k], t0, |past|, log);
          misses := misses + [es[k]];
        }
      }
      MissesStand(cfg, calls, g, es, slots, misses);
    }

    /** Sends the misses out, one minibatch after the other. */
    method AnswerMisses(calls: seq<Call>, g: string, misses: seq<Elem>, before: seq<Option<Res>>, ghost t0: nat)
      returns (slots: seq<Option<Res>>, timedOut: bool)
      requires Valid() && g in cfg.groups && AllStand(cfg, calls, g, misses) && Distinct(misses) && t0 <= |log|
      requires AllRight(cfg, w, calls, before, t0, log)
      modifies this
      ensures Valid() && old(log) <= log && PostsFrom(cfg, calls, |old(log)|, log)
      ensures AllRight(cfg, w, calls, slots, t0, log) && StaysFilled(before, slots)
      ensures !timedOut ==> Filled(misses, |misses|, slots)
      ensures timedOut ==> exists t: nat | |old(log)| <= t < |log| :: log[t] == ReadClock && w.expired(t)
    {
      slots, timedOut := before, false;
      var numBatches := NumBatches(|misses|, cfg.maxUpstream);
      for i := 0 to numBatches
        invariant Valid() && old(log) <= log && PostsFrom(cfg, calls, |old(log)|, log)
        invariant AllRight(cfg, w, calls, slots, t0, log) && StaysFilled(before, slots)
        invariant BatchesFilled(misses, cfg.maxUpstream, i, slots)
      {
        ghost var past := log;
        var t := Moment(ReadClock);
        SourcedLater(cfg, w, cache, past, log);
        AllRightLater(cfg, w, calls, slots, t0, past, log);
        NoPostsAreFine(cfg, calls, |past|, log);
        PostsJoin(cfg, calls, |old(log)|, past, log);
        if w.expired(t) {
          timedOut := true;
          return;
        }
        var elems := Minibatch(misses, cfg.maxUpstream, i);
        MinibatchStands(cfg, calls, g, misses, cfg.maxUpstream, i);
        ghost var soFar := slots;
        past := log;
        slots := AnswerMinibatch(calls, g, elems, slots, t0);
        PostsJoin(cfg, calls, |old(log)|, past, log);
        OneMoreBatch(misses, cfg.maxUpstream, i, soFar, slots);
      }
      AllBatchesFilled(misses, cfg.maxUpstream, slots);
    }

    /** One group: cache hits are answered at once, the misses go out in minibatches. */
    method AnswerGroup(calls: seq<Call>, g: string, es: seq<Elem>, before: seq<Option<Res>>, ghost t0: nat)
      returns (slots: seq<Option<Res>>, timedOut: bool)
      requires Valid() && g in cfg.groups && AllStand(cfg, calls, g, es) && Distinct(es) && t0 <= |log|
      requires AllRight(cfg, w, calls, before, t0, log)
      modifies this
      ensures Valid() && old(log) <= log && PostsFrom(cfg, calls, |old(log)|, log)
      ensures AllRight(cfg, w, calls, slots, t0, log) && StaysFilled(before, slots)
      ensures !timedOut ==> forall k | 0 <= k < |es| :: slots[es[k].index].Some?
      ensures timedOut ==> exists t: nat | |old(log)| <= t < |log| :: log[t] == ReadClock && w.expired(t)
    {
      var misses: seq<Elem>;
      slots, misses := AnswerHits(calls, g, es, before, t0);
      ghost var past := log;
      NoPostsAreFine(cfg, calls, |old(log)|, log);
      slots, timedOut := AnswerMisses(calls, g, misses, slots, t0);
      PostsJoin(cfg, calls, |old(log)|, past, log);
    }

    /**
     A client batch. Unless the deadline passes, every slot is filled, and slot `i` holds the proxy's own reply to
     call `i`, a reply received for call `i` while the batch was handled, a polled or cached result for it, or the
     failure of a group whose every chosen backend was asked in vain meanwhile. Groups are taken in any order.
     */
    method HandleBatch(calls: seq<Call>) returns (slots: seq<Option<Res>>, timedOut: bool)
      requires Valid()
      modifies this
      ensures Valid() && old(log) <= log && PostsFrom(cfg, calls, |old(log)|, log)
      ensures timedOut ==> exists t: nat | |old(log)| <= t < |log| :: log[t] == ReadClock && w.expired(t)
      ensures !timedOut ==>
                && |slots| == |calls|
                && forall j | 0 <= j < |calls| ::
                     && slots[j].Some? && IsRight(cfg, w, calls[j], slots[j].value, |old(log)|, log)
                     && SlotMeans(cfg, w, calls[j], slots[j].value, |old(log)|, log)
    {
      var batches: map<GroupKey, seq<Elem>>;
      slots, batches := Split(calls);
      timedOut := false;
      var todo := batches.Keys;
      while todo != {}
        invariant todo <= batches.Keys && Valid() && old(log) <= log
        invariant AllRight(cfg, w, calls, slots, |old(log)|, log)
        invariant Outstanding(cfg, calls, slots, todo) && PostsFrom(cfg, calls, |old(log)|, log)
        decreases |todo|
      {
        ghost var past := log;
        var key :| key in todo;
        GroupsHaveDistinctIds(cfg, calls, |calls|, key);
        ElemsStand(cfg, calls, |calls|, key);
        ghost var before := slots;
        slots, timedOut := AnswerGroup(calls, key.backendGroup, batches[key], slots, |old(log)|);
        PostsJoin(cfg, calls, |old(log)|, past, log);
        if timedOut {
          return;
        }
        GroupIsDone(cfg, calls, before, slots, todo, key);
        todo := todo - {key};
      }
      forall j | 0 <= j < |calls| ensures SlotMeans(cfg, w, calls[j], slots[j].value, |old(log)|, log) {
        RightMeans(cfg, w, calls[j], slots[j].value, |old(log)|, log);
      }
    }

    /** The first pass: answers what the proxy answers itself, and groups the rest. */
    method Split(calls: seq<Call>) returns (slots: seq<Option<Res>>, batches: map<GroupKey, seq<Elem>>)
      requires Valid()
      ensures AllRight(cfg, w, calls, slots, |log|, log)
      ensures |slots| == |calls| && forall j | 0 <= j < |calls| :: OwnReplyExactly(cfg, calls[j], slots[j])
      ensures LocalsFilled(cfg, calls, slots, |calls|) && GroupsComplete(cfg, calls, batches)
      ensures Outstanding(cfg, calls, slots, batches.Keys)
    {
      slots, batches := seq(|calls|, i => None), map[];
      var ids: map<string, nat> := map[];
      for i := 0 to |calls|
        invariant Sorting(slots, ids, batches) == SortAll(cfg, calls, i)
      {
        var route := Classify(cfg, calls[i]);
        if route.Local? {
          slots := slots[i := Some(route.res)];
        } else {
          var req := calls[i].parsed.value;
          var key := GroupKey(Count(ids, req.id) + 1, route.group);
          ids := ids[req.id := Count(ids, req.id) + 1];
          batches := batches[key := Batch(batches, key) + [Elem(req, i)]];
        }
      }
      FirstPassDone(cfg, w, calls, log);
      OwnReplies(cfg, calls, slots);
    }
  }

  /** The slots, the id counts and the groups of the first pass. */
  datatype Sorting = Sorting(slots: seq<Option<Res>>, ids: map<string, nat>, batches: map<GroupKey, seq<Elem>>)

  /** One call of the first pass: the proxy's own reply goes to its slot, any other call to a group. */
  function SortOne(cfg: Config, s: Sorting, c: Call, i: nat): (r: Sorting)
    requires i < |s.slots|
    ensures |r.slots| == |s.slots|
  {
    if !Routed(cfg, c) then s.(slots := s.slots[i := Some(Classify(cfg, c).res)])
    else
      var req, n := ReqOf(cfg, c), Count(s.ids, ReqOf(cfg, c).id) + 1;
      var key := GroupKey(n, Classify(cfg, c).group);
      s.(ids := s.ids[req.id := n], batches := s.batches[key := Batch(s.batches, key) + [Elem(req, i)]])
  }

  /** The first pass over the first `i` calls. */
  function SortAll(cfg: Config, calls: seq<Call>, i: nat): (s: Sorting)
    requires i <= |calls|
    ensures |s.slots| == |calls|
  {
    if i == 0 then Sorting(seq(|calls|, j => None), map[], map[])
    else SortOne(cfg, SortAll(cfg, calls, i - 1), calls[i - 1], i - 1)
  }

  lemma SortOneKeeps(cfg: Config, calls: seq<Call>, i: nat, s: Sorting)
    requires i < |calls| && ValidConfig(cfg) && SplitUpTo(cfg, calls, i, s)
    ensures SplitUpTo(cfg, calls, i + 1, SortOne(cfg, s, calls[i], i))
  {
    if Routed(cfg, calls[i]) {
      SplitRouted(cfg, calls, i, s);
    } else {
      SkipLocal(cfg, calls, i, s.ids, s.batches);
    }
  }

  lemma {:induction false} SortAllMeaning(cfg: Config, calls: seq<Call>, i: nat)
    requires ValidConfig(cfg) && i <= |calls|
    ensures SplitUpTo(cfg, calls, i, SortAll(cfg, calls, i))
  {
    if i == 0 {
      SplitStart(cfg, calls, SortAll(cfg, calls, 0).slots);
    } else {
      SortAllMeaning(cfg, calls, i - 1);
      SortOneKeeps(cfg, calls, i - 1, SortAll(cfg, calls, i - 1));
    }
  }

  /** What the first pass leaves: own replies in their slots, and every other call in its group. */
  lemma FirstPassDone(cfg: Config, w: Wire, calls: seq<Call>, log: seq<Use>)
    requires ValidConfig(cfg)
    ensures var s := SortAll(cfg, calls, |calls|);
      && AllRight(cfg, w, calls, s.slots, |log|, log)
      && LocalsFilled(cfg, calls, s.slots, |calls|)
      && GroupsComplete(cfg, calls, s.batches)
      && Outstanding(cfg, calls, s.slots, s.batches.Keys)
  {
    SortAllMeaning(cfg, calls, |calls|);
    var s := SortAll(cfg, calls, |calls|);
    assert forall key | key in s.batches :: s.batches[key] == Batch(s.batches, key);
  }

  lemma OwnReplies(cfg: Config, calls: seq<Call>, slots: seq<Option<Res>>)
    requires LocalsFilled(cfg, calls, slots, |calls|)
    ensures forall j | 0 <= j < |calls| :: OwnReplyExactly(cfg, calls[j], slots[j])
  {
    forall j | 0 <= j < |calls| ensures OwnReplyExactly(cfg, calls[j], slots[j]) {
      ChecksDecide(cfg, calls[j], slots[j]);
    }
  }

  ghost predicate GroupsComplete(cfg: Config, calls: seq<Call>, batches: map<GroupKey, seq<Elem>>) {
    forall key | key in batches :: batches[key] == Elems(cfg, calls, |calls|, key) && key.backendGroup in cfg.groups
  }

  ghost predicate SplitUpTo(cfg: Config, calls: seq<Call>, i: nat, s: Sorting) {
    && LocalsFilled(cfg, calls, s.slots, i)
    && IdCountsMatch(cfg, calls, i, s.ids) && BatchesMatch(cfg, calls, i, s.batches)
    && KeysKnown(cfg, calls, i, s.batches.Keys)
  }

  lemma SplitStart(cfg: Config, calls: seq<Call>, slots: seq<Option<Res>>)
    requires |slots| == |calls| && forall j | 0 <= j < |calls| :: slots[j] == None
    ensures SplitUpTo(cfg, calls, 0, Sorting(slots, map[], map[]))
  {
  }

  lemma SplitRouted(cfg: Config, calls: seq<Call>, i: nat, s: Sorting)
    requires SplitUpTo(cfg, calls, i, s) && i < |calls| && Routed(cfg, calls[i]) && ValidConfig(cfg)
    ensures SplitUpTo(cfg, calls, i + 1, SortOne(cfg, s, calls[i], i))
  {
    AddRouted(cfg, calls, i, s.ids, s.batches);
    KeyIsAdded(cfg, calls, i, s.batches.Keys);
    assert SortOne(cfg, s, calls[i], i).batches.Keys == s.batches.Keys + {KeyOf(cfg, calls, i)};
  }

  lemma KeyIsAdded(cfg: Config, calls: seq<Call>, i: nat, keys: set<GroupKey>)
    requires i < |calls| && KeysKnown(cfg, calls, i, keys) && Routed(cfg, calls[i]) && ValidConfig(cfg)
    ensures KeysKnown(cfg, calls, i + 1, keys + {KeyOf(cfg, calls, i)})
  {
  }

  /** The calls among the first `i` that the proxy answers itself have their replies; no other slot is filled. */
  ghost predicate LocalsFilled(cfg: Config, calls: seq<Call>, slots: seq<Option<Res>>, i: nat) {
    && |slots| == |calls| && i <= |calls|
    && forall j | 0 <= j < |calls| ::
         slots[j] == if j < i && !Routed(cfg, calls[j]) then Some(Classify(cfg, calls[j]).res) else None
  }

  ghost predicate KeysKnown(cfg: Config, calls: seq<Call>, i: nat, keys: set<GroupKey>)
    requires i <= |calls|
  {
    && (forall key | key in keys :: key.backendGroup in cfg.groups)
    && (forall j | 0 <= j < i && Routed(cfg, calls[j]) :: KeyOf(cfg, calls, j) in keys)
  }

  /** The slots still empty are of forwarded calls whose groups are in `todo`. */
  ghost predicate Outstanding(cfg: Config, calls: seq<Call>, slots: seq<Option<Res>>, todo: set<GroupKey>) {
    && |slots| == |calls|
    && forall j | 0 <= j < |calls| && slots[j].None? :: Routed(cfg, calls[j]) && KeyOf(cfg, calls, j) in todo
  }

  lemma GroupIsDone(cfg: Config, calls: seq<Call>, before: seq<Option<Res>>, slots: seq<Option<Res>>,
                    todo: set<GroupKey>, key: GroupKey)
    requires Outstanding(cfg, calls, before, todo) && StaysFilled(before, slots)
    requires AllStand(cfg, calls, key.backendGroup, Elems(cfg, calls, |calls|, key))
    requires forall k | 0 <= k < |Elems(cfg, calls, |calls|, key)| :: slots[Elems(cfg, calls, |calls|, key)[k].index].Some?
    ensures Outstanding(cfg, calls, slots, todo - {key})
  {
    forall j | 0 <= j < |calls| && slots[j].None? ensures Routed(cfg, calls[j]) && KeyOf(cfg, calls, j) in todo - {key} {
      assert before[j].None?;
      if KeyOf(cfg, calls, j) == key {
        EveryCallIsGrouped(cfg, calls, |calls|, j);
        assert false;
      }
    }
  }

  /** Of the first `k` elements each is answered or is a miss, and the misses are distinct elements among them. */
  ghost predicate SortedOut(es: seq<Elem>, k: nat, slots: seq<Option<Res>>, misses: seq<Elem>) {
    && k <= |es| && Distinct(misses)
    && (forall i | 0 <= i < |es| :: es[i].index < |slots|)
    && (forall m | 0 <= m < |misses| :: misses[m] in es[..k])
    && (forall m | 0 <= m < k :: slots[es[m].index].Some? || es[m] in misses)
  }

  lemma SortOutHit(es: seq<Elem>, k: nat, slots: seq<Option<Res>>, misses: seq<Elem>, res: Res)
    requires SortedOut(es, k, slots, misses) && k < |es|
    ensures SortedOut(es, k + 1, slots[es[k].index := Some(res)], misses)
  {
    assert es[..k + 1] == es[..k] + [es[k]];
  }

  lemma SortOutMiss(es: seq<Elem>, k: nat, slots: seq<Option<Res>>, misses: seq<Elem>)
    requires SortedOut(es, k, slots, misses) && k < |es| && Distinct(es)
    ensures SortedOut(es, k + 1, slots, misses + [es[k]])
  {
    assert es[..k + 1] == es[..k] + [es[k]];
    forall a | 0 <= a < |misses| ensures misses[a].req.id != es[k].req.id {
      assert misses[a] in es[..k];
      var i :| 0 <= i < k && es[..k][i] == misses[a];
    }
  }

  lemma MissesStand(cfg: Config, calls: seq<Call>, g: string, es: seq<Elem>, slots: seq<Option<Res>>, misses: seq<Elem>)
    requires SortedOut(es, |es|, slots, misses) && AllStand(cfg, calls, g, es)
    ensures AllStand(cfg, calls, g, misses) && forall e | e in misses :: e in es
  {
    assert es[..|es|] == es;
  }

  lemma HitIsAnswer(cfg: Config, w: Wire, g: string, req: Req, res: Res, t0: nat, t: nat, log: seq<Use>)
    requires (FromCache(cfg, w, req, res, log) || FromPoll(w, req, res, t, log)) && t0 <= t
    ensures IsAnswer(cfg, w, g, req, res, t0, log)
  {
    if FromPoll(w, req, res, t, log) {
      FromPollLater(w, req, res, t, log, t0, log);
    }
  }

  lemma AllReceivedLater(cfg: Config, w: Wire, g: string, reqs: seq<Req>, res: seq<Res>, s0: nat, past: seq<Use>, t0: nat, log: seq<Use>)
    requires AllReceived(cfg, w, g, reqs, res, s0, past) && t0 <= s0 && past <= log
    ensures AllReceived(cfg, w, g, reqs, res, t0, log)
  {
    forall i | 0 <= i < |reqs| ensures Received(cfg, w, g, reqs[i], res[i], t0, log) {
      ReceivedLater(cfg, w, g, reqs[i], res[i], s0, past, t0, log);
    }
  }

  /* ---- Nodes that always answer alike ---- */

  /** The replies are what `nodes` answers, each once; alike calls and polled values have the same answer. */
  ghost predicate SameAnswers(cfg: Config, nodes: Nodes, w: Wire) {
    && (forall g: string, req: Req, res: Res, b: nat, t: nat, reqs: seq<Req> ::
          ReplyAt(cfg, w, g, req, res, b, t, reqs) ==>
            IdsMatch(reqs, w.post(b, t, reqs).res) && res.id.Some? && res.body == nodes(g, req.name, req.params))
    && (forall name: string, p: string, q: string | cfg.keyText(name, p) == cfg.keyText(name, q) ::
          nodes(GroupOf(cfg, name), name, p) == nodes(GroupOf(cfg, name), name, q))
    && (forall name: string, p: string, t: nat | w.polled(t, name).Some? ::
          nodes(GroupOf(cfg, name), name, p) == Result(w.polled(t, name)))
  }

  /** With such nodes a batch is answered as its calls would be one by one, but for groups that failed. */
  lemma RightIsIndividual(cfg: Config, nodes: Nodes, w: Wire, c: Call, res: Res, t0: nat, log: seq<Use>)
    requires SameAnswers(cfg, nodes, w) && IsRight(cfg, w, c, res, t0, log)
    ensures || res == Individually(cfg, nodes, c)
            || (c.parsed.Some? && res == Res(Some(c.parsed.value.id), Error(NoBackends))
                && Unanswered(cfg, w, GroupOf(cfg, c.parsed.value.name), c.parsed.value, t0, log))
  {
    if Routed(cfg, c) {
      var req, g := c.parsed.value, GroupOf(cfg, c.parsed.value.name);
      if Received(cfg, w, g, req, res, t0, log) {
        var b: nat, t: nat, reqs: seq<Req> :|
          t0 <= t < |log| && log[t] == Post(b, reqs) && ReplyAt(cfg, w, g, req, res, b, t, reqs);
      } else if FromCache(cfg, w, req, res, log) {
        CachedIsIndividual(cfg, nodes, w, req, res, log);
      }
    }
  }

  lemma CachedIsIndividual(cfg: Config, nodes: Nodes, w: Wire, req: Req, res: Res, log: seq<Use>)
    requires SameAnswers(cfg, nodes, w) && FromCache(cfg, w, req, res, log)
    ensures res.body == nodes(GroupOf(cfg, req.name), req.name, req.params)
  {
    var json, g := res.body.json.value, GroupOf(cfg, req.name);
    var first: Req, id: Option<string> :|
      && first.name == req.name && cfg.keyText(req.name, first.params) == cfg.keyText(req.name, req.params)
      && Received(cfg, w, g, first, Res(id, Result(Some(json))), 0, log);
    var b: nat, t: nat, reqs: seq<Req> :|
      0 <= t < |log| && log[t] == Post(b, reqs) && ReplyAt(cfg, w, g, first, Res(id, Result(Some(json))), b, t, reqs);
  }
}
