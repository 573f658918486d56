/** The account manager's cache of wallets, kept sorted by URL while backends report arrivals and departures. */
module Wallets {

  datatype URL = URL(scheme: string, path: string)
  datatype Wallet = Wallet(url: URL, id: nat)

  /** Lexicographic comparison: -1, 0 or 1. */
  function Compare(s: string, t: string): int {
    if s == [] && t == [] then 0
    else if s == [] then -1
    else if t == [] then 1
    else if s[0] < t[0] then -1
    else if s[0] > t[0] then 1
    else Compare(s[1..], t[1..])
  }

  function Cmp(u: URL, v: URL): int {
    if u.scheme == v.scheme then Compare(u.path, v.path) else Compare(u.scheme, v.scheme)
  }

  lemma {:induction false} CompareTotal(s: string, t: string)
    ensures Compare(s, t) == -Compare(t, s) && -1 <= Compare(s, t) <= 1
    ensures Compare(s, t) == 0 <==> s == t
  {
    if s != [] && t != [] && s[0] == t[0] {
      CompareTotal(s[1..], t[1..]);
      assert s == [s[0]] + s[1..] && t == [t[0]] + t[1..];
    }
  }

  lemma {:induction false} CompareTransitive(s: string, t: string, u: string)
    requires Compare(s, t) <= 0 && Compare(t, u) <= 0
    ensures Compare(s, u) <= 0 && (Compare(s, u) == 0 ==> Compare(s, t) == 0 && Compare(t, u) == 0)
  {
    if s != [] && t != [] && u != [] && s[0] == t[0] == u[0] {
      CompareTransitive(s[1..], t[1..], u[1..]);
    }
  }

  /** URLs are totally ordered, and compare equal only when they are equal. */
  /** `s` and `t` agree up to `i`, where `s` ends or has the smaller character. */
  predicate SmallerAt(s: string, t: string, i: nat) {
    i <= |s| && i < |t| && s[..i] == t[..i] && (i == |s| || s[i] < t[i])
  }

  ghost predicate Smaller(s: string, t: string) {
    exists i: nat :: SmallerAt(s, t, i)
  }

  lemma SmallerTail(s: string, t: string, i: nat)
    requires s != [] && t != [] && s[0] == t[0]
    ensures SmallerAt(s, t, i + 1) <==> SmallerAt(s[1..], t[1..], i)
  {
    if i + 1 <= |s| && i + 1 < |t| {
      assert s[..i + 1] == [s[0]] + s[1..][..i] && t[..i + 1] == [t[0]] + t[1..][..i];
    }
  }

  lemma {:induction false} CompareMeaning(s: string, t: string)
    ensures Compare(s, t) < 0 <==> Smaller(s, t)
  {
    if t != [] && (s == [] || s[0] != t[0]) {
      assert SmallerAt(s, t, 0) <==> s == [] || s[0] < t[0];
    } else if s != [] && t != [] {
      CompareMeaning(s[1..], t[1..]);
      forall i: nat ensures SmallerAt(s, t, i + 1) <==> SmallerAt(s[1..], t[1..], i) {
        SmallerTail(s, t, i);
      }
      if Smaller(s, t) {
        var i: nat :| SmallerAt(s, t, i);
        assert SmallerAt(s[1..], t[1..], i - 1);
      }
      if Smaller(s[1..], t[1..]) {
        var i: nat :| SmallerAt(s[1..], t[1..], i);
        assert SmallerAt(s, t, i + 1);
      }
    }
  }

  /** The scheme decides, whatever the paths; only equal schemes leave it to the paths. */
  lemma SchemeFirst(u: URL, v: URL)
    ensures Cmp(u, v) < 0 <==> Smaller(u.scheme, v.scheme) || (u.scheme == v.scheme && Smaller(u.path, v.path))
  {
    CompareMeaning(u.scheme, v.scheme);
    CompareMeaning(u.path, v.path);
    CompareTotal(u.scheme, v.scheme);
  }

  lemma CmpOrder(u: URL, v: URL, w: URL)
    ensures Cmp(u, v) == -Cmp(v, u) && (Cmp(u, v) == 0 <==> u == v)
    ensures Cmp(u, v) <= 0 && Cmp(v, w) <= 0 ==> Cmp(u, w) <= 0
  {
    CompareTotal(u.scheme, v.scheme);
    CompareTotal(u.path, v.path);
    CompareTotal(v.scheme, w.scheme);
    if Cmp(u, v) <= 0 && Cmp(v, w) <= 0 {
      if u.scheme == v.scheme && v.scheme == w.scheme {
        CompareTransitive(u.path, v.path, w.path);
      } else {
        CompareTotal(u.scheme, w.scheme);
        CompareTransitive(u.scheme, v.scheme, w.scheme);
      }
    }
  }

  predicate Sorted(s: seq<Wallet>) {
    forall i, j | 0 <= i < j < |s| :: Cmp(s[i].url, s[j].url) <= 0
  }

  function Urls(s: seq<Wallet>): (r: seq<URL>)
    ensures |r| == |s| && forall i | 0 <= i < |s| :: r[i] == s[i].url
  {
    seq(|s|, i requires 0 <= i < |s| => s[i].url)
  }

  function UrlBag(s: seq<Wallet>): multiset<URL> {
    multiset(Urls(s))
  }

  /** `n` is the first place whose URL is not below `u`. */
  predicate IsPlace(s: seq<Wallet>, u: URL, n: nat) {
    && n <= |s|
    && (forall i | 0 <= i < n :: Cmp(s[i].url, u) < 0)
    && (forall i | n <= i < |s| :: Cmp(s[i].url, u) >= 0)
  }

  function Place(s: seq<Wallet>, u: URL): (n: nat)
    ensures n <= |s|
  {
    if s == [] || Cmp(s[0].url, u) >= 0 then 0 else 1 + Place(s[1..], u)
  }

  lemma {:induction false} PlaceIsPlace(s: seq<Wallet>, u: URL)
    requires Sorted(s)
    ensures IsPlace(s, u, Place(s, u))
  {
    if s != [] {
      if Cmp(s[0].url, u) >= 0 {
        forall i | 0 < i < |s| ensures Cmp(s[i].url, u) >= 0 {
          CmpOrder(u, s[0].url, s[i].url);
          CmpOrder(s[i].url, u, u);
        }
      } else {
        PlaceIsPlace(s[1..], u);
        var n := Place(s[1..], u);
        forall i | 0 <= i < |s| ensures i < n + 1 <==> Cmp(s[i].url, u) < 0 {
          if i > 0 {
            assert s[i] == s[1..][i - 1];
          }
        }
      }
    }
  }

  /** The binary search. */
  method Search(s: seq<Wallet>, u: URL) returns (n: nat)
    requires Sorted(s)
    ensures n == Place(s, u) && IsPlace(s, u, n)
  {
    PlaceIsPlace(s, u);
    var lo, hi := 0, |s|;
    while lo < hi
      invariant 0 <= lo <= Place(s, u) <= hi <= |s|
    {
      var mid := (lo + hi) / 2;
      if Cmp(s[mid].url, u) < 0 {
        lo := mid + 1;
      } else {
        hi := mid;
      }
    }
    n := lo;
  }

  function MergeOne(s: seq<Wallet>, w: Wallet): seq<Wallet> {
    s[..Place(s, w.url)] + [w] + s[Place(s, w.url)..]
  }

  function DropOne(s: seq<Wallet>, w: Wallet): seq<Wallet> {
    var n := Place(s, w.url);
    if n == |s| then s else s[..n] + s[n + 1..]
  }

  lemma {:induction false} MergeKeepsSorted(s: seq<Wallet>, w: Wallet)
    requires Sorted(s)
    ensures Sorted(MergeOne(s, w))
  {
    var n := Place(s, w.url);
    PlaceIsPlace(s, w.url);
    forall i | n <= i < |s| ensures Cmp(w.url, s[i].url) <= 0 {
      CmpOrder(w.url, s[i].url, w.url);
    }
  }

  lemma {:induction false} MergeBag(s: seq<Wallet>, w: Wallet)
    ensures multiset(MergeOne(s, w)) == multiset(s) + multiset{w}
  {
    var n := Place(s, w.url);
    assert s == s[..n] + s[n..];
  }

  lemma {:induction false} MergeUrlBag(s: seq<Wallet>, w: Wallet)
    ensures UrlBag(MergeOne(s, w)) == UrlBag(s) + multiset{w.url}
  {
    var n := Place(s, w.url);
    assert Urls(MergeOne(s, w)) == Urls(s)[..n] + [w.url] + Urls(s)[n..];
    assert Urls(s) == Urls(s)[..n] + Urls(s)[n..];
  }

  lemma {:induction false} DropKeepsSorted(s: seq<Wallet>, w: Wallet)
    requires Sorted(s)
    ensures Sorted(DropOne(s, w))
  {
  }

  lemma {:induction false} DropBag(s: seq<Wallet>, w: Wallet)
    requires Place(s, w.url) < |s|
    ensures UrlBag(DropOne(s, w)) == UrlBag(s) - multiset{s[Place(s, w.url)].url}
  {
    var n := Place(s, w.url);
    assert Urls(DropOne(s, w)) == Urls(s)[..n] + Urls(s)[n + 1..];
    assert Urls(s) == Urls(s)[..n] + [s[n].url] + Urls(s)[n + 1..];
  }

  /** A URL in the cache is found at its place. */
  lemma {:induction false} PresentAtPlace(s: seq<Wallet>, u: URL, i: nat)
    requires Sorted(s) && i < |s| && s[i].url == u
    ensures Place(s, u) <= i && s[Place(s, u)].url == u
  {
    PlaceIsPlace(s, u);
    CmpOrder(u, u, u);
    var n := Place(s, u);
    CmpOrder(s[n].url, u, u);
    assert n < i ==> Cmp(s[n].url, s[i].url) <= 0;
  }

  lemma {:induction false} OtherBag(bag: multiset<URL>, u: URL, other: URL)
    requires other in bag && u !in bag
    ensures bag - multiset{other} != bag - multiset{u}
  {
    assert (bag - multiset{other})[other] == bag[other] - 1;
    assert (bag - multiset{u})[other] == bag[other];
  }

  /**
   Dropping a wallet takes away its URL and nothing else exactly when the URL is in the cache or every URL in
   the cache is below it. Otherwise the wallet with the next higher URL is removed instead.
   */
  lemma {:induction false} DropRemovesUrlIff(s: seq<Wallet>, w: Wallet)
    requires Sorted(s)
    ensures UrlBag(DropOne(s, w)) == UrlBag(s) - multiset{w.url} <==>
            w.url in Urls(s) || forall i | 0 <= i < |s| :: Cmp(s[i].url, w.url) < 0
  {
    var n := Place(s, w.url);
    PlaceIsPlace(s, w.url);
    if w.url in Urls(s) {
      var i: nat :| i < |s| && Urls(s)[i] == w.url;
      PresentAtPlace(s, w.url, i);
      DropBag(s, w);
    } else if n < |s| {
      DropBag(s, w);
      assert Urls(s)[n] == s[n].url;
      OtherBag(UrlBag(s), w.url, s[n].url);
    } else {
      assert UrlBag(s) - multiset{w.url} == UrlBag(s);
    }
  }

  /** The departure of an unknown wallet removes another one. */
  lemma DropRemovesAnother()
    ensures var s := [Wallet(URL("ledger", "b"), 1)];
            DropOne(s, Wallet(URL("ledger", "a"), 2)) == []
  {
    var s := [Wallet(URL("ledger", "b"), 1)];
    var u := URL("ledger", "a");
    assert Cmp(s[0].url, u) == Compare("b", "a") == 1;
    assert Place(s, u) == 0;
  }

  /* ---- The update loop ---- */

  datatype Event = Arrived(wallet: Wallet) | Dropped(wallet: Wallet)

  function Handle(s: seq<Wallet>, e: Event): seq<Wallet> {
    match e
    case Arrived(w) => MergeOne(s, w)
    case Dropped(w) => DropOne(s, w)
  }

  function HandleAll(s: seq<Wallet>, es: seq<Event>): seq<Wallet> {
    if es == [] then s else Handle(HandleAll(s, es[..|es| - 1]), es[|es| - 1])
  }

  function MergeAll(s: seq<Wallet>, ws: seq<Wallet>): seq<Wallet> {
    if ws == [] then s else MergeOne(MergeAll(s, ws[..|ws| - 1]), ws[|ws| - 1])
  }

  function DropAll(s: seq<Wallet>, ws: seq<Wallet>): seq<Wallet> {
    if ws == [] then s else DropOne(DropAll(s, ws[..|ws| - 1]), ws[|ws| - 1])
  }

  lemma {:induction false} MergeAllStep(s: seq<Wallet>, ws: seq<Wallet>, k: nat)
    requires k < |ws|
    ensures MergeAll(s, ws[..k + 1]) == MergeOne(MergeAll(s, ws[..k]), ws[k])
    ensures DropAll(s, ws[..k + 1]) == DropOne(DropAll(s, ws[..k]), ws[k])
  {
    assert ws[..k + 1][..k] == ws[..k] && ws[..k + 1][k] == ws[k];
  }

  lemma {:induction false} AllOfOne(s: seq<Wallet>, w: Wallet)
    ensures MergeAll(s, [w]) == MergeOne(s, w) && DropAll(s, [w]) == DropOne(s, w)
  {
    assert [w][..0] == [] && [w][..1] == [w];
    MergeAllStep(s, [w], 0);
  }

  /** Merging loses and invents no wallet. */
  lemma {:induction false} MergeAllBag(s: seq<Wallet>, ws: seq<Wallet>)
    ensures multiset(MergeAll(s, ws)) == multiset(s) + multiset(ws)
  {
    if ws != [] {
      var front, w := ws[..|ws| - 1], ws[|ws| - 1];
      MergeAllBag(s, front);
      MergeBag(MergeAll(s, front), w);
      assert ws == front + [w];
    }
  }

  function ArrivedBag(es: seq<Event>): multiset<URL> {
    if es == [] then multiset{}
    else
      var e := es[|es| - 1];
      ArrivedBag(es[..|es| - 1]) + if e.Arrived? then multiset{e.wallet.url} else multiset{}
  }

  function DroppedBag(es: seq<Event>): multiset<URL> {
    if es == [] then multiset{}
    else
      var e := es[|es| - 1];
      DroppedBag(es[..|es| - 1]) + if e.Dropped? then multiset{e.wallet.url} else multiset{}
  }

  /** Whenever a wallet is reported as gone, its URL is in the cache. */
  ghost predicate DropsArePresent(s: seq<Wallet>, es: seq<Event>) {
    forall k | 0 <= k < |es| && es[k].Dropped? :: es[k].wallet.url in UrlBag(HandleAll(s, es[..k]))
  }

  lemma {:induction false} DropsPresentBefore(s: seq<Wallet>, es: seq<Event>)
    requires es != [] && DropsArePresent(s, es)
    ensures DropsArePresent(s, es[..|es| - 1])
  {
    var front := es[..|es| - 1];
    forall k | 0 <= k < |front| && front[k].Dropped? ensures front[k].wallet.url in UrlBag(HandleAll(s, front[..k])) {
      assert front[..k] == es[..k] && front[k] == es[k];
    }
  }

  lemma {:induction false} HandleBag(s: seq<Wallet>, e: Event)
    requires Sorted(s) && (e.Dropped? ==> e.wallet.url in UrlBag(s))
    ensures e.Arrived? ==> UrlBag(Handle(s, e)) == UrlBag(s) + multiset{e.wallet.url}
    ensures e.Dropped? ==> UrlBag(Handle(s, e)) + multiset{e.wallet.url} == UrlBag(s)
  {
    if e.Arrived? {
      MergeUrlBag(s, e.wallet);
    } else {
      PresentDrop(s, e.wallet);
    }
  }

  lemma {:induction false} PresentDrop(s: seq<Wallet>, w: Wallet)
    requires Sorted(s) && w.url in UrlBag(s)
    ensures UrlBag(s) == UrlBag(DropOne(s, w)) + multiset{w.url}
  {
    assert w.url in Urls(s);
    DropRemovesUrlIff(s, w);
  }

  /** The cache is sorted by URL after any events whatever. */
  lemma {:induction false} CacheStaysSorted(s: seq<Wallet>, es: seq<Event>)
    requires Sorted(s)
    ensures Sorted(HandleAll(s, es))
  {
    if es != [] {
      var front, e := es[..|es| - 1], es[|es| - 1];
      CacheStaysSorted(s, front);
      MergeKeepsSorted(HandleAll(s, front), e.wallet);
      DropKeepsSorted(HandleAll(s, front), e.wallet);
    }
  }

  lemma {:induction false} HandleAllStep(s: seq<Wallet>, es: seq<Event>, e: Event)
    ensures HandleAll(s, es + [e]) == Handle(HandleAll(s, es), e)
  {
    assert (es + [e])[..|es|] == es;
  }

  lemma BagArrives(held: multiset<URL>, gone: multiset<URL>, first: multiset<URL>, came: multiset<URL>, u: URL)
    requires held + gone == first + came
    ensures (held + multiset{u}) + (gone + multiset{}) == first + (came + multiset{u})
  {
    assert first + (came + multiset{u}) == (first + came) + multiset{u};
  }

  lemma BagLeaves(held: multiset<URL>, gone: multiset<URL>, first: multiset<URL>, came: multiset<URL>, u: URL)
    requires (held + multiset{u}) + gone == first + came
    ensures held + (gone + multiset{u}) == first + (came + multiset{})
  {
    assert held + (gone + multiset{u}) == (held + multiset{u}) + gone;
  }

  /**
   When departures are of wallets in the cache, the URLs in the cache are those it began with plus those that
   arrived minus those that left, each as often as it should be.
   */
  lemma {:induction false} CacheHoldsArrivals(s: seq<Wallet>, es: seq<Event>)
    requires Sorted(s) && DropsArePresent(s, es)
    ensures UrlBag(HandleAll(s, es)) + DroppedBag(es) == UrlBag(s) + ArrivedBag(es)
  {
    if es != [] {
      var front, e := es[..|es| - 1], es[|es| - 1];
      DropsPresentBefore(s, es);
      CacheHoldsArrivals(s, front);
      CacheStaysSorted(s, front);
      var before := HandleAll(s, front);
      HandleBag(before, e);
      if e.Arrived? {
        BagArrives(UrlBag(before), DroppedBag(front), UrlBag(s), ArrivedBag(front), e.wallet.url);
      } else {
        BagLeaves(UrlBag(Handle(before, e)), DroppedBag(front), UrlBag(s), ArrivedBag(front), e.wallet.url);
      }
    }
  }

  /** One round of the loop in Merge. */
  method InsertWallet(slice: seq<Wallet>, w: Wallet) returns (r: seq<Wallet>)
    requires Sorted(slice)
    ensures r == MergeOne(slice, w) && Sorted(r)
  {
    MergeKeepsSorted(slice, w);
    var n := Search(slice, w.url);
    if n == |slice| {
      assert slice[..n] == slice && slice[n..] == [];
      r := slice + [w];
    } else {
      r := slice[..n] + ([w] + slice[n..]);
    }
  }

  /** One round of the loop in Drop: a wallet whose place is past the end is skipped. */
  method RemoveWallet(slice: seq<Wallet>, w: Wallet) returns (r: seq<Wallet>)
    requires Sorted(slice)
    ensures r == DropOne(slice, w) && Sorted(r)
  {
    DropKeepsSorted(slice, w);
    var n := Search(slice, w.url);
    if n == |slice| {
      return slice;
    }
    r := slice[..n] + slice[n + 1..];
  }

  /** Sorted append. */
  method Merge(slice: seq<Wallet>, wallets: seq<Wallet>) returns (r: seq<Wallet>)
    requires Sorted(slice)
    ensures r == MergeAll(slice, wallets) && Sorted(r)
  {
    r := slice;
    for k := 0 to |wallets|
      invariant r == MergeAll(slice, wallets[..k]) && Sorted(r)
    {
      MergeAllStep(slice, wallets, k);
      r := InsertWallet(r, wallets[k]);
    }
    assert wallets[..|wallets|] == wallets;
  }

  /** The counterpart of Merge. */
  method Drop(slice: seq<Wallet>, wallets: seq<Wallet>) returns (r: seq<Wallet>)
    requires Sorted(slice)
    ensures r == DropAll(slice, wallets) && Sorted(r)
  {
    r := slice;
    for k := 0 to |wallets|
      invariant r == DropAll(slice, wallets[..k]) && Sorted(r)
    {
      MergeAllStep(slice, wallets, k);
      r := RemoveWallet(r, wallets[k]);
    }
    assert wallets[..|wallets|] == wallets;
  }

  /** The manager's cache and the branch of its event loop that changes it. */
  class Manager {
    var wallets: seq<Wallet>
    ghost const initial: seq<Wallet>
    ghost var seen: seq<Event>

    ghost predicate Valid()
      reads this
    {
      Sorted(initial) && Sorted(wallets) && wallets == HandleAll(initial, seen)
    }

    /** The wallets the backends have at the start, merged backend by backend. */
    constructor (backends: seq<seq<Wallet>>)
      ensures Valid() && seen == []
      ensures multiset(wallets) == Everything(backends)
    {
      var ws: seq<Wallet> := [];
      for k := 0 to |backends|
        invariant Sorted(ws) && multiset(ws) == Everything(backends[..k])
      {
        MergeAllBag(ws, backends[k]);
        ws := Merge(ws, backends[k]);
        assert backends[..k + 1][..k] == backends[..k];
      }
      assert backends[..|backends|] == backends;
      wallets, initial, seen := ws, ws, [];
    }

    method Update(e: Event)
      requires Valid()
      modifies this
      ensures Valid() && seen == old(seen) + [e]
    {
      HandleAllStep(initial, seen, e);
      AllOfOne(wallets, e.wallet);
      match e {
        case Arrived(w) => wallets := Merge(wallets, [w]);
        case Dropped(w) => wallets := Drop(wallets, [w]);
      }
      seen := seen + [e];
    }
  }

  function Everything(backends: seq<seq<Wallet>>): multiset<Wallet> {
    if backends == [] then multiset{}
    else Everything(backends[..|backends| - 1]) + multiset(backends[|backends| - 1])
  }
}
