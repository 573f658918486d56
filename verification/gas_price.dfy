/** The L2 gas price controller: a price per epoch, moved towards a target usage by a bounded factor. */
module GasPricing {
  import opened Common

  function Ceil(x: real): int {
    -((-x).Floor)
  }

  function Max(a: nat, b: nat): nat {
    if a >= b then a else b
  }

  /** What the price is multiplied by: the share of the target that was used, kept within `m` of 1. */
  function Clamp(m: real, share: real): real {
    if share >= 1.0 then (if share < 1.0 + m then share else 1.0 + m)
    else (if share > 1.0 - m then share else 1.0 - m)
  }

  /** Rounded up, and raised to the floor. */
  function Rounded(x: real, floor: nat): nat {
    if Ceil(x) > floor then Ceil(x) else floor
  }

  /** The next price, when `share` of the target was used. */
  function Next(cur: nat, floor: nat, m: real, share: real): nat {
    Rounded(Max(1, cur) as real * Clamp(m, share), floor)
  }

  function Move(floor: nat, m: real): (nat, real) -> nat {
    (cur, share) => Next(cur, floor, m, share)
  }

  function Run(move: (nat, real) -> nat, p0: nat, shares: seq<real>): nat {
    if shares == [] then p0 else move(Run(move, p0, shares[..|shares| - 1]), shares[|shares| - 1])
  }

  /** The price after several epochs, given the share of the target used in each. */
  function After(p0: nat, floor: nat, m: real, shares: seq<real>): nat {
    Run(Move(floor, m), p0, shares)
  }

  datatype Quote = Price(price: nat) | NegativeUsage | TargetTooLow

  /** The pricer; the target is read anew for each epoch. `shares` is the history the price answers to. */
  class GasPricer {
    var curPrice: nat
    var avgGasPerSecondLastEpoch: real
    const floorPrice: nat
    const maxChangePerEpoch: real
    ghost const firstPrice: nat
    ghost var shares: seq<real>

    ghost predicate Valid()
      reads this
    {
      && 1 <= floorPrice <= firstPrice && maxChangePerEpoch > 0.0
      && (forall k | 0 <= k < |shares| :: shares[k] >= 0.0)
      && curPrice == After(firstPrice, floorPrice, maxChangePerEpoch, shares)
    }

    constructor (cur: nat, floor: nat, maxChange: real)
      requires floor >= 1 && maxChange > 0.0
      ensures Valid() && shares == [] && firstPrice == Max(cur, floor)
      ensures floorPrice == floor && maxChangePerEpoch == maxChange
    {
      curPrice, floorPrice, maxChangePerEpoch := Max(cur, floor), floor, maxChange;
      avgGasPerSecondLastEpoch := 0.0;
      firstPrice, shares := Max(cur, floor), [];
    }

    method CalcNextEpochGasPrice(avg: real, target: real) returns (q: Quote)
      ensures q.NegativeUsage? <==> avg < 0.0
      ensures q.TargetTooLow? <==> avg >= 0.0 && target < 1.0
      ensures q.Price? ==> q.price == Next(curPrice, floorPrice, maxChangePerEpoch, avg / target)
    {
      if avg < 0.0 {
        return NegativeUsage;
      }
      if target < 1.0 {
        return TargetTooLow;
      }
      var share := avg / target;
      var change := 0.0;
      if share >= 1.0 {
        change := if share < 1.0 + maxChangePerEpoch then share else 1.0 + maxChangePerEpoch;
      } else {
        change := if share > 1.0 - maxChangePerEpoch then share else 1.0 - maxChangePerEpoch;
      }
      return Price(Rounded(Max(1, curPrice) as real * change, floorPrice));
    }

    /** Ends the epoch. A usage or target that is refused leaves price and history as they are. */
    method CompleteEpoch(avg: real, target: real) returns (q: Quote)
      requires Valid()
      modifies this
      ensures Valid()
      ensures q.NegativeUsage? <==> avg < 0.0
      ensures q.TargetTooLow? <==> avg >= 0.0 && target < 1.0
      ensures if q.Price? then
                && q.price == curPrice && avgGasPerSecondLastEpoch == avg
                && shares == old(shares) + [avg / target]
              else unchanged(this)
    {
      q := CalcNextEpochGasPrice(avg, target);
      if q.Price? {
        ShareMeaning(avg, target, 0.0);
        ghost var longer := shares + [avg / target];
        assert longer[..|longer| - 1] == shares;
        curPrice, avgGasPerSecondLastEpoch := q.price, avg;
        shares := longer;
      }
    }
  }

  /** nil when the configuration is refused; a change above 1 (100%) is accepted. */
  method NewGasPricer(cur: nat, floor: nat, maxChange: real) returns (p: GasPricer?)
    ensures p == null <==> floor < 1 || maxChange <= 0.0
    ensures p != null ==> fresh(p) && p.Valid() && p.shares == [] && p.firstPrice == Max(cur, floor)
    ensures p != null ==> p.floorPrice == floor && p.maxChangePerEpoch == maxChange
  {
    if floor < 1 || maxChange <= 0.0 {
      return null;
    }
    p := new GasPricer(cur, floor, maxChange);
  }

  /* ---- One epoch ---- */

  lemma ProductOrder(a: real, b: real, c: real)
    requires c > 0.0
    ensures a * c <= b * c <==> a <= b
    ensures a * c < b * c <==> a < b
  {
    assert (a - b) * c == a * c - b * c;
  }

  /** Comparing the share with a bound compares the usage with that part of the target. */
  lemma ShareMeaning(avg: real, target: real, bound: real)
    requires target >= 1.0
    ensures avg / target <= bound <==> avg <= bound * target
    ensures avg / target < bound <==> avg < bound * target
  {
    assert avg / target * target == avg;
    ProductOrder(avg / target, bound, target);
  }

  lemma CeilLeast(x: real, n: int)
    ensures Ceil(x) <= n <==> x <= n as real
    ensures Ceil(x) as real < x + 1.0
  {
  }

  lemma RoundedAbove(x: real, floor: nat, n: int)
    requires floor <= n
    ensures Rounded(x, floor) > n <==> x > n as real
  {
    CeilLeast(x, n);
  }

  lemma RoundedNear(x: real, floor: nat, low: real, high: real)
    requires low <= x <= high && floor as real <= high
    ensures Rounded(x, floor) >= floor && low <= Rounded(x, floor) as real <= high + 1.0
  {
    CeilLeast(x, Ceil(x));
  }

  /** The least factor the price can be multiplied by. */
  function Least(m: real): real {
    if m > 1.0 then 0.0 else 1.0 - m
  }

  lemma ProductBetween(c: real, f: real, lo: real, hi: real)
    requires c > 0.0 && lo <= f <= hi && 1.0 <= hi
    ensures c * lo <= c * f <= c * hi && c <= c * hi
  {
    ProductOrder(lo, f, c);
    ProductOrder(f, hi, c);
    ProductOrder(1.0, hi, c);
  }

  lemma FactorMoves(c: nat, floor: nat, f: real, lo: real, hi: real)
    requires 1 <= floor <= c && lo <= f <= hi && 1.0 <= hi
    ensures Bounded(c, Rounded(c as real * f, floor), floor, lo, hi)
  {
    ProductBetween(c as real, f, lo, hi);
    RoundedNear(c as real * f, floor, c as real * lo, c as real * hi);
  }

  /** From `c` to `p` in one epoch: not below the floor, and by a factor from `lo` to `hi`, rounded up. */
  predicate Bounded(c: nat, p: nat, floor: nat, lo: real, hi: real) {
    p >= floor && c as real * lo <= p as real <= c as real * hi + 1.0
  }

  lemma NextIsRounded(cur: nat, floor: nat, m: real, share: real, f: real)
    requires cur >= 1 && f == Clamp(m, share)
    ensures Next(cur, floor, m, share) == Rounded(cur as real * f, floor)
  {
  }

  /**
   The next price is the least integer at or above the floor and the price times the share of the target used;
   a share further from 1 than the largest change counts as one at that distance.
   */
  lemma NextIsLeast(cur: nat, floor: nat, m: real, share: real, f: real, n: nat)
    requires cur >= 1 && m > 0.0
    requires f == if share > 1.0 + m then 1.0 + m else if share < 1.0 - m then 1.0 - m else share
    ensures Next(cur, floor, m, share) <= n <==> floor <= n && cur as real * f <= n as real
  {
    NextIsRounded(cur, floor, m, share, f);
    RoundedIsLeast(cur as real * f, floor, n);
  }

  lemma RoundedIsLeast(x: real, floor: nat, n: nat)
    ensures Rounded(x, floor) <= n <==> floor <= n && x <= n as real
  {
    CeilLeast(x, n);
  }

  lemma StepIsBounded(cur: nat, floor: nat, m: real, share: real, lo: real, hi: real)
    requires 1 <= floor <= cur && m > 0.0 && share >= 0.0 && lo == Least(m) && hi == 1.0 + m
    ensures Bounded(cur, Next(cur, floor, m, share), floor, lo, hi)
  {
    var f := Clamp(m, share);
    ClampBounds(m, share);
    FactorMoves(cur, floor, f, lo, hi);
    NextIsRounded(cur, floor, m, share, f);
  }

  lemma ClampBounds(m: real, share: real)
    requires m > 0.0 && share >= 0.0
    ensures Least(m) <= Clamp(m, share) <= 1.0 + m
  {
  }

  lemma FactorRaises(c: nat, floor: nat, f: real)
    requires 1 <= floor <= c
    ensures Rounded(c as real * f, floor) > c <==> f > 1.0
  {
    var x := c as real * f;
    assert x > c as real <==> f > 1.0 by {
      ProductOrder(1.0, f, c as real);
    }
    RoundedAbove(x, floor, c);
  }

  /** The price rises exactly when usage was above the target. */
  lemma RisesIff(cur: nat, floor: nat, m: real, share: real)
    requires 1 <= floor <= cur && m > 0.0
    ensures Next(cur, floor, m, share) > cur <==> share > 1.0
  {
    FactorRaises(cur, floor, Clamp(m, share));
  }

  lemma CutLowers(c: nat, floor: nat, m: real)
    requires 1 <= floor <= c && m > 0.0
    ensures floor <= Rounded(c as real * (1.0 - m), floor) <= c
    ensures Rounded(c as real * (1.0 - m), floor) < c <==> !AtRest(c, floor, m)
  {
    var x, cut := c as real * (1.0 - m), c as real * m;
    assert x == c as real - cut;
    assert cut > 0.0;
    RoundedAbove(x, floor, c);
    if c > floor {
      RoundedAbove(x, floor, c - 1);
    }
  }

  /**
   Usage at or below (1-m) of the target lowers the price exactly when it is above the floor and price * m is
   at least 1; otherwise rounding up keeps the price where it is.
   */
  lemma LowUsageLowers(cur: nat, floor: nat, m: real, share: real)
    requires 1 <= floor <= cur && 0.0 < m <= 1.0 && share <= 1.0 - m
    ensures floor <= Next(cur, floor, m, share) <= cur
    ensures Next(cur, floor, m, share) < cur <==> !AtRest(cur, floor, m)
  {
    CutLowers(cur, floor, m);
    assert Clamp(m, share) == 1.0 - m;
  }

  /** A price that low usage no longer lowers. */
  predicate AtRest(p: nat, floor: nat, m: real) {
    p <= floor || p as real * m < 1.0
  }

  /** The same in terms of usage and target: above the target the price rises, and only then. */
  lemma UsageDecides(cur: nat, floor: nat, m: real, avg: real, target: real)
    requires 1 <= floor <= cur && 0.0 < m && target >= 1.0
    ensures Next(cur, floor, m, avg / target) > cur <==> avg > target
    ensures m <= 1.0 && avg <= (1.0 - m) * target ==>
              (Next(cur, floor, m, avg / target) < cur <==> !AtRest(cur, floor, m))
  {
    ShareMeaning(avg, target, 1.0);
    RisesIff(cur, floor, m, avg / target);
    if m <= 1.0 && avg <= (1.0 - m) * target {
      ShareMeaning(avg, target, 1.0 - m);
      LowUsageLowers(cur, floor, m, avg / target);
    }
  }

  /* ---- Many epochs ---- */

  function Iterate(f: real -> real, x: real, n: nat): real {
    if n == 0 then x else f(Iterate(f, x, n - 1))
  }

  ghost predicate Monotone(f: real -> real) {
    forall x, y | x <= y :: f(x) <= f(y)
  }

  ghost predicate Between(move: (nat, real) -> nat, floor: nat, down: real -> real, up: real -> real) {
    forall c: nat, share | c >= floor && share >= 0.0 :: InRange(c, move(c, share), floor, down, up)
  }

  predicate InRange(c: nat, p: nat, floor: nat, down: real -> real, up: real -> real) {
    floor <= p && down(c as real) <= p as real <= up(c as real)
  }

  /** Moves that lie between two monotone functions keep every run between the iterates of the two. */
  lemma {:induction false} RunBetween(move: (nat, real) -> nat, p0: nat, floor: nat,
                                      down: real -> real, up: real -> real, shares: seq<real>)
    requires p0 >= floor && Monotone(down) && Monotone(up) && Between(move, floor, down, up)
    requires forall k | 0 <= k < |shares| :: shares[k] >= 0.0
    ensures Run(move, p0, shares) >= floor
    ensures Iterate(down, p0 as real, |shares|) <= Run(move, p0, shares) as real
    ensures Run(move, p0, shares) as real <= Iterate(up, p0 as real, |shares|)
  {
    if shares != [] {
      var n := |shares| - 1;
      RunBetween(move, p0, floor, down, up, shares[..n]);
      var c := Run(move, p0, shares[..n]);
      assert InRange(c, move(c, shares[n]), floor, down, up);
      assert down(Iterate(down, p0 as real, n)) <= down(c as real) <= move(c, shares[n]) as real;
      assert move(c, shares[n]) as real <= up(c as real) <= up(Iterate(up, p0 as real, n));
    }
  }

  function Shrink(lo: real): real -> real {
    x => x * lo
  }

  function Grow(hi: real): real -> real {
    x => x * hi + 1.0
  }

  lemma ScalingIsMonotone(k: real)
    requires k >= 0.0
    ensures Monotone(Shrink(k)) && Monotone(Grow(k))
  {
    forall x, y | x <= y
      ensures Shrink(k)(x) <= Shrink(k)(y) && Grow(k)(x) <= Grow(k)(y)
    {
      if k > 0.0 {
        ProductOrder(x, y, k);
      }
    }
  }

  lemma BoundedIsInRange(c: nat, p: nat, floor: nat, lo: real, hi: real)
    requires Bounded(c, p, floor, lo, hi)
    ensures InRange(c, p, floor, Shrink(lo), Grow(hi))
  {
  }

  lemma MoveIsInRange(c: nat, share: real, floor: nat, m: real, lo: real, hi: real)
    requires 1 <= floor <= c && m > 0.0 && share >= 0.0 && lo == Least(m) && hi == 1.0 + m
    ensures InRange(c, Next(c, floor, m, share), floor, Shrink(lo), Grow(hi))
  {
    StepIsBounded(c, floor, m, share, lo, hi);
    BoundedIsInRange(c, Next(c, floor, m, share), floor, lo, hi);
  }

  lemma MovesAreBetween(floor: nat, m: real, lo: real, hi: real)
    requires 1 <= floor && m > 0.0 && lo == Least(m) && hi == 1.0 + m
    ensures Between(Move(floor, m), floor, Shrink(lo), Grow(hi))
  {
    forall c: nat, share | c >= floor && share >= 0.0
      ensures InRange(c, Move(floor, m)(c, share), floor, Shrink(lo), Grow(hi))
    {
      MoveIsInRange(c, share, floor, m, lo, hi);
    }
  }

  function Pow(x: real, n: nat): real {
    if n == 0 then 1.0 else Pow(x, n - 1) * x
  }

  lemma Associate(a: real, b: real, c: real)
    ensures a * b * c == a * (b * c)
  {
  }

  /** The lower edge is p0 * lo^n. */
  lemma {:induction false} ShrinkClosed(p0: real, lo: real, n: nat)
    ensures Iterate(Shrink(lo), p0, n) == p0 * Pow(lo, n)
  {
    if n > 0 {
      ShrinkClosed(p0, lo, n - 1);
      Associate(p0, Pow(lo, n - 1), lo);
    }
  }

  lemma GrowStep(a: real, m: real, hi: real, h: real, y: real)
    requires m * h == a * y - 1.0 && hi == 1.0 + m
    ensures m * (h * hi + 1.0) == a * (y * hi) - 1.0
  {
    assert m * (h * hi + 1.0) == m * h * hi + m;
    assert (a * y - 1.0) * hi == a * y * hi - hi;
    Associate(a, y, hi);
  }

  lemma {:induction false} GrowClosed(p0: real, a: real, m: real, hi: real, n: nat)
    requires hi == 1.0 + m && a == m * p0 + 1.0
    ensures m * Iterate(Grow(hi), p0, n) == a * Pow(hi, n) - 1.0
  {
    if n > 0 {
      GrowClosed(p0, a, m, hi, n - 1);
      GrowStep(a, m, hi, Iterate(Grow(hi), p0, n - 1), Pow(hi, n - 1));
    }
  }

  lemma SolveForEdge(u: real, p0: real, m: real, y: real)
    requires m > 0.0 && m * u == (m * p0 + 1.0) * y - 1.0
    ensures u == p0 * y + (y - 1.0) / m
  {
    var q := (y - 1.0) / m;
    assert q * m == y - 1.0;
    assert (p0 * y + q) * m == m * p0 * y + y - 1.0;
    assert (m * p0 + 1.0) * y == m * p0 * y + y;
    ProductOrder(u, p0 * y + q, m);
    ProductOrder(p0 * y + q, u, m);
  }

  /** The upper edge is p0 * (1+m)^n + ((1+m)^n - 1) / m. */
  lemma UpperEdge(p0: real, m: real, n: nat)
    requires m > 0.0
    ensures Iterate(Grow(1.0 + m), p0, n) == p0 * Pow(1.0 + m, n) + (Pow(1.0 + m, n) - 1.0) / m
  {
    GrowClosed(p0, m * p0 + 1.0, m, 1.0 + m, n);
    SolveForEdge(Iterate(Grow(1.0 + m), p0, n), p0, m, Pow(1.0 + m, n));
  }

  /** From n shrinkings to n growings of `p0`, in closed form. */
  predicate InEnvelope(p0: real, p: real, lo: real, m: real, n: nat)
    requires m > 0.0
  {
    p0 * Pow(lo, n) <= p <= p0 * Pow(1.0 + m, n) + (Pow(1.0 + m, n) - 1.0) / m
  }

  lemma IteratesMakeEnvelope(p0: real, p: real, lo: real, m: real, n: nat)
    requires m > 0.0 && Iterate(Shrink(lo), p0, n) <= p <= Iterate(Grow(1.0 + m), p0, n)
    ensures InEnvelope(p0, p, lo, m, n)
  {
    ShrinkClosed(p0, lo, n);
    UpperEdge(p0, m, n);
  }

  lemma RunInEnvelope(move: (nat, real) -> nat, p0: nat, floor: nat, m: real, lo: real, shares: seq<real>)
    requires p0 >= floor && m > 0.0 && lo >= 0.0 && Between(move, floor, Shrink(lo), Grow(1.0 + m))
    requires forall k | 0 <= k < |shares| :: shares[k] >= 0.0
    ensures Run(move, p0, shares) >= floor && InEnvelope(p0 as real, Run(move, p0, shares) as real, lo, m, |shares|)
  {
    ScalingIsMonotone(lo);
    ScalingIsMonotone(1.0 + m);
    RunBetween(move, p0, floor, Shrink(lo), Grow(1.0 + m), shares);
    IteratesMakeEnvelope(p0 as real, Run(move, p0, shares) as real, lo, m, |shares|);
  }

  /**
   For every history of n epochs with a limit m on the change, the price p is at least the floor, at least
   p0 * max(0, 1-m)^n, and at most p0 * (1+m)^n + ((1+m)^n - 1) / m.
   */
  lemma PriceEnvelope(p0: nat, floor: nat, m: real, shares: seq<real>)
    requires 1 <= floor <= p0 && m > 0.0 && forall k | 0 <= k < |shares| :: shares[k] >= 0.0
    ensures After(p0, floor, m, shares) >= floor
    ensures InEnvelope(p0 as real, After(p0, floor, m, shares) as real, Least(m), m, |shares|)
  {
    MovesAreBetween(floor, m, Least(m), 1.0 + m);
    RunInEnvelope(Move(floor, m), p0, floor, m, Least(m), shares);
  }

  /** The envelope of a pricer, whatever epochs it has been through. */
  lemma PricerStaysInEnvelope(p: GasPricer)
    requires p.Valid()
    ensures p.curPrice >= p.floorPrice
    ensures InEnvelope(p.firstPrice as real, p.curPrice as real, Least(p.maxChangePerEpoch), p.maxChangePerEpoch, |p.shares|)
  {
    PriceEnvelope(p.firstPrice, p.floorPrice, p.maxChangePerEpoch, p.shares);
  }

  /**
   Low usage lowers the price every epoch until it is at rest and leaves it there; it is at rest after at
   most p0 - floor epochs.
   */
  lemma {:induction false} LowUsageSettles(p0: nat, floor: nat, m: real, shares: seq<real>)
    requires 1 <= floor <= p0 && 0.0 < m <= 1.0 && forall k | 0 <= k < |shares| :: shares[k] <= 1.0 - m
    ensures floor <= After(p0, floor, m, shares) <= p0
    ensures AtRest(After(p0, floor, m, shares), floor, m) || After(p0, floor, m, shares) + |shares| <= p0
    ensures shares != [] && AtRest(After(p0, floor, m, shares[..|shares| - 1]), floor, m) ==>
              After(p0, floor, m, shares) == After(p0, floor, m, shares[..|shares| - 1])
  {
    if shares != [] {
      var n := |shares| - 1;
      LowUsageSettles(p0, floor, m, shares[..n]);
      LowUsageLowers(After(p0, floor, m, shares[..n]), floor, m, shares[n]);
    }
  }

  lemma LowUsageReachesRest(p0: nat, floor: nat, m: real, shares: seq<real>)
    requires 1 <= floor <= p0 && 0.0 < m <= 1.0 && forall k | 0 <= k < |shares| :: shares[k] <= 1.0 - m
    requires |shares| >= p0 - floor
    ensures AtRest(After(p0, floor, m, shares), floor, m)
  {
    LowUsageSettles(p0, floor, m, shares);
  }

  /* ---- Epochs over blocks ---- */

  /** Gas used by the blocks after `start`, up to and including `end`. */
  function GasBetween(gas: nat -> uint64, start: nat, end: nat): nat
    requires start <= end
    decreases end
  {
    if start == end then 0 else GasBetween(gas, start, end - 1) + gas(end)
  }

  /** A completed epoch: the blocks after `start` up to `end`, and the gas total computed for them. */
  datatype Record = Record(start: nat, end: nat, total: uint64)

  /** The records follow one another from `first` to `last`, each with its blocks' gas modulo 2^64. */
  ghost predicate Tiles(gas: nat -> uint64, first: nat, rs: seq<Record>, last: nat) {
    if rs == [] then first == last
    else
      var r := rs[|rs| - 1];
      && r.start < r.end == last && r.total == GasBetween(gas, r.start, r.end) % TWO64
      && Tiles(gas, first, rs[..|rs| - 1], r.start)
  }

  datatype UpdateResult = Updated | NothingNew | Failed

  class GasPriceUpdater {
    const pricer: GasPricer
    const epochLengthSeconds: nat
    var epochStartBlockNumber: nat
    ghost const gas: nat -> uint64
    ghost const firstBlock: nat
    ghost var records: seq<Record>

    ghost predicate Valid()
      reads this, pricer
    {
      && pricer.Valid() && epochLengthSeconds >= 1
      && Tiles(gas, firstBlock, records, epochStartBlockNumber)
    }

    constructor (pricer: GasPricer, start: nat, epochLengthSeconds: nat, ghost gas: nat -> uint64)
      requires pricer.Valid() && epochLengthSeconds >= 1
      ensures Valid() && this.pricer == pricer && epochStartBlockNumber == start && records == []
      ensures this.gas == gas && firstBlock == start
    {
      this.pricer, this.epochLengthSeconds, epochStartBlockNumber := pricer, epochLengthSeconds, start;
      this.gas, firstBlock, records := gas, start, [];
    }

    /** Adds up the gas of the epoch's blocks; any block that cannot be fetched stops it. */
    method TotalGas(fetch: nat -> Option<uint64>, latest: nat) returns (total: Option<uint64>)
      requires epochStartBlockNumber <= latest
      requires forall i: nat :: fetch(i).Some? ==> fetch(i).value == gas(i)
      ensures total.Some? ==> total.value == GasBetween(gas, epochStartBlockNumber, latest) % TWO64
      ensures total.None? <==> exists i: nat | epochStartBlockNumber < i <= latest :: fetch(i).None?
    {
      var sum: uint64 := 0;
      var i := epochStartBlockNumber + 1;
      while i <= latest
        invariant epochStartBlockNumber < i <= latest + 1
        invariant sum == GasBetween(gas, epochStartBlockNumber, i - 1) % TWO64
        invariant forall k: nat | epochStartBlockNumber < k < i :: fetch(k).Some?
      {
        var used := fetch(i);
        if used.None? {
          return None;
        }
        ModAdd(used.value, used.value, GasBetween(gas, epochStartBlockNumber, i - 1));
        sum := (sum + used.value) % TWO64;
        i := i + 1;
      }
      return Some(sum);
    }

    /**
     One update. `latest`, `fetch`, `target` and `publishes` are what the node, the target and the price
     contract answer. The epoch is complete before the price is published.
     */
    method UpdateGasPrice(latest: Option<nat>, fetch: nat -> Option<uint64>, target: real, publishes: bool)
      returns (r: UpdateResult)
      requires Valid() && forall i: nat :: fetch(i).Some? ==> fetch(i).value == gas(i)
      modifies this, pricer
      ensures Valid()
      ensures var start := old(epochStartBlockNumber);
              var completes := latest.Some? && latest.value > start && target >= 1.0
                               && forall i: nat | start < i <= latest.value :: fetch(i).Some?;
              if completes then
                && epochStartBlockNumber == latest.value
                && |records| == |old(records)| + 1 && records[..|old(records)|] == old(records)
                && pricer.shares == old(pricer.shares)
                   + [records[|old(records)|].total as real / epochLengthSeconds as real / target]
                && r == if publishes then Updated else Failed
              else
                && epochStartBlockNumber == start && records == old(records)
                && unchanged(pricer)
                && r == if latest == Some(start) then NothingNew else Failed
    {
      if latest.None? || latest.value < epochStartBlockNumber {
        return Failed;
      }
      if latest.value == epochStartBlockNumber {
        return NothingNew;
      }
      var total := TotalGas(fetch, latest.value);
      if total.None? {
        return Failed;
      }
      var average := total.value as real / epochLengthSeconds as real;
      assert average >= 0.0;
      var q := pricer.CompleteEpoch(average, target);
      if !q.Price? {
        return Failed;
      }
      var record := Record(epochStartBlockNumber, latest.value, total.value);
      assert (records + [record])[..|records|] == records;
      records := records + [record];
      epochStartBlockNumber := latest.value;
      return if publishes then Updated else Failed;
    }
  }

  /** nil when the configuration is refused. */
  method NewGasPriceUpdater(pricer: GasPricer, start: nat, averageBlockGasLimit: nat, epochLengthSeconds: nat,
                            ghost gas: nat -> uint64)
    returns (u: GasPriceUpdater?)
    requires pricer.Valid()
    ensures u == null <==> averageBlockGasLimit < 1 || epochLengthSeconds < 1
    ensures u != null ==> fresh(u) && u.Valid() && u.pricer == pricer && u.epochStartBlockNumber == start
    ensures u != null ==> u.records == [] && u.gas == gas && u.firstBlock == start
  {
    if averageBlockGasLimit < 1 || epochLengthSeconds < 1 {
      return null;
    }
    u := new GasPriceUpdater(pricer, start, epochLengthSeconds, gas);
  }

  lemma {:induction false} TilesOrdered(gas: nat -> uint64, first: nat, rs: seq<Record>, last: nat)
    requires Tiles(gas, first, rs, last)
    ensures first <= last && forall k | 0 <= k < |rs| :: first <= rs[k].start < rs[k].end <= last
  {
    if rs != [] {
      TilesOrdered(gas, first, rs[..|rs| - 1], rs[|rs| - 1].start);
    }
  }

  predicate Covers(r: Record, block: nat) {
    r.start < block <= r.end
  }

  /** Every block from the first start to the current one is in exactly one completed epoch. */
  lemma {:induction false} EachBlockOnce(gas: nat -> uint64, first: nat, rs: seq<Record>, last: nat, block: nat) returns (k: nat)
    requires Tiles(gas, first, rs, last) && first < block <= last
    ensures k < |rs| && Covers(rs[k], block)
    ensures forall j: nat | j < |rs| && Covers(rs[j], block) :: j == k
  {
    var n := |rs| - 1;
    TilesOrdered(gas, first, rs[..n], rs[n].start);
    assert forall j | 0 <= j < n :: rs[..n][j] == rs[j];
    if block > rs[n].start {
      k := n;
    } else {
      k := EachBlockOnce(gas, first, rs[..n], rs[n].start, block);
    }
  }

  function SumTotals(rs: seq<Record>): nat {
    if rs == [] then 0 else SumTotals(rs[..|rs| - 1]) + rs[|rs| - 1].total
  }

  lemma {:induction false} GasSplits(gas: nat -> uint64, a: nat, b: nat, c: nat)
    requires a <= b <= c
    ensures GasBetween(gas, a, c) == GasBetween(gas, a, b) + GasBetween(gas, b, c)
  {
    if b < c {
      GasSplits(gas, a, b, c - 1);
    }
  }

  lemma ModAdd(a: nat, b: nat, c: nat)
    requires a % TWO64 == b % TWO64
    ensures (a + c % TWO64) % TWO64 == (b + c) % TWO64
  {
  }

  /** The epochs' totals add up to the gas of all their blocks, modulo 2^64. */
  lemma {:induction false} TotalsAddUp(gas: nat -> uint64, first: nat, rs: seq<Record>, last: nat)
    requires Tiles(gas, first, rs, last)
    ensures first <= last && SumTotals(rs) % TWO64 == GasBetween(gas, first, last) % TWO64
  {
    if rs != [] {
      var front, r := rs[..|rs| - 1], rs[|rs| - 1];
      TotalsAddUp(gas, first, front, r.start);
      GasSplits(gas, first, r.start, last);
      ModAdd(SumTotals(front), GasBetween(gas, first, r.start), GasBetween(gas, r.start, last));
    }
  }
}
