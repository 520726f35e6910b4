/** The halving block subsidy. */
module Emission {
  import opened Bits
  import opened BigEndian

  const U64_MAX: nat := 0xFFFF_FFFF_FFFF_FFFF
  const TWO_128: nat := 0x1_0000_0000_0000_0000_0000_0000_0000_0000

  datatype ChainSpec = ChainSpec(initialReward: nat, halvingInterval: nat)

  /** Amounts are 128-bit. */
  predicate Fits(spec: ChainSpec) {
    spec.initialReward < TWO_128
  }

  predicate Halves(spec: ChainSpec) {
    spec.halvingInterval != 0 && spec.halvingInterval != U64_MAX
  }

  function ShiftRight(x: nat, k: nat): nat {
    if k == 0 then x else ShiftRight(x / 2, k - 1)
  }

  /** Whole-number division. */
  function Div(x: nat, d: nat): (q: nat)
    requires d > 0
    ensures d * q <= x < d * q + d
  {
    if x < d then 0
    else
      Distribute(d, Div(x - d, d), 1);
      1 + Div(x - d, d)
  }

  function Mod(x: nat, d: nat): (r: nat)
    requires d > 0
    ensures r < d && x == d * Div(x, d) + r
  {
    x - d * Div(x, d)
  }

  /** The subsidy of block `n`; a shift by the full width or more is cut off to zero. */
  function BlockRewardAt(spec: ChainSpec, n: nat): nat {
    if !Halves(spec) then spec.initialReward
    else
      var halvings := Div(n, spec.halvingInterval);
      if halvings >= 128 then 0 else ShiftRight(spec.initialReward, halvings)
  }

  lemma Distribute(d: nat, a: nat, b: nat)
    ensures d * (a + b) == d * a + d * b
  {
  }

  lemma Monotone(d: nat, a: nat, b: nat)
    ensures a <= b ==> d * a <= d * b
  {
  }

  lemma QuotientIs(x: nat, d: nat, q: nat)
    requires d > 0 && d * q <= x < d * q + d
    ensures Div(x, d) == q
  {
    hide Div;
    var e := Div(x, d);
    Monotone(d, q + 1, e);
    Monotone(d, e + 1, q);
    Distribute(d, q, 1);
    Distribute(d, e, 1);
  }

  lemma HalfIsDiv(x: nat)
    ensures Div(x, 2) == x / 2
  {
    QuotientIs(x, 2, x / 2);
  }

  lemma Associate(a: nat, b: nat, c: nat)
    ensures a * (b * c) == a * b * c
  {
  }

  lemma ProductIsPositive(a: nat, b: nat)
    requires a > 0 && b > 0
    ensures a * b > 0
  {
  }

  lemma BoundsMeet(x: nat, y: nat, a: nat, d: nat, z: nat)
    requires y <= x < y + a && z <= y && y + a <= z + d
    ensures z <= x < z + d
  {
  }

  /** Bounds of a quotient of a quotient. */
  lemma TwiceBounds(x: nat, a: nat, b: nat, q: nat, p: nat)
    requires a * q <= x < a * q + a && b * p <= q < b * p + b
    ensures a * b * p <= x < a * b * p + a * b
  {
    Monotone(a, b * p, q);
    Monotone(a, q + 1, b * p + b);
    Distribute(a, q, 1);
    Distribute(a, b * p, b);
    Associate(a, b, p);
    BoundsMeet(x, a * q, a, a * b, a * b * p);
  }

  lemma DivideTwice(x: nat, a: nat, b: nat)
    requires a > 0 && b > 0
    ensures a * b > 0 && Div(Div(x, a), b) == Div(x, a * b)
  {
    hide Div;
    ProductIsPositive(a, b);
    TwiceBounds(x, a, b, Div(x, a), Div(Div(x, a), b));
    QuotientIs(x, a * b, Div(Div(x, a), b));
  }

  lemma {:induction false} ShiftIsDivision(x: nat, k: nat)
    ensures ShiftRight(x, k) == Div(x, Pow2(k))
  {
    hide Div;
    if k == 0 {
      QuotientIs(x, 1, x);
    } else {
      ShiftIsDivision(x / 2, k - 1);
      HalfIsDiv(x);
      DivideTwice(x, 2, Pow2(k - 1));
    }
  }

  lemma {:induction false} Pow2Grows(j: nat, k: nat)
    requires j <= k
    ensures Pow2(j) <= Pow2(k)
  {
    if j < k {
      Pow2Grows(j, k - 1);
    }
  }

  /** The cut-off never shows: the subsidy is the initial one divided by two to the number of halvings,
      for every block number. */
  lemma RewardIsDivision(spec: ChainSpec, n: nat)
    requires Fits(spec) && spec.halvingInterval != 0 && spec.halvingInterval != U64_MAX
    ensures BlockRewardAt(spec, n) == Div(spec.initialReward, Pow2(Div(n, spec.halvingInterval)))
  {
    hide Div, ShiftRight;
    var k := Div(n, spec.halvingInterval);
    ShiftIsDivision(spec.initialReward, k);
    if k >= 128 {
      Pow2Grows(128, k);
      PowersAgree(16);
      Widths();
      QuotientIs(spec.initialReward, Pow2(k), 0);
    }
  }

  /** Reward of one epoch, the span between two halvings. */
  function EpochReward(spec: ChainSpec, epoch: nat): nat {
    Div(spec.initialReward, Pow2(epoch))
  }

  lemma EpochHalves(spec: ChainSpec, epoch: nat)
    ensures EpochReward(spec, epoch + 1) * 2 <= EpochReward(spec, epoch)
  {
    hide Div;
    DivideTwice(spec.initialReward, Pow2(epoch), 2);
    assert Pow2(epoch + 1) == Pow2(epoch) * 2;
  }

  /** The subsidy never increases. */
  lemma {:induction false} RewardNeverIncreases(spec: ChainSpec, m: nat, n: nat)
    requires Fits(spec) && m <= n
    ensures BlockRewardAt(spec, n) <= BlockRewardAt(spec, m)
    decreases n
  {
    hide Div, Pow2, Mod;
    if m < n && Halves(spec) {
      RewardNeverIncreases(spec, m, n - 1);
      RewardIsDivision(spec, n);
      RewardIsDivision(spec, n - 1);
      NextBlock(n - 1, spec.halvingInterval);
      EpochHalves(spec, Div(n - 1, spec.halvingInterval));
    }
  }

  /** Advancing one block either stays within the epoch or enters the next. */
  lemma NextBlock(n: nat, i: nat)
    requires i > 0
    ensures if Mod(n, i) == i - 1 then Div(n + 1, i) == Div(n, i) + 1 && Mod(n + 1, i) == 0
            else Div(n + 1, i) == Div(n, i) && Mod(n + 1, i) == Mod(n, i) + 1
  {
    hide Div;
    var q, r := Div(n, i), Mod(n, i);
    Distribute(i, q, 1);
    QuotientIs(n + 1, i, if r == i - 1 then q + 1 else q);
  }

  /** Everything issued in blocks `0 .. n`. */
  function Issued(spec: ChainSpec, n: nat): nat {
    if n == 0 then 0 else Issued(spec, n - 1) + BlockRewardAt(spec, n - 1)
  }

  /** What the current epoch can still issue, and a full epoch's worth again for all later ones together. */
  function Remaining(spec: ChainSpec, n: nat): nat
    requires spec.halvingInterval > 0
  {
    var i := spec.halvingInterval;
    var reward := EpochReward(spec, Div(n, i));
    reward * (i - Mod(n, i)) + reward * i
  }

  /** Issuing a block uses up at least its subsidy of what remains. */
  lemma RemainingPays(spec: ChainSpec, n: nat)
    requires Fits(spec) && Halves(spec)
    ensures BlockRewardAt(spec, n) + Remaining(spec, n + 1) <= Remaining(spec, n)
  {
    hide Div, Mod, Pow2, BlockRewardAt;
    var i := spec.halvingInterval;
    var epoch := Div(n, i);
    var r, next := EpochReward(spec, epoch), EpochReward(spec, epoch + 1);
    RewardIsDivision(spec, n);
    NextBlock(n, i);
    if Mod(n, i) == i - 1 {
      EpochHalves(spec, epoch);
      Monotone(i, next * 2, r);
      assert i * (next * 2) == next * i + next * i;
    } else {
      Distribute(r, i - Mod(n, i) - 1, 1);
    }
  }

  /** However long the chain runs, it issues at most twice the initial subsidy times the interval. */
  lemma {:induction false} SupplyIsBounded(spec: ChainSpec, n: nat)
    requires Fits(spec) && spec.halvingInterval != 0 && spec.halvingInterval != U64_MAX
    ensures Issued(spec, n) <= Issued(spec, n) + Remaining(spec, n) <= 2 * spec.halvingInterval * spec.initialReward
  {
    hide BlockRewardAt;
    if n == 0 {
      QuotientIs(spec.initialReward, 1, spec.initialReward);
      assert Div(0, spec.halvingInterval) == 0;
      var all := spec.initialReward * spec.halvingInterval;
      assert Remaining(spec, 0) == all + all;
    } else {
      hide Remaining;
      SupplyIsBounded(spec, n - 1);
      RemainingPays(spec, n - 1);
    }
  }

  /** An interval of zero or of the largest 64-bit number turns halving off, and then the supply is not bounded:
      it is linear in the number of blocks. */
  lemma {:induction false} WithoutHalvingSupplyIsLinear(spec: ChainSpec, n: nat)
    requires spec.halvingInterval == 0 || spec.halvingInterval == U64_MAX
    ensures Issued(spec, n) == spec.initialReward * n
  {
    if n > 0 {
      WithoutHalvingSupplyIsLinear(spec, n - 1);
      Distribute(spec.initialReward, n - 1, 1);
    }
  }
}
