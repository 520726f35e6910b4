/** Validator sets, stake sums, the quorum threshold and leader selection. */
module Validators {
  import opened Bits
  import opened Crypto

  const MAX_VALIDATORS: nat := 128

  type Stake = s: nat | s < 0x1_0000_0000_0000_0000

  datatype Validator = Validator(blsKey: BlsKey, vrfKey: VrfKey, stake: Stake)

  datatype SetError =
    | EmptyValidatorSet
    | ValidatorSetTooLarge(got: nat, max: nat)
    | TotalStakeOverflow
    | ZeroTotalStake

  datatype ValidatorSet = ValidatorSet(validators: seq<Validator>, totalStake: nat) {
    /** What the checks of the constructor establish. */
    ghost predicate Valid() {
      && 0 < |validators| <= MAX_VALIDATORS
      && totalStake == TotalOf(validators)
      && 0 < totalStake < TWO_64
    }

    function Size(): nat {
      |validators|
    }

    /** `(total_stake * 2) / 3 + 1` in wrapping 64-bit arithmetic. */
    function QuorumThreshold(): nat {
      totalStake * 2 % TWO_64 / 3 + 1
    }
  }

  function TotalOf(vs: seq<Validator>): nat {
    if vs == [] then 0 else TotalOf(vs[..|vs| - 1]) + vs[|vs| - 1].stake
  }

  /** Stake held by the validators whose indices are in `s`. */
  function StakeOf(vs: seq<Validator>, s: set<nat>): nat {
    if vs == [] then 0
    else StakeOf(vs[..|vs| - 1], s) + (if |vs| - 1 in s then vs[|vs| - 1].stake else 0)
  }

  function SaturatingAdd64(a: nat, b: nat): nat {
    if a + b < TWO_64 then a + b else TWO_64 - 1
  }

  /** Which error a candidate list gets, if any. */
  function SetErrorOf(vs: seq<Validator>): Option<SetError> {
    if vs == [] then Some(EmptyValidatorSet)
    else if |vs| > MAX_VALIDATORS then Some(ValidatorSetTooLarge(|vs|, MAX_VALIDATORS))
    else if TotalOf(vs) >= TWO_64 then Some(TotalStakeOverflow)
    else if TotalOf(vs) == 0 then Some(ZeroTotalStake)
    else None
  }

  method NewValidatorSet(vs: seq<Validator>) returns (r: Result<ValidatorSet, SetError>)
    ensures r.Ok? ==> SetErrorOf(vs) == None && r.value.validators == vs && r.value.Valid()
    ensures r.Err? ==> SetErrorOf(vs) == Some(r.error)
  {
    if vs == [] {
      return Err(EmptyValidatorSet);
    }
    if |vs| > MAX_VALIDATORS {
      return Err(ValidatorSetTooLarge(|vs|, MAX_VALIDATORS));
    }
    var total: nat := 0;
    for i := 0 to |vs|
      invariant total == TotalOf(vs[..i]) < TWO_64
    {
      assert vs[..i + 1][..i] == vs[..i];
      if total + vs[i].stake >= TWO_64 {
        TotalOfPrefix(vs, i + 1);
        return Err(TotalStakeOverflow);
      }
      total := total + vs[i].stake;
    }
    assert vs[..|vs|] == vs;
    if total == 0 {
      return Err(ZeroTotalStake);
    }
    return Ok(ValidatorSet(vs, total));
  }

  lemma {:induction false} TotalOfPrefix(vs: seq<Validator>, i: nat)
    requires i <= |vs|
    ensures TotalOf(vs[..i]) <= TotalOf(vs)
  {
    if i < |vs| {
      TotalOfPrefix(vs[..|vs| - 1], i);
      assert vs[..|vs| - 1][..i] == vs[..i];
    } else {
      assert vs[..i] == vs;
    }
  }

  // ---------------------------------------------------------------------------------------
  // Stake sums
  // ---------------------------------------------------------------------------------------

  lemma {:induction false} StakeOfNone(vs: seq<Validator>, s: set<nat>)
    requires forall i :: i in s ==> i >= |vs|
    ensures StakeOf(vs, s) == 0
  {
    if vs != [] {
      StakeOfNone(vs[..|vs| - 1], s);
    }
  }

  lemma {:induction false} StakeInsert(vs: seq<Validator>, s: set<nat>, i: nat)
    requires i < |vs| && i !in s
    ensures StakeOf(vs, s + {i}) == StakeOf(vs, s) + vs[i].stake
  {
    if i < |vs| - 1 {
      StakeInsert(vs[..|vs| - 1], s, i);
    } else {
      StakeAgree(vs[..i], s + {i}, s);
    }
  }

  /** Only the indices inside the list matter. */
  lemma {:induction false} StakeAgree(vs: seq<Validator>, s: set<nat>, t: set<nat>)
    requires forall i: nat :: i < |vs| ==> (i in s <==> i in t)
    ensures StakeOf(vs, s) == StakeOf(vs, t)
  {
    if vs != [] {
      StakeAgree(vs[..|vs| - 1], s, t);
    }
  }

  lemma {:induction false} StakeMonotone(vs: seq<Validator>, s: set<nat>, t: set<nat>)
    requires s <= t
    ensures StakeOf(vs, s) <= StakeOf(vs, t) <= TotalOf(vs)
  {
    if vs != [] {
      StakeMonotone(vs[..|vs| - 1], s, t);
    }
  }

  lemma {:induction false} StakeInclusionExclusion(vs: seq<Validator>, s: set<nat>, t: set<nat>)
    ensures StakeOf(vs, s) + StakeOf(vs, t) == StakeOf(vs, s + t) + StakeOf(vs, s * t)
  {
    if vs != [] {
      StakeInclusionExclusion(vs[..|vs| - 1], s, t);
    }
  }

  // ---------------------------------------------------------------------------------------
  // The quorum threshold
  // ---------------------------------------------------------------------------------------

  predicate IsQuorum(vs: ValidatorSet, s: set<nat>) {
    StakeOf(vs.validators, s) >= vs.QuorumThreshold()
  }

  /** Doubling the total stake does not wrap.  The constructor does not check this. */
  predicate DoublingFits(vs: ValidatorSet) {
    vs.totalStake * 2 < TWO_64
  }

  /** The threshold is the strict two-thirds bound exactly when the doubling fits in 64 bits:
      then reaching it means more than two thirds of the stake, and all the stake reaches it. */
  lemma ThresholdIsTwoThirdsIffNoWrap(vs: ValidatorSet)
    requires vs.Valid()
    ensures (forall q: nat :: q >= vs.QuorumThreshold() <==> 3 * q > 2 * vs.totalStake) <==> DoublingFits(vs)
    ensures DoublingFits(vs) ==> vs.QuorumThreshold() <= vs.totalStake
  {
    var t := vs.totalStake;
    if DoublingFits(vs) {
      assert t * 2 % TWO_64 == t * 2;
    } else {
      assert t * 2 % TWO_64 == t * 2 - TWO_64;
      var q := vs.QuorumThreshold();
      assert 3 * q <= 2 * t;
    }
  }

  /** With 2^63 units of stake the threshold wraps to 1, and two disjoint sets are quorums. */
  lemma WrappedThresholdSplitsQuorums(a: Validator, b: Validator)
    requires a.stake == b.stake == 0x4000_0000_0000_0000
    ensures var vs := ValidatorSet([a, b], 0x8000_0000_0000_0000);
            vs.Valid() && IsQuorum(vs, {0}) && IsQuorum(vs, {1}) && {0} !! {1}
  {
    var l := [a, b];
    assert l[..1] == [a] && l[..1][..0] == [] && [a][..0] == [];
    assert TotalOf([a]) == a.stake;
    assert StakeOf([], {0}) == 0 && StakeOf([], {1}) == 0;
    assert StakeOf([a], {0}) == a.stake;
    assert StakeOf([a], {1}) == 0;
  }

  /** Two quorums share more than a third of the stake. */
  lemma QuorumIntersection(vs: ValidatorSet, s: set<nat>, t: set<nat>)
    requires vs.Valid() && DoublingFits(vs)
    requires IsQuorum(vs, s) && IsQuorum(vs, t)
    ensures 3 * StakeOf(vs.validators, s * t) > vs.totalStake
  {
    ThresholdIsTwoThirdsIffNoWrap(vs);
    StakeInclusionExclusion(vs.validators, s, t);
    StakeMonotone(vs.validators, s + t, s + t);
  }

  /** If `faulty` holds at most a third of the stake, two quorums share an index outside it. */
  lemma QuorumsShareAnHonestIndex(vs: ValidatorSet, s: set<nat>, t: set<nat>, faulty: set<nat>) returns (i: nat)
    requires vs.Valid() && DoublingFits(vs)
    requires IsQuorum(vs, s) && IsQuorum(vs, t)
    requires 3 * StakeOf(vs.validators, faulty) <= vs.totalStake
    ensures i in s && i in t && i !in faulty && i < vs.Size()
  {
    QuorumIntersection(vs, s, t);
    if forall j: nat :: j < vs.Size() && j in s * t ==> j in faulty {
      var inside := set j: nat | j < vs.Size() && j in s * t;
      StakeAgree(vs.validators, s * t, inside);
      StakeMonotone(vs.validators, inside, faulty);
      assert false;
    }
    i :| i < vs.Size() && i in s * t && i !in faulty;
  }

  // ---------------------------------------------------------------------------------------
  // Leader selection
  // ---------------------------------------------------------------------------------------

  /** First index whose running stake sum exceeds `pick`. */
  function Leader(vs: seq<Validator>, pick: nat): (i: nat)
    requires pick < TotalOf(vs)
    ensures i < |vs|
    ensures TotalOf(vs[..i]) <= pick < TotalOf(vs[..i + 1])
  {
    var n := |vs| - 1;
    assert vs[..n + 1] == vs;
    if pick < TotalOf(vs[..n]) then
      var i := Leader(vs[..n], pick);
      assert vs[..n][..i] == vs[..i] && vs[..n][..i + 1] == vs[..i + 1];
      i
    else n
  }

  lemma {:induction false} TotalOfMonotone(vs: seq<Validator>, i: nat, j: nat)
    requires i <= j <= |vs|
    ensures TotalOf(vs[..i]) <= TotalOf(vs[..j])
  {
    assert vs[..j][..i] == vs[..i];
    TotalOfPrefix(vs[..j], i);
  }

  /** The running sums pin the leader down. */
  lemma LeaderUnique(vs: seq<Validator>, pick: nat, i: nat)
    requires pick < TotalOf(vs)
    requires i < |vs| && TotalOf(vs[..i]) <= pick < TotalOf(vs[..i + 1])
    ensures i == Leader(vs, pick)
  {
    var j := Leader(vs, pick);
    if i < j {
      TotalOfMonotone(vs, i + 1, j);
    } else if j < i {
      TotalOfMonotone(vs, j + 1, i);
    }
  }

  /** The accumulation loop.  The sum never saturates and the loop always returns from inside. */
  method SelectLeader(vs: ValidatorSet, word: nat) returns (i: nat)
    requires vs.Valid()
    ensures i == Leader(vs.validators, word % vs.totalStake)
  {
    var pick := word % vs.totalStake;
    var cum: nat := 0;
    var n := vs.Size();
    assert vs.validators[..n] == vs.validators;
    for k := 0 to n
      invariant cum == TotalOf(vs.validators[..k]) <= pick
    {
      assert vs.validators[..k + 1][..k] == vs.validators[..k];
      TotalOfPrefix(vs.validators, k + 1);
      cum := SaturatingAdd64(cum, vs.validators[k].stake);
      if pick < cum {
        LeaderUnique(vs.validators, pick, k);
        return k;
      }
    }
    assert false;
  }

  /** The values of `pick` that make validator `i` the leader. */
  function PicksOf(vs: ValidatorSet, i: nat): set<nat>
    requires vs.Valid()
  {
    set p: nat | p < vs.totalStake && Leader(vs.validators, p) == i
  }

  /** Of the `total` possible picks, exactly `stake_i` select validator `i`. */
  lemma LeaderIsStakeProportional(vs: ValidatorSet, i: nat)
    requires vs.Valid() && i < vs.Size()
    ensures |PicksOf(vs, i)| == vs.validators[i].stake
  {
    var l := vs.validators;
    forall p: nat ensures p in PicksOf(vs, i) <==> p in Range(TotalOf(l[..i]), TotalOf(l[..i + 1])) {
      LeaderRange(l, p, i);
    }
    assert PicksOf(vs, i) == Range(TotalOf(l[..i]), TotalOf(l[..i + 1]));
    assert l[..i + 1][..i] == l[..i];
    assert TotalOf(l[..i + 1]) == TotalOf(l[..i]) + l[i].stake;
    RangeCardinality(TotalOf(l[..i]), TotalOf(l[..i + 1]));
  }

  lemma LeaderRange(vs: seq<Validator>, pick: nat, i: nat)
    requires i < |vs|
    ensures (pick < TotalOf(vs) && Leader(vs, pick) == i) <==> TotalOf(vs[..i]) <= pick < TotalOf(vs[..i + 1])
  {
    if TotalOf(vs[..i]) <= pick < TotalOf(vs[..i + 1]) {
      TotalOfPrefix(vs, i + 1);
      LeaderUnique(vs, pick, i);
    }
  }

  predicate AtLeast(p: nat, lo: nat) {
    lo <= p
  }

  function Range(lo: nat, hi: nat): set<nat> {
    set p: nat | p < hi && AtLeast(p, lo)
  }

  lemma {:induction false} RangeCardinality(lo: nat, hi: nat)
    requires lo <= hi
    ensures |Range(lo, hi)| == hi - lo
  {
    if lo < hi {
      RangeCardinality(lo, hi - 1);
      assert Range(lo, hi) == Range(lo, hi - 1) + {hi - 1};
    } else {
      assert Range(lo, hi) == {};
    }
  }

  function LeaderIndex(prim: Primitives, vs: ValidatorSet, height: nat, round: nat, seed: Bytes): nat
    requires vs.Valid()
  {
    Leader(vs.validators, prim.leaderWord(height, round, seed) % vs.totalStake)
  }

  /** The draw for this height, round and seed falls into the stake interval of validator `i`. */
  predicate HoldsDraw(prim: Primitives, vs: ValidatorSet, height: nat, round: nat, seed: Bytes, i: nat)
    requires vs.Valid()
  {
    && i < vs.Size()
    && var draw := prim.leaderWord(height, round, seed) % vs.totalStake;
       TotalOf(vs.validators[..i]) <= draw < TotalOf(vs.validators[..i + 1])
  }

  /** The leader is the one validator that holds the draw. */
  lemma LeaderHoldsDraw(prim: Primitives, vs: ValidatorSet, height: nat, round: nat, seed: Bytes, i: nat)
    requires vs.Valid()
    ensures HoldsDraw(prim, vs, height, round, seed, i) <==> i == LeaderIndex(prim, vs, height, round, seed)
  {
    var pick := prim.leaderWord(height, round, seed) % vs.totalStake;
    if HoldsDraw(prim, vs, height, round, seed, i) {
      LeaderUnique(vs.validators, pick, i);
    }
  }
}
