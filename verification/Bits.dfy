/** Unsigned machine words used as signer bitmaps.

    The source keeps a `u128` (consensus) or a `u64` (bridge vault) whose bit `i` says that
    signer `i` took part.  A word is a natural number here; its bits are read least
    significant first, so every property is an induction on halving.
  */
module Bits {

  const U32_MAX: nat := 0xFFFF_FFFF
  const TWO_64: nat := 0x1_0000_0000_0000_0000

  function Pow2(n: nat): (p: nat)
    ensures p > 0
  {
    if n == 0 then 1 else 2 * Pow2(n - 1)
  }

  /** `(w >> i) & 1 == 1` */
  predicate Bit(w: nat, i: nat) {
    if i == 0 then w % 2 == 1 else Bit(w / 2, i - 1)
  }

  /** `w | (1 << i)` */
  function SetBit(w: nat, i: nat): nat {
    if i == 0 then w / 2 * 2 + 1 else SetBit(w / 2, i - 1) * 2 + w % 2
  }

  /** Index of the highest set bit (`ilog2`), for a non-zero word. */
  function Ilog2(w: nat): nat
    requires w > 0
  {
    if w == 1 then 0 else 1 + Ilog2(w / 2)
  }

  /** `count_ones` */
  function PopCount(w: nat): nat {
    if w == 0 then 0 else w % 2 + PopCount(w / 2)
  }

  /** The indices of the set bits. */
  function Members(w: nat): (s: set<nat>)
    ensures forall i: nat :: i in s <==> Bit(w, i)
  {
    BitBelowWord(w);
    set i: nat | i < w && Bit(w, i)
  }

  lemma {:induction false} BitBelow(w: nat, i: nat)
    requires Bit(w, i)
    ensures i < w
  {
    if i > 0 {
      BitBelow(w / 2, i - 1);
    }
  }

  lemma BitBelowWord(w: nat)
    ensures forall i: nat :: Bit(w, i) ==> i < w
  {
    forall i: nat | Bit(w, i) ensures i < w {
      BitBelow(w, i);
    }
  }

  lemma {:induction false} SetBitBit(w: nat, i: nat, j: nat)
    ensures Bit(SetBit(w, i), j) <==> j == i || Bit(w, j)
  {
    if i > 0 && j > 0 {
      SetBitBit(w / 2, i - 1, j - 1);
    }
  }

  lemma SetBitMembers(w: nat, i: nat)
    ensures Members(SetBit(w, i)) == Members(w) + {i}
  {
    forall j: nat ensures j in Members(SetBit(w, i)) <==> j in Members(w) + {i} {
      SetBitBit(w, i, j);
    }
  }

  lemma {:induction false} ZeroHasNoBits(i: nat)
    ensures !Bit(0, i)
  {
    if i > 0 {
      ZeroHasNoBits(i - 1);
    }
  }

  lemma ZeroMembers()
    ensures Members(0) == {}
  {
    forall i: nat ensures !Bit(0, i) {
      ZeroHasNoBits(i);
    }
  }

  lemma {:induction false} Ilog2IsHighest(w: nat, i: nat)
    requires w > 0
    ensures Bit(w, Ilog2(w))
    ensures Bit(w, i) ==> i <= Ilog2(w)
  {
    if w == 1 {
      if i > 0 {
        ZeroHasNoBits(i - 1);
      }
    } else {
      Ilog2IsHighest(w / 2, if i == 0 then 0 else i - 1);
    }
  }

  /** The bounds test of the source, "highest set bit below n", is a test of every bit. */
  lemma HighestBitBounds(w: nat, n: nat)
    ensures (w == 0 || Ilog2(w) < n) <==> (forall i :: i in Members(w) ==> i < n)
  {
    ZeroMembers();
    HighestMember(w);
  }

  lemma HighestMember(w: nat)
    ensures w != 0 ==> Ilog2(w) in Members(w) && forall i :: i in Members(w) ==> i <= Ilog2(w)
  {
    if w != 0 {
      Ilog2IsHighest(w, 0);
      forall i | i in Members(w) ensures i <= Ilog2(w) {
        Ilog2IsHighest(w, i);
      }
    }
  }

  /** A word whose bits all lie below `n` fits in `n` bits. */
  lemma {:induction false} WordFits(w: nat, n: nat)
    requires forall i :: i in Members(w) ==> i < n
    ensures w < Pow2(n)
  {
    if n == 0 {
      HighestBitBounds(w, n);
    } else {
      forall i | i in Members(w / 2) ensures i < n - 1 {
        assert i + 1 in Members(w);
      }
      WordFits(w / 2, n - 1);
    }
  }

  /** `count_ones` counts distinct signer indices. */
  lemma {:induction false} PopCountIsCardinality(w: nat)
    ensures PopCount(w) == |Members(w)|
  {
    if w == 0 {
      ZeroMembers();
    } else {
      var half := Members(w / 2);
      PopCountIsCardinality(w / 2);
      var shifted := set i | i in half :: i + 1;
      ShiftCardinality(half, shifted);
      MembersShift(w);
      hide Members;
      assert 0 !in shifted;
    }
  }

  /** The bits of a word are those of its half moved up, and its lowest. */
  lemma MembersShift(w: nat)
    ensures Members(w) == (set i | i in Members(w / 2) :: i + 1) + if w % 2 == 1 then {0} else {}
  {
    var shifted := set i | i in Members(w / 2) :: i + 1;
    forall i: nat ensures i in Members(w) <==> i in shifted + if w % 2 == 1 then {0} else {} {
      if i > 0 {
        assert Bit(w, i) <==> Bit(w / 2, i - 1);
        assert i - 1 in Members(w / 2) <==> i in shifted;
      }
    }
  }

  lemma {:induction false} ShiftCardinality(s: set<nat>, t: set<nat>)
    requires t == set i | i in s :: i + 1
    ensures |t| == |s|
  {
    if s != {} {
      var x :| x in s;
      ShiftCardinality(s - {x}, set i | i in s - {x} :: i + 1);
      var rest := set i | i in s - {x} :: i + 1;
      forall y | y in t ensures y in rest + {x + 1} {
        var i :| i in s && i + 1 == y;
        assert i == x || i in s - {x};
      }
      assert x + 1 in t;
      assert t == rest + {x + 1};
    }
  }
}
