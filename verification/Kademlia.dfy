/** The Kademlia routing table: 256 buckets of at most 16 peers, filed by the first bit in which a
    peer's id differs from the local id, least recently seen first. */
module Kademlia {
  import opened Bits
  import opened Crypto
  import opened BigEndian

  const K: nat := 16
  const BUCKETS: nat := 256

  type Id = s: Bytes | |s| == 32 witness seq(32, _ => 0)

  datatype PeerEntry = PeerEntry(id: Id, payload: Bytes)

  // ---------------------------------------------------------------------------------------
  // Exclusive or
  // ---------------------------------------------------------------------------------------

  /** `a ^ b` */
  function Xor(a: nat, b: nat): nat {
    if a == 0 && b == 0 then 0 else Xor(a / 2, b / 2) * 2 + (a + b) % 2
  }

  lemma XorHalves(a: nat, b: nat)
    ensures Xor(a, b) / 2 == Xor(a / 2, b / 2) && Xor(a, b) % 2 == (a + b) % 2
  {
  }

  lemma {:induction false} XorBit(a: nat, b: nat, i: nat)
    ensures Bit(Xor(a, b), i) <==> Bit(a, i) != Bit(b, i)
  {
    hide Xor;
    XorHalves(a, b);
    if i > 0 {
      XorBit(a / 2, b / 2, i - 1);
    }
  }

  lemma {:induction false} XorFits(a: nat, b: nat, n: nat)
    requires a < Pow2(n) && b < Pow2(n)
    ensures Xor(a, b) < Pow2(n)
  {
    if a != 0 || b != 0 {
      XorFits(a / 2, b / 2, n - 1);
    }
  }

  lemma {:induction false} XorZero(a: nat, b: nat)
    ensures Xor(a, b) == 0 <==> a == b
    ensures Xor(a, b) == Xor(b, a)
  {
    if a != 0 || b != 0 {
      XorZero(a / 2, b / 2);
    }
  }

  lemma {:induction false} XorCancels(a: nat, b: nat, t: nat)
    requires Xor(a, t) == Xor(b, t)
    ensures a == b
    decreases a + b + t
  {
    hide Xor;
    XorHalves(a, t);
    XorHalves(b, t);
    if a != 0 || b != 0 || t != 0 {
      XorCancels(a / 2, b / 2, t / 2);
    }
  }

  lemma {:induction false} SmallerLog(x: nat, y: nat)
    requires x > 0 && y > 0 && Ilog2(x) < Ilog2(y)
    ensures x < y
  {
    if x > 1 {
      SmallerLog(x / 2, y / 2);
    }
  }

  function XorByte(a: Byte, b: Byte): (x: Byte)
    ensures x == 0 <==> a == b
  {
    XorFits(a, b, 8);
    XorZero(a, b);
    Xor(a, b)
  }

  /** `leading_zeros` of a byte. */
  function LeadingZeros(x: Byte): (z: nat)
    ensures z < 8 <==> x != 0
  {
    if x == 0 then 8
    else
      Ilog2IsHighest(x, 0);
      LogFits(x, 8);
      7 - Ilog2(x)
  }

  lemma {:induction false} LogFits(x: nat, n: nat)
    requires 0 < x < Pow2(n)
    ensures Ilog2(x) < n
  {
    if x > 1 {
      LogFits(x / 2, n - 1);
    }
  }

  // ---------------------------------------------------------------------------------------
  // Buckets
  // ---------------------------------------------------------------------------------------

  /** Bit `k` of an id, counted from the most significant. */
  predicate BitAt(id: Id, k: nat)
    requires k < BUCKETS
  {
    Bit(id[k / 8], 7 - k % 8)
  }

  /** `k` is the first bit in which the ids differ. */
  ghost predicate FirstDifference(a: Id, b: Id, k: nat) {
    && k < BUCKETS
    && BitAt(a, k) != BitAt(b, k)
    && forall j :: 0 <= j < k ==> BitAt(a, j) == BitAt(b, j)
  }

  /** Where the bytes first differ, from `from` on. */
  function FirstByte(a: Id, b: Id, from: nat): (i: nat)
    requires from <= 32
    ensures from <= i <= 32
    ensures forall j :: from <= j < i ==> a[j] == b[j]
    ensures i < 32 ==> a[i] != b[i]
    decreases 32 - from
  {
    if from == 32 || a[from] != b[from] then from else FirstByte(a, b, from + 1)
  }

  lemma NoDifferenceMeansEqual(a: Id, b: Id)
    ensures FirstByte(a, b, 0) == 32 ==> a == b
  {
  }

  function BucketOf(local: Id, id: Id): (k: nat)
    ensures k < BUCKETS
  {
    var i := FirstByte(local, id, 0);
    if i == 32 then BUCKETS - 1 else i * 8 + LeadingZeros(XorByte(local[i], id[i]))
  }

  /** The loop of the source: the first non-zero byte of the exclusive or decides. */
  method BucketIndex(local: Id, id: Id) returns (k: nat)
    ensures k == BucketOf(local, id)
    ensures if id == local then k == 255 else FirstDifference(local, id, k)
  {
    BucketIsFirstDifference(local, id);
    for i := 0 to 32
      invariant FirstByte(local, id, 0) == FirstByte(local, id, i)
      invariant forall j :: 0 <= j < i ==> local[j] == id[j]
    {
      var x := XorByte(local[i], id[i]);
      if x != 0 {
        return i * 8 + LeadingZeros(x);
      }
    }
    return BUCKETS - 1;
  }

  lemma ByteDifference(a: Byte, b: Byte, j: nat)
    requires a != b && j < 8
    ensures j < LeadingZeros(XorByte(a, b)) ==> Bit(a, 7 - j) == Bit(b, 7 - j)
    ensures j == LeadingZeros(XorByte(a, b)) ==> Bit(a, 7 - j) != Bit(b, 7 - j)
  {
    XorBit(a, b, 7 - j);
    XorZero(a, b);
    Ilog2IsHighest(Xor(a, b), 7 - j);
  }

  /** The bucket of another node's id is the position of the first differing bit. */
  lemma BucketIsFirstDifference(local: Id, id: Id)
    ensures if id == local then BucketOf(local, id) == 255 else FirstDifference(local, id, BucketOf(local, id))
  {
    hide Bit, LeadingZeros;
    if id != local {
      var i := FirstByte(local, id, 0);
      NoDifferenceMeansEqual(local, id);
      var z := LeadingZeros(XorByte(local[i], id[i]));
      var k := BucketOf(local, id);
      assert k / 8 == i && k % 8 == z;
      ByteDifference(local[i], id[i], z);
      forall j | 0 <= j < k ensures BitAt(local, j) == BitAt(id, j) {
        if j / 8 == i {
          ByteDifference(local[i], id[i], j % 8);
        }
      }
    }
  }

  // ---------------------------------------------------------------------------------------
  // Distances
  // ---------------------------------------------------------------------------------------

  function XorBytes(a: Id, b: Id): (d: Id) {
    seq(32, i requires 0 <= i < 32 => XorByte(a[i], b[i]))
  }

  method XorDistance(a: Id, b: Id) returns (d: Id)
    ensures d == XorBytes(a, b)
  {
    var out := new Byte[32](_ => 0);
    for i := 0 to 32
      invariant forall j :: 0 <= j < i ==> out[j] == XorByte(a[j], b[j])
    {
      out[i] := XorByte(a[i], b[i]);
    }
    d := out[..];
  }

  /** The distance as a 256-bit number. */
  function Distance(a: Id, b: Id): nat {
    FromBytes(XorBytes(a, b))
  }

  /** Lexicographic order on bytes, as arrays are compared. */
  predicate LexLess(a: Bytes, b: Bytes)
    requires |a| == |b|
  {
    a != [] && (a[0] < b[0] || (a[0] == b[0] && LexLess(a[1..], b[1..])))
  }

  lemma {:induction false} HighByte(d: Bytes)
    requires d != []
    ensures FromBytes(d) == d[0] * Pow256(|d| - 1) + FromBytes(d[1..])
  {
    if |d| == 1 {
      assert d[..0] == [] && d[1..] == [];
    } else {
      HighByte(d[..|d| - 1]);
      assert d[1..][..|d| - 2] == d[..|d| - 1][1..];
      Regroup(d[0], Pow256(|d| - 2), FromBytes(d[..|d| - 1][1..]), d[|d| - 1]);
    }
  }

  lemma Regroup(x: nat, p: nat, rest: nat, y: nat)
    ensures (x * p + rest) * 256 + y == x * (256 * p) + (rest * 256 + y)
  {
  }

  lemma HighByteDecides(x: nat, y: nat, p: nat, u: nat, v: nat)
    requires x < y && u < p
    ensures x * p + u < y * p + v
  {
    assert (x + 1) * p <= y * p;
  }

  /** Comparing distances byte by byte compares them as numbers. */
  lemma {:induction false} LexIsNumeric(a: Bytes, b: Bytes)
    requires |a| == |b|
    ensures LexLess(a, b) <==> FromBytes(a) < FromBytes(b)
    ensures a == b <==> FromBytes(a) == FromBytes(b)
  {
    if a != [] {
      LexIsNumeric(a[1..], b[1..]);
      HighByte(a);
      HighByte(b);
      ToFromBytes(a[1..]);
      ToFromBytes(b[1..]);
      if a[0] == b[0] {
        assert a == [a[0]] + a[1..] && b == [b[0]] + b[1..];
      } else if a[0] < b[0] {
        HighByteDecides(a[0], b[0], Pow256(|a| - 1), FromBytes(a[1..]), FromBytes(b[1..]));
      } else {
        HighByteDecides(b[0], a[0], Pow256(|a| - 1), FromBytes(b[1..]), FromBytes(a[1..]));
      }
    }
  }

  /** Ids that differ are at different distances from any target. */
  lemma DistanceIsInjective(a: Id, b: Id, target: Id)
    requires Distance(a, target) == Distance(b, target)
    ensures a == b
  {
    LexIsNumeric(XorBytes(a, target), XorBytes(b, target));
    forall i | 0 <= i < 32 ensures a[i] == b[i] {
      assert XorBytes(a, target)[i] == XorBytes(b, target)[i];
      XorCancels(a[i], b[i], target[i]);
    }
  }

  lemma {:induction false} LexAt(a: Bytes, b: Bytes, k: nat)
    requires |a| == |b| && k < |a| && a[k] < b[k]
    requires forall j :: 0 <= j < k ==> a[j] == b[j]
    ensures LexLess(a, b)
  {
    if k > 0 {
      LexAt(a[1..], b[1..], k - 1);
    }
  }

  lemma MoreZerosIsSmaller(x: Byte, y: Byte)
    requires LeadingZeros(x) > LeadingZeros(y)
    ensures x < y
  {
    if x > 0 {
      SmallerLog(x, y);
    }
  }

  /** Everything in a later bucket is strictly closer to the local id. */
  lemma LaterBucketIsCloser(local: Id, a: Id, b: Id)
    requires a != local && b != local && BucketOf(local, a) > BucketOf(local, b)
    ensures Distance(a, local) < Distance(b, local)
  {
    hide LeadingZeros, XorByte;
    var i, j := FirstByte(local, a, 0), FirstByte(local, b, 0);
    var x, y := XorBytes(a, local), XorBytes(b, local);
    NoDifferenceMeansEqual(local, a);
    NoDifferenceMeansEqual(local, b);
    assert j <= i;
    XorByteSymmetric(local[i], a[i]);
    XorByteSymmetric(local[j], b[j]);
    if i == j {
      MoreZerosIsSmaller(XorByte(local[i], a[i]), XorByte(local[j], b[j]));
    }
    assert x[j] < y[j];
    LexAt(x, y, j);
    LexIsNumeric(x, y);
  }

  lemma XorByteSymmetric(a: Byte, b: Byte)
    ensures XorByte(a, b) == XorByte(b, a)
  {
    XorZero(a, b);
  }

  // ---------------------------------------------------------------------------------------
  // Insertion
  // ---------------------------------------------------------------------------------------

  function Ids(bucket: seq<PeerEntry>): (ids: seq<Id>)
    ensures |ids| == |bucket|
    ensures forall i :: 0 <= i < |bucket| ==> ids[i] == bucket[i].id
  {
    seq(|bucket|, i requires 0 <= i < |bucket| => bucket[i].id)
  }

  /** The first position of an id, or the length. */
  function PositionOf<T(==)>(ids: seq<T>, id: T): (p: nat)
    ensures p <= |ids| && (p < |ids| <==> id in ids)
    ensures forall j :: 0 <= j < p ==> ids[j] != id
    ensures p < |ids| ==> ids[p] == id
  {
    if ids == [] || ids[0] == id then 0 else 1 + PositionOf(ids[1..], id)
  }

  function Refiled(bucket: seq<PeerEntry>, entry: PeerEntry): seq<PeerEntry> {
    var p := PositionOf(Ids(bucket), entry.id);
    if p < |bucket| then bucket[..p] + bucket[p + 1..] + [bucket[p]]
    else (if |bucket| == K then bucket[1..] else bucket) + [entry]
  }

  function Inserted(local: Id, buckets: seq<seq<PeerEntry>>, entry: PeerEntry): seq<seq<PeerEntry>>
    requires |buckets| == BUCKETS
  {
    if entry.id == local then buckets
    else
      var i := BucketOf(local, entry.id);
      buckets[i := Refiled(buckets[i], entry)]
  }

  ghost predicate Distinct<T>(ids: seq<T>) {
    forall i, j :: 0 <= i < j < |ids| ==> ids[i] != ids[j]
  }

  /** Every entry is filed under its first differing bit; ids do not repeat; no bucket overflows. */
  ghost predicate TableInv(local: Id, buckets: seq<seq<PeerEntry>>) {
    && |buckets| == BUCKETS
    && forall i :: 0 <= i < BUCKETS ==>
         && |buckets[i]| <= K
         && Distinct(Ids(buckets[i]))
         && forall e :: e in buckets[i] ==> FirstDifference(local, e.id, i)
  }

  /** Ids with all occurrences of one removed. */
  function Without<T(==,!new)>(ids: seq<T>, id: T): (r: seq<T>)
    ensures forall x :: x in r <==> x in ids && x != id
    ensures |r| <= |ids|
  {
    if ids == [] then []
    else
      var rest := Without(ids[..|ids| - 1], id);
      assert ids == ids[..|ids| - 1] + [ids[|ids| - 1]];
      if ids[|ids| - 1] == id then rest else rest + [ids[|ids| - 1]]
  }

  /** The distinct ids of a history, in the order they were last seen. */
  function ByRecency<T(==,!new)>(seen: seq<T>): (r: seq<T>)
    ensures forall x :: x in r <==> x in seen
  {
    if seen == [] then []
    else
      var x := seen[|seen| - 1];
      assert seen == seen[..|seen| - 1] + [x];
      Without(ByRecency(seen[..|seen| - 1]), x) + [x]
  }

  function Last<T>(n: nat, ids: seq<T>): seq<T> {
    if |ids| <= n then ids else ids[|ids| - n..]
  }

  /** The ids of a history that belong to one bucket. */
  function SeenIn(local: Id, i: nat, es: seq<PeerEntry>): seq<Id> {
    if es == [] then []
    else
      var e := es[|es| - 1];
      SeenIn(local, i, es[..|es| - 1]) + if e.id != local && BucketOf(local, e.id) == i then [e.id] else []
  }

  function EmptyBuckets(): seq<seq<PeerEntry>> {
    seq(BUCKETS, _ => [])
  }

  /** The table after inserting `es`, in order, into an empty one. */
  function InsertAll(local: Id, es: seq<PeerEntry>): (buckets: seq<seq<PeerEntry>>)
    ensures |buckets| == BUCKETS
  {
    if es == [] then EmptyBuckets() else Inserted(local, InsertAll(local, es[..|es| - 1]), es[|es| - 1])
  }

  lemma {:induction false} WithoutAbsent<T(!new)>(ids: seq<T>, id: T)
    requires id !in ids
    ensures Without(ids, id) == ids
  {
    if ids != [] {
      WithoutAbsent(ids[..|ids| - 1], id);
    }
  }

  lemma {:induction false} WithoutPresent<T(!new)>(ids: seq<T>, p: nat)
    requires Distinct(ids) && p < |ids|
    ensures Without(ids, ids[p]) == ids[..p] + ids[p + 1..]
  {
    var n := |ids| - 1;
    if p == n {
      WithoutAbsent(ids[..n], ids[n]);
    } else {
      WithoutPresent(ids[..n], p);
      assert ids[p + 1..] == ids[..n][p + 1..] + [ids[n]];
    }
  }

  lemma WithoutDistinct<T(!new)>(ids: seq<T>, id: T)
    requires Distinct(ids)
    ensures Distinct(Without(ids, id) + [id])
  {
    var p := PositionOf(ids, id);
    if p < |ids| {
      WithoutPresent(ids, p);
    } else {
      WithoutAbsent(ids, id);
    }
  }

  lemma {:induction false} ByRecencyDistinct<T(!new)>(seen: seq<T>)
    ensures Distinct(ByRecency(seen))
  {
    if seen != [] {
      ByRecencyDistinct(seen[..|seen| - 1]);
      WithoutDistinct(ByRecency(seen[..|seen| - 1]), seen[|seen| - 1]);
    }
  }

  /** What an insertion does to the ids of a bucket. */
  function Moved<T(==)>(ids: seq<T>, id: T): seq<T> {
    var p := PositionOf(ids, id);
    (if p < |ids| then ids[..p] + ids[p + 1..] else if |ids| == K then ids[1..] else ids) + [id]
  }

  /** A bucket that holds the most recent ids still does after an insertion. */
  lemma MovedIsRecent<T(!new)>(ids: seq<T>, id: T, recent: seq<T>)
    requires Distinct(recent) && ids == Last(K, recent)
    ensures Moved(ids, id) == Last(K, Without(recent, id) + [id])
  {
    hide Without;
    var p, q := PositionOf(ids, id), PositionOf(recent, id);
    var cut := |recent| - |ids|;
    if p < |ids| {
      assert recent[cut + p] == id && q == cut + p;
      WithoutPresent(recent, q);
      DropInside(recent, q, cut, id);
    } else if q < |recent| {
      assert q < cut;
      WithoutPresent(recent, q);
      DropBefore(recent, q, cut, id);
    } else {
      WithoutAbsent(recent, id);
    }
  }

  lemma DropInside<T>(s: seq<T>, q: nat, cut: nat, x: T)
    requires cut <= q < |s|
    ensures (s[..q] + s[q + 1..] + [x])[cut..] == s[cut..][..q - cut] + s[cut..][q - cut + 1..] + [x]
  {
  }

  lemma DropBefore<T>(s: seq<T>, q: nat, cut: nat, x: T)
    requires q < cut < |s|
    ensures (s[..q] + s[q + 1..] + [x])[cut..] == s[cut..][1..] + [x]
  {
  }

  lemma IdsRefiled(bucket: seq<PeerEntry>, entry: PeerEntry)
    ensures Ids(Refiled(bucket, entry)) == Moved(Ids(bucket), entry.id)
    ensures forall e :: e in Refiled(bucket, entry) ==> e in bucket || e == entry
  {
    hide Ids;
    var p := PositionOf(Ids(bucket), entry.id);
    if p < |bucket| {
      IdsAppend(bucket[..p], bucket[p + 1..]);
      IdsAppend(bucket[..p] + bucket[p + 1..], [bucket[p]]);
      IdsSlice(bucket, p);
    } else {
      var kept := if |bucket| == K then bucket[1..] else bucket;
      IdsAppend(kept, [entry]);
      IdsDropFirst(bucket);
    }
    assert Ids([entry]) == [entry.id];
  }

  lemma IdsAppend(a: seq<PeerEntry>, b: seq<PeerEntry>)
    ensures Ids(a + b) == Ids(a) + Ids(b)
  {
  }

  lemma IdsSlice(a: seq<PeerEntry>, p: nat)
    requires p < |a|
    ensures Ids(a[..p]) == Ids(a)[..p] && Ids(a[p + 1..]) == Ids(a)[p + 1..] && Ids([a[p]]) == [Ids(a)[p]]
  {
  }

  lemma IdsDropFirst(a: seq<PeerEntry>)
    ensures a != [] ==> Ids(a[1..]) == Ids(a)[1..]
  {
  }

  lemma {:induction false} SeenBelongs(local: Id, i: nat, es: seq<PeerEntry>)
    ensures forall x :: x in SeenIn(local, i, es) ==> x != local && BucketOf(local, x) == i
  {
    hide BucketOf;
    if es != [] {
      SeenBelongs(local, i, es[..|es| - 1]);
    }
  }

  /** After any insertions, a bucket holds exactly the 16 most recently seen ids that belong to it, in
      the order they were last seen, each with a payload it was inserted with. */
  lemma {:induction false} BucketHoldsMostRecent(local: Id, es: seq<PeerEntry>, i: nat)
    requires i < BUCKETS
    ensures Ids(InsertAll(local, es)[i]) == Last(K, ByRecency(SeenIn(local, i, es)))
    ensures forall e :: e in InsertAll(local, es)[i] ==> e in es
  {
    hide BucketOf, Refiled, Moved, Ids, ByRecency;
    if es == [] {
      assert ByRecency<Id>([]) == [] by {
        EmptyRecency<Id>();
      }
    } else {
      var front, e := es[..|es| - 1], es[|es| - 1];
      BucketHoldsMostRecent(local, front, i);
      if e.id != local && BucketOf(local, e.id) == i {
        var seen := SeenIn(local, i, front);
        var bucket := InsertAll(local, front)[i];
        ByRecencyDistinct(seen);
        MovedIsRecent(Ids(bucket), e.id, ByRecency(seen));
        IdsRefiled(bucket, e);
        RecencyStep(seen, e.id);
      } else {
        assert SeenIn(local, i, es) == SeenIn(local, i, front);
      }
    }
  }

  /** Insertion `k` put the entry into bucket `i`, which did not hold its id, and the id has stayed there since. */
  ghost predicate AdmittedAt(local: Id, es: seq<PeerEntry>, i: nat, k: nat, e: PeerEntry)
    requires i < BUCKETS
  {
    && k < |es| && es[k] == e
    && e.id !in Ids(InsertAll(local, es[..k])[i])
    && forall j :: k < j <= |es| ==> e.id in Ids(InsertAll(local, es[..j])[i])
  }

  /** A stored payload is that of the insertion which last admitted its id: refreshing an id that is present, with
      whatever payload, does not replace it. */
  lemma {:induction false} PayloadIsFromAdmission(local: Id, es: seq<PeerEntry>, i: nat, e: PeerEntry)
    requires i < BUCKETS && e in InsertAll(local, es)[i]
    ensures exists k: nat :: AdmittedAt(local, es, i, k, e)
  {
    hide BucketOf, Refiled, Ids;
    var front, last := es[..|es| - 1], es[|es| - 1];
    var bucket := InsertAll(local, front)[i];
    assert es[..|es|] == es;
    assert e.id in Ids(InsertAll(local, es)[i]) by {
      IdListed(InsertAll(local, es)[i], e);
    }
    RefiledHolds(bucket, last, e);
    if e in bucket {
      PayloadIsFromAdmission(local, front, i, e);
      var k: nat :| AdmittedAt(local, front, i, k, e);
      forall j | k < j <= |es| ensures e.id in Ids(InsertAll(local, es[..j])[i]) {
        if j < |es| {
          assert es[..j] == front[..j];
        }
      }
      assert es[..k] == front[..k];
      assert AdmittedAt(local, es, i, k, e);
    } else {
      assert es[..|front|] == front;
      assert AdmittedAt(local, es, i, |front|, e);
    }
  }

  lemma IdListed(bucket: seq<PeerEntry>, e: PeerEntry)
    requires e in bucket
    ensures e.id in Ids(bucket)
  {
    var k :| 0 <= k < |bucket| && bucket[k] == e;
    assert Ids(bucket)[k] == e.id;
  }

  /** An entry that an insertion newly brings in is the inserted one, and its id was absent. */
  lemma RefiledHolds(bucket: seq<PeerEntry>, entry: PeerEntry, e: PeerEntry)
    ensures e in Refiled(bucket, entry) && e !in bucket ==> e == entry && e.id !in Ids(bucket)
  {
  }

  lemma EmptyRecency<T(!new)>()
    ensures ByRecency<T>([]) == []
  {
  }

  lemma RecencyStep<T(!new)>(seen: seq<T>, id: T)
    ensures ByRecency(seen + [id]) == Without(ByRecency(seen), id) + [id]
  {
    assert (seen + [id])[..|seen|] == seen;
  }

  /** Every table reached by insertions is well formed. */
  lemma TableOverRuns(local: Id, es: seq<PeerEntry>)
    ensures TableInv(local, InsertAll(local, es))
  {
    hide BucketOf, InsertAll, ByRecency, FirstDifference;
    var buckets: seq<seq<PeerEntry>> := InsertAll(local, es);
    forall i | 0 <= i < BUCKETS
      ensures |buckets[i]| <= K && Distinct(Ids(buckets[i]))
      ensures forall e: PeerEntry :: e in buckets[i] ==> FirstDifference(local, e.id, i)
    {
      BucketHoldsMostRecent(local, es, i);
      var seen := SeenIn(local, i, es);
      ByRecencyDistinct(seen);
      SeenBelongs(local, i, es);
      forall e: PeerEntry | e in buckets[i] ensures FirstDifference(local, e.id, i) {
        var k :| 0 <= k < |buckets[i]| && buckets[i][k] == e;
        assert Ids(buckets[i])[k] == e.id;
        assert e.id in ByRecency(seen);
        BucketIsFirstDifference(local, e.id);
      }
    }
  }

  // ---------------------------------------------------------------------------------------
  // Closest peers
  // ---------------------------------------------------------------------------------------

  function Flatten(buckets: seq<seq<PeerEntry>>): (all: seq<PeerEntry>)
    ensures forall e :: e in all <==> exists i :: 0 <= i < |buckets| && e in buckets[i]
  {
    if buckets == [] then []
    else
      assert buckets == buckets[..|buckets| - 1] + [buckets[|buckets| - 1]];
      Flatten(buckets[..|buckets| - 1]) + buckets[|buckets| - 1]
  }

  /** No two positions carry one id. */
  lemma {:induction false} FlattenDistinct(local: Id, buckets: seq<seq<PeerEntry>>, n: nat)
    requires TableInv(local, buckets) && n <= BUCKETS
    ensures Distinct(Ids(Flatten(buckets[..n])))
  {
    hide FirstDifference;
    if n > 0 {
      FlattenDistinct(local, buckets, n - 1);
      assert buckets[..n][..n - 1] == buckets[..n - 1];
      var front, last := Flatten(buckets[..n - 1]), buckets[n - 1];
      assert Flatten(buckets[..n]) == front + last;
      forall a, b | a in front && b in last ensures a.id != b.id {
        var i :| 0 <= i < n - 1 && a in buckets[..n - 1][i];
        assert a in buckets[i];
        DifferenceIsUnique(local, a.id, i, n - 1);
      }
      assert forall k :: 0 <= k < |front| ==> front[k] in front;
      assert forall k :: 0 <= k < |last| ==> last[k] in last;
      forall k, m | 0 <= k < m < |front + last| ensures Ids(front + last)[k] != Ids(front + last)[m] {
        if m < |front| {
          assert Ids(front)[k] != Ids(front)[m];
        } else if k >= |front| {
          assert Ids(last)[k - |front|] != Ids(last)[m - |front|];
        }
      }
    }
  }

  lemma DifferenceIsUnique(local: Id, id: Id, i: nat, j: nat)
    requires i < j && FirstDifference(local, id, i)
    ensures !FirstDifference(local, id, j)
  {
  }

  predicate Closer(target: Id, e: PeerEntry, f: PeerEntry) {
    Distance(e.id, target) < Distance(f.id, target)
  }

  ghost predicate SortedByDistance(target: Id, es: seq<PeerEntry>) {
    forall i, j :: 0 <= i < j < |es| ==> Closer(target, es[i], es[j])
  }

  /** `r` lists the `n` entries of `all` nearest to `target`, nearest first. */
  ghost predicate Nearest(target: Id, all: seq<PeerEntry>, n: nat, r: seq<PeerEntry>) {
    && |r| == (if n <= |all| then n else |all|)
    && SortedByDistance(target, r)
    && (forall e :: e in r ==> e in all)
    && (forall e, f :: e in all && e !in r && f in r ==> Closer(target, f, e))
  }

  /** There is only one such list. */
  lemma {:induction false} NearestIsUnique(target: Id, all: seq<PeerEntry>, n: nat,
                                           r: seq<PeerEntry>, s: seq<PeerEntry>, k: nat)
    requires Distinct(Ids(all)) && Nearest(target, all, n, r) && Nearest(target, all, n, s)
    requires k <= |r|
    ensures r[..k] == s[..k]
  {
    hide Distance;
    if k > 0 {
      NearestIsUnique(target, all, n, r, s, k - 1);
      forall j | 0 <= j < k - 1 ensures r[j] == s[j] {
        assert r[..k - 1][j] == s[..k - 1][j];
      }
      NotBefore(target, all, n, r, s, k - 1);
      NotBefore(target, all, n, s, r, k - 1);
      EqualDistance(target, all, r[k - 1], s[k - 1]);
    }
  }

  lemma NotBefore(target: Id, all: seq<PeerEntry>, n: nat, r: seq<PeerEntry>, s: seq<PeerEntry>, k: nat)
    requires Nearest(target, all, n, r) && Nearest(target, all, n, s) && k < |r|
    requires forall j :: 0 <= j < k ==> r[j] == s[j]
    ensures !Closer(target, r[k], s[k])
  {
    hide Distance;
    assert r[k] in r && s[k] in s;
    if r[k] in s {
      var m :| 0 <= m < |s| && s[m] == r[k];
      assert m >= k by {
        assert m < k ==> Closer(target, r[m], r[k]);
      }
    } else {
      assert Closer(target, s[k], r[k]);
    }
  }

  lemma EqualDistance(target: Id, all: seq<PeerEntry>, e: PeerEntry, f: PeerEntry)
    requires Distinct(Ids(all)) && e in all && f in all
    requires !Closer(target, e, f) && !Closer(target, f, e)
    ensures e == f
  {
    hide Distance;
    DistanceIsInjective(e.id, f.id, target);
    var i, j :| 0 <= i < |all| && all[i] == e && 0 <= j < |all| && all[j] == f;
    assert Ids(all)[i] == Ids(all)[j];
  }

  /** Insert into a list sorted by distance, before the first entry that is farther away. */
  method PlaceByDistance(target: Id, sorted: seq<PeerEntry>, e: PeerEntry) returns (r: seq<PeerEntry>)
    requires SortedByDistance(target, sorted)
    requires forall f :: f in sorted ==> f.id != e.id
    ensures SortedByDistance(target, r) && |r| == |sorted| + 1
    ensures forall f :: f in r <==> f in sorted || f == e
  {
    hide Distance;
    var d := XorDistance(e.id, target);
    var p := 0;
    while p < |sorted|
      invariant p <= |sorted| && forall j :: 0 <= j < p ==> Closer(target, sorted[j], e)
    {
      var other := XorDistance(sorted[p].id, target);
      CompareBytes(target, e, sorted[p]);
      if LexLess(d, other) {
        break;
      }
      p := p + 1;
    }
    r := sorted[..p] + [e] + sorted[p..];
    assert sorted == sorted[..p] + sorted[p..];
    forall j | p <= j < |sorted| ensures Closer(target, e, sorted[j]) {
      CloserIsTransitive(target, e, sorted[p], sorted[j]);
    }
  }

  lemma CompareBytes(target: Id, e: PeerEntry, f: PeerEntry)
    requires e.id != f.id
    ensures if LexLess(XorBytes(e.id, target), XorBytes(f.id, target))
            then Closer(target, e, f) else Closer(target, f, e)
  {
    LexIsNumeric(XorBytes(e.id, target), XorBytes(f.id, target));
    if Distance(e.id, target) == Distance(f.id, target) {
      DistanceIsInjective(e.id, f.id, target);
    }
  }

  lemma CloserIsTransitive(target: Id, e: PeerEntry, f: PeerEntry, g: PeerEntry)
    ensures Closer(target, e, f) && Closer(target, f, g) ==> Closer(target, e, g)
  {
  }

  /** The table as the mutable object of the source, with the history of insertions as a ghost. */
  class KademliaTable {
    const localId: Id
    var buckets: seq<seq<PeerEntry>>
    ghost var history: seq<PeerEntry>

    ghost predicate Valid()
      reads this
    {
      buckets == InsertAll(localId, history)
    }

    constructor (localId: Id)
      ensures Valid() && this.localId == localId && history == []
    {
      this.localId := localId;
      buckets := EmptyBuckets();
      history := [];
    }

    method Insert(entry: PeerEntry)
      requires Valid()
      modifies this
      ensures Valid() && history == old(history) + [entry]
      ensures buckets == Inserted(localId, old(buckets), entry)
    {
      hide BucketOf, FirstDifference, Refiled;
      assert (history + [entry])[..|history|] == history;
      history := history + [entry];
      if entry.id == localId {
        return;
      }
      var idx := BucketIndex(localId, entry.id);
      var bucket := Refile(buckets[idx], entry);
      buckets := buckets[idx := bucket];
    }

    static method Refile(before: seq<PeerEntry>, entry: PeerEntry) returns (bucket: seq<PeerEntry>)
      ensures bucket == Refiled(before, entry)
    {
      bucket := before;
      var pos := Position(bucket, entry.id);
      if pos < |bucket| {
        return bucket[..pos] + bucket[pos + 1..] + [bucket[pos]];
      }
      if |bucket| == K {
        bucket := bucket[1..];
      }
      bucket := bucket + [entry];
    }

    static method Position(bucket: seq<PeerEntry>, id: Id) returns (p: nat)
      ensures p == PositionOf(Ids(bucket), id)
    {
      p := 0;
      while p < |bucket| && bucket[p].id != id
        invariant p <= |bucket| && forall j :: 0 <= j < p ==> bucket[j].id != id
      {
        p := p + 1;
      }
    }

    /** The `n` nearest peers, nearest first. */
    method FindClosest(target: Id, n: nat) returns (r: seq<PeerEntry>)
      requires Valid()
      ensures Nearest(target, Flatten(buckets), n, r)
    {
      hide Distance, InsertAll, Flatten;
      TableOverRuns(localId, history);
      FlattenDistinct(localId, buckets, BUCKETS);
      assert buckets[..BUCKETS] == buckets;
      var all := Flatten(buckets);
      var sorted: seq<PeerEntry> := [];
      for i := 0 to |all|
        invariant SortedByDistance(target, sorted) && |sorted| == i
        invariant forall f :: f in sorted <==> f in all[..i]
      {
        forall f | f in sorted ensures f.id != all[i].id {
          var j :| 0 <= j < i && all[j] == f;
          assert Ids(all)[j] != Ids(all)[i];
        }
        sorted := PlaceByDistance(target, sorted, all[i]);
        assert all[..i + 1] == all[..i] + [all[i]];
      }
      assert all[..|all|] == all;
      r := if n <= |sorted| then sorted[..n] else sorted;
      forall e, f | e in all && e !in r && f in r ensures Closer(target, f, e) {
        var j :| 0 <= j < |sorted| && sorted[j] == e;
        var k :| 0 <= k < |r| && r[k] == f;
        assert r[k] == sorted[k] && k < j;
      }
    }
  }
}
