/** The federated bridge vault: `t` of `n` federation keys release a lock, each nonce at most once. */
module Federation {
  import opened Bits
  import opened BigEndian
  import opened Crypto

  const MAX_FEDERATION_SIZE: nat := 64

  type Keccak = Bytes -> Bytes

  datatype BridgeError =
    | EmptyFederation
    | FederationTooLarge(got: nat, max: nat)
    | InvalidThreshold(wanted: nat, size: nat)
    | SignerBitmapOversized(highestBit: nat, size: nat)
    | BelowThreshold(signers: nat, threshold: nat)
    | NonceReused(nonce: nat)
    | InvalidAggregateSig

  datatype FederationSet = FederationSet(pubkeys: seq<BlsKey>, threshold: nat) {
    predicate Valid() {
      && 0 < |pubkeys| <= MAX_FEDERATION_SIZE
      && 0 < threshold <= |pubkeys|
    }
  }

  function FederationErrorOf(pubkeys: seq<BlsKey>, threshold: nat): BridgeError {
    if pubkeys == [] then EmptyFederation
    else if |pubkeys| > MAX_FEDERATION_SIZE then FederationTooLarge(|pubkeys|, MAX_FEDERATION_SIZE)
    else InvalidThreshold(threshold, |pubkeys|)
  }

  /** Validity is exactly what construction checks; the error is that of the first failed check. */
  method NewFederation(pubkeys: seq<BlsKey>, threshold: nat) returns (r: Result<FederationSet, BridgeError>)
    ensures r.Ok? <==> FederationSet(pubkeys, threshold).Valid()
    ensures r.Ok? ==> r.value == FederationSet(pubkeys, threshold)
    ensures r.Err? ==> r.error == FederationErrorOf(pubkeys, threshold)
  {
    if |pubkeys| == 0 {
      return Err(EmptyFederation);
    }
    if |pubkeys| > MAX_FEDERATION_SIZE {
      return Err(FederationTooLarge(|pubkeys|, MAX_FEDERATION_SIZE));
    }
    if threshold == 0 || threshold > |pubkeys| {
      return Err(InvalidThreshold(threshold, |pubkeys|));
    }
    return Ok(FederationSet(pubkeys, threshold));
  }

  datatype LockReceipt = LockReceipt(srcChainId: nat, asset: Bytes, amount: nat, recipient: Bytes, nonce: nat)

  datatype AttestationBundle = AttestationBundle(receipt: LockReceipt, sig: Signature<Bytes>, signers: nat)

  // ---------------------------------------------------------------------------------------
  // What the federation signs
  // ---------------------------------------------------------------------------------------

  function Concat(keys: seq<BlsKey>): Bytes {
    if keys == [] then [] else Concat(keys[..|keys| - 1]) + keys[|keys| - 1]
  }

  function IdPreimage(f: FederationSet): Bytes {
    ToBytes(f.threshold, 8) + Concat(f.pubkeys)
  }

  function FederationId(keccak: Keccak, f: FederationSet): Bytes {
    keccak(IdPreimage(f))
  }

  method BuildId(keccak: Keccak, f: FederationSet) returns (id: Bytes)
    ensures id == FederationId(keccak, f)
  {
    var buf := ToBytes(f.threshold, 8);
    assert f.pubkeys[..|f.pubkeys|] == f.pubkeys;
    for i := 0 to |f.pubkeys|
      invariant buf == ToBytes(f.threshold, 8) + Concat(f.pubkeys[..i])
    {
      assert f.pubkeys[..i + 1][..i] == f.pubkeys[..i];
      buf := buf + f.pubkeys[i];
    }
    id := keccak(buf);
  }

  function ReceiptPreimage(fedId: Bytes, r: LockReceipt): Bytes {
    fedId + ToBytes(r.srcChainId, 8) + r.asset + ToBytes(r.amount, 32) + r.recipient + ToBytes(r.nonce, 8)
  }

  function Digest(keccak: Keccak, f: FederationSet, r: LockReceipt): Bytes {
    keccak(ReceiptPreimage(FederationId(keccak, f), r))
  }

  /** The fields have the widths of the source's types. */
  predicate TypedReceipt(r: LockReceipt) {
    && r.srcChainId < Pow256(8) && |r.asset| == 32 && r.amount < Pow256(32)
    && |r.recipient| == 20 && r.nonce < Pow256(8)
  }

  predicate TypedFederation(f: FederationSet) {
    f.threshold < Pow256(8) && forall k :: k in f.pubkeys ==> |k| == 48
  }

  /** The signed bytes determine the federation id and every field of the receipt. */
  lemma ReceiptPreimageInjective(id: Bytes, r: LockReceipt, id': Bytes, r': LockReceipt)
    requires |id| == |id'| && TypedReceipt(r) && TypedReceipt(r')
    requires ReceiptPreimage(id, r) == ReceiptPreimage(id', r')
    ensures id == id' && r == r'
  {
    hide Pow256;
    var a, a' := id + ToBytes(r.srcChainId, 8), id' + ToBytes(r'.srcChainId, 8);
    var b, b' := a + r.asset, a' + r'.asset;
    var c, c' := b + ToBytes(r.amount, 32), b' + ToBytes(r'.amount, 32);
    Split(c + r.recipient, ToBytes(r.nonce, 8), c' + r'.recipient, ToBytes(r'.nonce, 8));
    Split(c, r.recipient, c', r'.recipient);
    Split(b, ToBytes(r.amount, 32), b', ToBytes(r'.amount, 32));
    Split(a, r.asset, a', r'.asset);
    Split(id, ToBytes(r.srcChainId, 8), id', ToBytes(r'.srcChainId, 8));
    BytesInjective(r.nonce, r'.nonce, 8);
    BytesInjective(r.amount, r'.amount, 32);
    BytesInjective(r.srcChainId, r'.srcChainId, 8);
  }

  /** The documented order: federation id, 8-byte chain id, 32-byte asset, 32-byte amount, 20-byte recipient, 8-byte
      nonce. */
  lemma ReceiptPreimageLayout(id: Bytes, r: LockReceipt)
    requires |id| == 32 && TypedReceipt(r)
    ensures var b := ReceiptPreimage(id, r);
      && |b| == 132 && b[..32] == id && FromBytes(b[32..40]) == r.srcChainId && b[40..72] == r.asset
      && FromBytes(b[72..104]) == r.amount && b[104..124] == r.recipient && FromBytes(b[124..]) == r.nonce
  {
    hide FromBytes, ToBytes, Pow256;
    FromToBytes(r.srcChainId, 8);
    FromToBytes(r.amount, 32);
    FromToBytes(r.nonce, 8);
    var b := ReceiptPreimage(id, r);
    assert b[32..40] == ToBytes(r.srcChainId, 8) && b[72..104] == ToBytes(r.amount, 32);
    assert b[124..] == ToBytes(r.nonce, 8);
  }

  lemma {:induction false} ConcatInjective(ks: seq<BlsKey>, ls: seq<BlsKey>)
    requires forall k :: k in ks || k in ls ==> |k| == 48
    requires Concat(ks) == Concat(ls)
    ensures ks == ls
  {
    ConcatLength(ks);
    ConcatLength(ls);
    if ks != [] && ls != [] {
      var m, n := |ks| - 1, |ls| - 1;
      assert ks[m] in ks && ls[n] in ls;
      Split(Concat(ks[..m]), ks[m], Concat(ls[..n]), ls[n]);
      ConcatInjective(ks[..m], ls[..n]);
      assert ks == ks[..m] + [ks[m]] && ls == ls[..n] + [ls[n]];
    }
  }

  lemma {:induction false} ConcatLength(ks: seq<BlsKey>)
    requires forall k :: k in ks ==> |k| == 48
    ensures |Concat(ks)| == 48 * |ks|
  {
    if ks != [] {
      assert ks[|ks| - 1] in ks;
      ConcatLength(ks[..|ks| - 1]);
    }
  }

  /** The hashed bytes determine the threshold and the keys in order. */
  lemma IdPreimageInjective(f: FederationSet, g: FederationSet)
    requires TypedFederation(f) && TypedFederation(g) && IdPreimage(f) == IdPreimage(g)
    ensures f == g
  {
    Split(ToBytes(f.threshold, 8), Concat(f.pubkeys), ToBytes(g.threshold, 8), Concat(g.pubkeys));
    BytesInjective(f.threshold, g.threshold, 8);
    ConcatInjective(f.pubkeys, g.pubkeys);
  }

  /** The documented order: 8-byte threshold, then the 48-byte keys in order. */
  lemma IdPreimageLayout(f: FederationSet, i: nat)
    requires TypedFederation(f) && i < |f.pubkeys|
    ensures var b := IdPreimage(f);
      && |b| == 8 + 48 * |f.pubkeys| && FromBytes(b[..8]) == f.threshold
      && b[8 + 48 * i..56 + 48 * i] == f.pubkeys[i]
  {
    FromToBytes(f.threshold, 8);
    var b, t := IdPreimage(f), ToBytes(f.threshold, 8);
    ConcatLength(f.pubkeys);
    ConcatAt(f.pubkeys, i);
    assert b[..8] == t && b[8 + 48 * i..56 + 48 * i] == Concat(f.pubkeys)[48 * i..48 * i + 48];
  }

  lemma {:induction false} ConcatAt(ks: seq<BlsKey>, i: nat)
    requires (forall k :: k in ks ==> |k| == 48) && i < |ks|
    ensures |Concat(ks)| == 48 * |ks| && Concat(ks)[48 * i..48 * i + 48] == ks[i]
  {
    var n := |ks| - 1;
    ConcatLength(ks);
    ConcatLength(ks[..n]);
    assert ks[n] in ks;
    if i < n {
      ConcatAt(ks[..n], i);
      assert Concat(ks)[48 * i..48 * i + 48] == Concat(ks[..n])[48 * i..48 * i + 48];
    }
  }

  // ---------------------------------------------------------------------------------------
  // Release
  // ---------------------------------------------------------------------------------------

  /** One signature over `m` from every key whose index is in `s`, summed in index order. */
  function SignedBy(keys: seq<BlsKey>, s: set<nat>, m: Bytes): multiset<(BlsKey, Bytes)> {
    if keys == [] then multiset{}
    else
      var rest := SignedBy(keys[..|keys| - 1], s, m);
      if |keys| - 1 in s then rest + multiset{(keys[|keys| - 1], m)} else rest
  }

  lemma {:induction false} SignedByHas(keys: seq<BlsKey>, s: set<nat>, i: nat, m: Bytes)
    requires i < |keys| && i in s
    ensures (keys[i], m) in SignedBy(keys, s, m)
  {
    if i < |keys| - 1 {
      SignedByHas(keys[..|keys| - 1], s, i, m);
    }
  }

  lemma {:induction false} SignedByOnly(keys: seq<BlsKey>, s: set<nat>, m: Bytes)
    ensures forall p :: p in SignedBy(keys, s, m) ==> p.1 == m
  {
    if keys != [] {
      SignedByOnly(keys[..|keys| - 1], s, m);
    }
  }

  datatype VaultState = VaultState(federation: FederationSet, usedNonces: set<nat>)

  /** At least `threshold` members, all known, are the signers, and the signature is the sum of theirs
      over this federation's digest of the receipt. */
  predicate Authorised(keccak: Keccak, f: FederationSet, b: AttestationBundle) {
    var s := Members(b.signers);
    && (forall i :: i in s ==> i < |f.pubkeys|)
    && |s| >= f.threshold
    && b.sig.parts == SignedBy(f.pubkeys, s, Digest(keccak, f, b.receipt))
  }

  /** The first failed check. */
  function ReleaseError(keccak: Keccak, v: VaultState, b: AttestationBundle): Option<BridgeError> {
    var n := |v.federation.pubkeys|;
    if b.signers != 0 && Ilog2(b.signers) >= n then Some(SignerBitmapOversized(Ilog2(b.signers), n))
    else if PopCount(b.signers) < v.federation.threshold
    then Some(BelowThreshold(PopCount(b.signers), v.federation.threshold))
    else if b.receipt.nonce in v.usedNonces then Some(NonceReused(b.receipt.nonce))
    else if !Authorised(keccak, v.federation, b) then Some(InvalidAggregateSig)
    else None
  }

  function Released(keccak: Keccak, v: VaultState, b: AttestationBundle)
    : (VaultState, Result<LockReceipt, BridgeError>)
  {
    match ReleaseError(keccak, v, b)
    case Some(e) => (v, Err(e))
    case None => (v.(usedNonces := v.usedNonces + {b.receipt.nonce}), Ok(b.receipt))
  }

  /** The four checks together demand exactly authorisation and a fresh nonce. */
  lemma ReleasedIffAuthorised(keccak: Keccak, v: VaultState, b: AttestationBundle)
    ensures Released(keccak, v, b).1.Ok? <==> Authorised(keccak, v.federation, b) && b.receipt.nonce !in v.usedNonces
  {
    HighestBitBounds(b.signers, |v.federation.pubkeys|);
    PopCountIsCardinality(b.signers);
  }

  /** Which error a refused bundle gets: unknown signers are reported before too few, too few before a used nonce, and
      that before a signature that is not theirs. */
  lemma RefusalSaysWhy(keccak: Keccak, v: VaultState, b: AttestationBundle)
    requires Released(keccak, v, b).1.Err?
    ensures var e := Released(keccak, v, b).1.error;
      var s, n, t := Members(b.signers), |v.federation.pubkeys|, v.federation.threshold;
      if exists i :: i in s && i >= n
      then e.SignerBitmapOversized? && e.size == n && e.highestBit in s && forall i :: i in s ==> i <= e.highestBit
      else if |s| < t then e == BelowThreshold(|s|, t)
      else if b.receipt.nonce in v.usedNonces then e == NonceReused(b.receipt.nonce)
      else e == InvalidAggregateSig
  {
    HighestBitBounds(b.signers, |v.federation.pubkeys|);
    PopCountIsCardinality(b.signers);
    HighestMember(b.signers);
  }

  class Vault {
    const keccak: Keccak
    const federation: FederationSet
    var usedNonces: set<nat>

    function View(): VaultState
      reads this
    {
      VaultState(federation, usedNonces)
    }

    constructor (keccak: Keccak, federation: FederationSet)
      ensures this.keccak == keccak && View() == VaultState(federation, {})
    {
      this.keccak, this.federation, usedNonces := keccak, federation, {};
    }

    method Release(b: AttestationBundle) returns (r: Result<LockReceipt, BridgeError>)
      requires federation.Valid()
      modifies this
      ensures (View(), r) == Released(keccak, old(View()), b)
    {
      var n := |federation.pubkeys|;
      HighestBitBounds(b.signers, n);
      PopCountIsCardinality(b.signers);
      if b.signers != 0 && Ilog2(b.signers) >= n {
        return Err(SignerBitmapOversized(Ilog2(b.signers), n));
      }
      if PopCount(b.signers) < federation.threshold {
        return Err(BelowThreshold(PopCount(b.signers), federation.threshold));
      }
      if b.receipt.nonce in usedNonces {
        return Err(NonceReused(b.receipt.nonce));
      }
      var id := BuildId(keccak, federation);
      var digest := keccak(ReceiptPreimage(id, b.receipt));
      var keys := SelectKeys(federation.pubkeys, b.signers, digest);
      if !FastAggregateVerify(b.sig, digest, keys) {
        return Err(InvalidAggregateSig);
      }
      usedNonces := usedNonces + {b.receipt.nonce};
      return Ok(b.receipt);
    }
  }

  /** Keys of the set bits, in index order. */
  method SelectKeys(pubkeys: seq<BlsKey>, signers: nat, ghost m: Bytes) returns (keys: seq<BlsKey>)
    ensures SumOfKeys(keys, m) == SignedBy(pubkeys, Members(signers), m)
    ensures keys == [] ==> forall i :: i in Members(signers) ==> i >= |pubkeys|
  {
    keys := [];
    assert pubkeys[..|pubkeys|] == pubkeys;
    for i := 0 to |pubkeys|
      invariant SumOfKeys(keys, m) == SignedBy(pubkeys[..i], Members(signers), m)
      invariant keys == [] ==> forall j :: j in Members(signers) ==> j >= i
    {
      assert pubkeys[..i + 1][..i] == pubkeys[..i];
      assert i in Members(signers) <==> Bit(signers, i);
      if Bit(signers, i) {
        assert (keys + [pubkeys[i]])[..|keys|] == keys;
        keys := keys + [pubkeys[i]];
      }
    }
  }

  // ---------------------------------------------------------------------------------------
  // Runs
  // ---------------------------------------------------------------------------------------

  datatype Ledger = Ledger(vault: VaultState, paid: seq<AttestationBundle>)

  /** Offer bundles to a fresh vault, in order, keeping those that were released. */
  function ReleaseAll(keccak: Keccak, f: FederationSet, bundles: seq<AttestationBundle>): Ledger {
    if bundles == [] then Ledger(VaultState(f, {}), [])
    else
      var l := ReleaseAll(keccak, f, bundles[..|bundles| - 1]);
      var b := bundles[|bundles| - 1];
      var (v, r) := Released(keccak, l.vault, b);
      Ledger(v, if r.Ok? then l.paid + [b] else l.paid)
  }

  /** Over any run: the used nonces are those of the releases, no two releases share a nonce, each had
      at least `threshold` distinct signers who all signed its digest, and an authorised bundle is
      refused only if its nonce was released before. */
  lemma {:induction false} VaultOverRuns(keccak: Keccak, f: FederationSet, bundles: seq<AttestationBundle>)
    ensures var l := ReleaseAll(keccak, f, bundles);
      && l.vault.federation == f
      && l.vault.usedNonces == (set b | b in l.paid :: b.receipt.nonce)
      && (forall i, j :: 0 <= i < j < |l.paid| ==> l.paid[i].receipt.nonce != l.paid[j].receipt.nonce)
      && (forall b :: b in l.paid ==> b in bundles && Authorised(keccak, f, b))
      && (forall b :: b in bundles && Authorised(keccak, f, b) ==> b.receipt.nonce in l.vault.usedNonces)
  {
    hide Authorised, Released;
    if bundles != [] {
      var front, b := bundles[..|bundles| - 1], bundles[|bundles| - 1];
      VaultOverRuns(keccak, f, front);
      var l := ReleaseAll(keccak, f, front);
      ReleasedIffAuthorised(keccak, l.vault, b);
      ReleaseEffect(keccak, l.vault, b);
      assert bundles == front + [b];
      var m := ReleaseAll(keccak, f, bundles);
      assert forall c :: c in m.paid ==> c in l.paid || c == b;
      assert forall i :: 0 <= i < |l.paid| ==> l.paid[i] in l.paid;
      if m.paid != l.paid {
        assert m.paid == l.paid + [b] && b in m.paid;
        assert forall c :: c in l.paid ==> c in m.paid;
      }
    }
  }

  lemma ReleaseEffect(keccak: Keccak, v: VaultState, b: AttestationBundle)
    ensures var (w, r) := Released(keccak, v, b);
      && (r.Err? ==> w == v)
      && (r.Ok? ==> w == v.(usedNonces := v.usedNonces + {b.receipt.nonce}) && r.value == b.receipt)
  {
  }

  /** Everyone the bitmap names signed the digest. */
  lemma SignersSigned(keccak: Keccak, f: FederationSet, b: AttestationBundle, i: nat)
    requires Authorised(keccak, f, b) && i in Members(b.signers)
    ensures i < |f.pubkeys| && (f.pubkeys[i], Digest(keccak, f, b.receipt)) in b.sig.parts
  {
    SignedByHas(f.pubkeys, Members(b.signers), i, Digest(keccak, f, b.receipt));
  }

  /** keccak has no collision on this pair. */
  predicate NoCollision(keccak: Keccak, x: Bytes, y: Bytes) {
    keccak(x) == keccak(y) ==> x == y
  }

  /** One signature releases one receipt at one federation: it cannot be used for another receipt, nor at
      another federation, even one with the same keys and a different threshold. */
  lemma SignatureIsForOneRelease(keccak: Keccak, f: FederationSet, g: FederationSet,
                                 b: AttestationBundle, c: AttestationBundle)
    requires f.Valid() && g.Valid() && TypedFederation(f) && TypedFederation(g)
    requires TypedReceipt(b.receipt) && TypedReceipt(c.receipt)
    requires Authorised(keccak, f, b) && Authorised(keccak, g, c) && b.sig == c.sig
    requires |FederationId(keccak, f)| == |FederationId(keccak, g)|
    requires NoCollision(keccak, IdPreimage(f), IdPreimage(g))
    requires NoCollision(keccak, ReceiptPreimage(FederationId(keccak, f), b.receipt),
                                 ReceiptPreimage(FederationId(keccak, g), c.receipt))
    ensures f == g && b.receipt == c.receipt
  {
    hide ReceiptPreimage, IdPreimage, TypedReceipt, TypedFederation;
    var i :| i in Members(b.signers);
    SignersSigned(keccak, f, b, i);
    SignedByOnly(g.pubkeys, Members(c.signers), Digest(keccak, g, c.receipt));
    assert Digest(keccak, f, b.receipt) == Digest(keccak, g, c.receipt);
    ReceiptPreimageInjective(FederationId(keccak, f), b.receipt, FederationId(keccak, g), c.receipt);
    IdPreimageInjective(f, g);
  }

  // ---------------------------------------------------------------------------------------
  // How many key holders
  // ---------------------------------------------------------------------------------------

  /** The keys behind a set of signer indices. */
  function KeysOf(pubkeys: seq<BlsKey>, s: set<nat>): set<BlsKey> {
    set i | i in s && i < |pubkeys| :: pubkeys[i]
  }

  ghost predicate DistinctKeys(pubkeys: seq<BlsKey>) {
    forall i, j :: 0 <= i < j < |pubkeys| ==> pubkeys[i] != pubkeys[j]
  }

  lemma {:induction false} KeysAtMost(pubkeys: seq<BlsKey>, s: set<nat>)
    ensures |KeysOf(pubkeys, s)| <= |s|
    decreases |s|
  {
    if s == {} {
      assert KeysOf(pubkeys, s) == {};
    } else {
      var i :| i in s;
      KeysAtMost(pubkeys, s - {i});
      if i < |pubkeys| {
        assert KeysOf(pubkeys, s) == KeysOf(pubkeys, s - {i}) + {pubkeys[i]};
      } else {
        assert KeysOf(pubkeys, s) == KeysOf(pubkeys, s - {i});
      }
    }
  }

  lemma {:induction false} DistinctKeysCount(pubkeys: seq<BlsKey>, s: set<nat>)
    requires DistinctKeys(pubkeys) && forall i :: i in s ==> i < |pubkeys|
    ensures |KeysOf(pubkeys, s)| == |s|
    decreases |s|
  {
    if s == {} {
      assert KeysOf(pubkeys, s) == {};
    } else {
      var i :| i in s;
      DistinctKeysCount(pubkeys, s - {i});
      assert KeysOf(pubkeys, s) == KeysOf(pubkeys, s - {i}) + {pubkeys[i]};
      assert pubkeys[i] !in KeysOf(pubkeys, s - {i});
    }
  }

  /** A set of indices below `n` can be filled up to any size up to `n`. */
  lemma {:induction false} FillUp(s: set<nat>, n: nat, size: nat) returns (t: set<nat>)
    requires |s| <= size <= n && forall i :: i in s ==> i < n
    ensures s <= t && |t| == size && forall i :: i in t ==> i < n
    decreases size - |s|
  {
    if |s| == size {
      t := s;
    } else {
      if forall i: nat :: i < n ==> i in s {
        IndicesFill(s, n);
      }
      var k: nat :| k < n && k !in s;
      t := FillUp(s + {k}, n, size);
    }
  }

  lemma {:induction false} IndicesFill(s: set<nat>, n: nat)
    requires forall i: nat :: i < n ==> i in s
    ensures |s| >= n
  {
    if n > 0 {
      IndicesFill(s - {n - 1}, n - 1);
    }
  }

  lemma {:induction false} BitmapOf(s: set<nat>) returns (w: nat)
    ensures Members(w) == s
    decreases |s|
  {
    if s == {} {
      w := 0;
      ZeroMembers();
    } else {
      var i :| i in s;
      w := BitmapOf(s - {i});
      SetBitMembers(w, i);
      w := SetBit(w, i);
    }
  }

  /** Every authorised bundle carries signatures of at least `threshold` different keys. */
  ghost predicate ThresholdCountsKeys(keccak: Keccak, f: FederationSet) {
    forall b :: Authorised(keccak, f, b) ==> |KeysOf(f.pubkeys, Members(b.signers))| >= f.threshold
  }

  /** The threshold counts key holders if and only if the keys are all different or one signer is enough.
      Construction does not check either. */
  lemma ThresholdCountsKeysIff(keccak: Keccak, f: FederationSet)
    requires f.Valid()
    ensures ThresholdCountsKeys(keccak, f) <==> f.threshold == 1 || DistinctKeys(f.pubkeys)
  {
    hide Digest;
    if DistinctKeys(f.pubkeys) || f.threshold == 1 {
      forall b | Authorised(keccak, f, b) ensures |KeysOf(f.pubkeys, Members(b.signers))| >= f.threshold {
        var s := Members(b.signers);
        if f.threshold == 1 {
          var i :| i in s;
          assert f.pubkeys[i] in KeysOf(f.pubkeys, s);
        } else {
          DistinctKeysCount(f.pubkeys, s);
        }
      }
    } else {
      var b := SharedKeyBundle(keccak, f, LockReceipt(1, seq(32, _ => 0), 1, seq(20, _ => 0), 0));
      assert Authorised(keccak, f, b);
    }
  }

  /** With a repeated key and a threshold above one, fewer key holders than the threshold can authorise any receipt. */
  lemma SharedKeyBundle(keccak: Keccak, f: FederationSet, r: LockReceipt) returns (b: AttestationBundle)
    requires f.Valid() && f.threshold > 1 && !DistinctKeys(f.pubkeys)
    ensures b.receipt == r && Authorised(keccak, f, b) && |KeysOf(f.pubkeys, Members(b.signers))| < f.threshold
  {
    hide Digest;
    var i, j :| 0 <= i < j < |f.pubkeys| && f.pubkeys[i] == f.pubkeys[j];
    var s := FillUp({i, j}, |f.pubkeys|, f.threshold);
    var w := BitmapOf(s);
    b := AttestationBundle(r, Signature(SignedBy(f.pubkeys, s, Digest(keccak, f, r))), w);
    KeysAtMost(f.pubkeys, s - {j});
    assert KeysOf(f.pubkeys, s) == KeysOf(f.pubkeys, s - {j}) by {
      forall k | k in KeysOf(f.pubkeys, s) ensures k in KeysOf(f.pubkeys, s - {j}) {
        var x :| x in s && x < |f.pubkeys| && f.pubkeys[x] == k;
        var y := if x == j then i else x;
        assert y in s - {j} && f.pubkeys[y] == k;
      }
    }
  }
}
