/** The byte strings that are hashed and signed determine what they stand for. */
module Digests {
  import opened Crypto
  import opened BigEndian

  /** The two domain tags, as bytes. */
  const PREVOTE_DOMAIN: Bytes := [65, 73, 73, 45, 80, 82, 69, 86, 79, 84, 69]
  const PRECOMMIT_DOMAIN: Bytes := [65, 73, 73, 45, 80, 82, 69, 67, 79, 77, 77, 73, 84]

  function Domain(kind: VoteKind): Bytes {
    match kind
    case Prevote => PREVOTE_DOMAIN
    case Precommit => PRECOMMIT_DOMAIN
  }

  /** What `digest` hands to keccak256: domain, block hash, height, round. */
  function VotePreimage(st: Statement): Bytes {
    Domain(st.kind) + st.block + ToBytes(st.height, 8) + ToBytes(st.round, 4)
  }

  /** What leader selection and the VRF input hash: height, round, seed. */
  function LeaderPreimage(height: nat, round: nat, seed: Bytes): Bytes {
    ToBytes(height, 8) + ToBytes(round, 4) + seed
  }

  /** The fields have the widths of the source's types. */
  predicate Sized(st: Statement) {
    |st.block| == 32 && st.height < Pow256(8) && st.round < Pow256(4)
  }

  /** Distinct statements are signed over distinct bytes: a signature never carries over to the other
      phase, another block, another height or another round. */
  lemma VotePreimageInjective(st: Statement, tt: Statement)
    requires Sized(st) && Sized(tt) && VotePreimage(st) == VotePreimage(tt)
    ensures st == tt
  {
    assert |Domain(st.kind)| == |Domain(tt.kind)|;
    assert st.kind == tt.kind;
    var d := Domain(st.kind);
    Split(d + st.block + ToBytes(st.height, 8), ToBytes(st.round, 4),
          d + tt.block + ToBytes(tt.height, 8), ToBytes(tt.round, 4));
    Split(d + st.block, ToBytes(st.height, 8), d + tt.block, ToBytes(tt.height, 8));
    Split(d, st.block, d, tt.block);
    BytesInjective(st.height, tt.height, 8);
    BytesInjective(st.round, tt.round, 4);
  }

  /** Each (height, round, seed) has its own leader draw and VRF input. */
  lemma LeaderPreimageInjective(h: nat, r: nat, s: Bytes, h': nat, r': nat, s': Bytes)
    requires h < Pow256(8) && h' < Pow256(8) && r < Pow256(4) && r' < Pow256(4)
    requires LeaderPreimage(h, r, s) == LeaderPreimage(h', r', s')
    ensures h == h' && r == r' && s == s'
  {
    Split(ToBytes(h, 8) + ToBytes(r, 4), s, ToBytes(h', 8) + ToBytes(r', 4), s');
    Split(ToBytes(h, 8), ToBytes(r, 4), ToBytes(h', 8), ToBytes(r', 4));
    BytesInjective(h, h', 8);
    BytesInjective(r, r', 4);
  }

  /** The documented order: domain tag, 32-byte block hash, 8-byte height, 4-byte round. */
  lemma VotePreimageLayout(st: Statement)
    requires Sized(st)
    ensures var b := VotePreimage(st);
      var d := if st.kind.Prevote? then 11 else 13;
      && |b| == d + 44 && b[..d] == (if st.kind.Prevote? then PREVOTE_DOMAIN else PRECOMMIT_DOMAIN)
      && b[d..d + 32] == st.block && FromBytes(b[d + 32..d + 40]) == st.height && FromBytes(b[d + 40..]) == st.round
  {
    hide FromBytes, ToBytes, Pow256;
    FromToBytes(st.height, 8);
    FromToBytes(st.round, 4);
    var b := VotePreimage(st);
    var d := |Domain(st.kind)|;
    assert b[d + 32..d + 40] == ToBytes(st.height, 8) && b[d + 40..] == ToBytes(st.round, 4);
  }

  /** The documented order: 8-byte height, 4-byte round, seed. */
  lemma LeaderPreimageLayout(h: nat, r: nat, s: Bytes)
    requires h < Pow256(8) && r < Pow256(4)
    ensures var b := LeaderPreimage(h, r, s);
      FromBytes(b[..8]) == h && FromBytes(b[8..12]) == r && b[12..] == s
  {
    hide FromBytes, ToBytes, Pow256;
    FromToBytes(h, 8);
    FromToBytes(r, 4);
    var b := LeaderPreimage(h, r, s);
    assert b[..8] == ToBytes(h, 8) && b[8..12] == ToBytes(r, 4);
  }
}
