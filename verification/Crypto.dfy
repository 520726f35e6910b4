/** Ideal cryptography and the opaque functions the consensus code calls.

    A BLS signature is the formal sum of the `(key, message)` pairs that were signed into it:
    signatures are points of a commutative group, and aggregation is addition, so it forgets
    order but not multiplicity.  `FastAggregateVerify` follows section 3.3.4 of
    draft-irtf-cfrg-bls-signature: it accepts exactly the sum of the listed keys over one message.
  */
module Crypto {

  type Byte = b: nat | b < 256
  type Bytes = seq<Byte>
  type BlsKey = Bytes
  type VrfKey = Bytes

  datatype Option<+T> = None | Some(value: T)
  datatype Result<+T, +E> = Ok(value: T) | Err(error: E)

  datatype Signature<M(==)> = Signature(parts: multiset<(BlsKey, M)>)

  function Sign<M>(key: BlsKey, m: M): Signature<M> {
    Signature(multiset{(key, m)})
  }

  predicate Verifies<M>(sig: Signature<M>, m: M, key: BlsKey) {
    sig.parts == multiset{(key, m)}
  }

  function SumOfParts<M>(sigs: seq<Signature<M>>): multiset<(BlsKey, M)> {
    if sigs == [] then multiset{} else SumOfParts(sigs[..|sigs| - 1]) + sigs[|sigs| - 1].parts
  }

  function AggregateSignatures<M>(sigs: seq<Signature<M>>): Option<Signature<M>> {
    if sigs == [] then None else Some(Signature(SumOfParts(sigs)))
  }

  function SumOfKeys<M(==)>(keys: seq<BlsKey>, m: M): multiset<(BlsKey, M)> {
    if keys == [] then multiset{} else SumOfKeys(keys[..|keys| - 1], m) + multiset{(keys[|keys| - 1], m)}
  }

  predicate FastAggregateVerify<M>(sig: Signature<M>, m: M, keys: seq<BlsKey>) {
    keys != [] && sig.parts == SumOfKeys(keys, m)
  }

  /** The two voting phases; each has its own signing domain. */
  datatype VoteKind = Prevote | Precommit

  /** What a validator signs when it votes.  `Digests` shows that the byte string the source
      hashes determines all four fields. */
  datatype Statement = Statement(kind: VoteKind, block: Bytes, height: nat, round: nat)

  type VoteSignature = Signature<Statement>

  /** A VRF proof (`pre_output`, `proof`) together with the claimed output. */
  datatype LeaderProof = LeaderProof(preOutput: Bytes, proof: Bytes, vrfOutput: Bytes)

  datatype Header = Header(parentHash: Bytes, number: nat, timestamp: nat, mixHash: Bytes,
                           beneficiary: Bytes, transactionsRoot: Bytes)

  datatype Block = Block(header: Header, body: Bytes)

  /** Library functions that are not part of this model, shared by every node.
      `leaderWord` is the first eight bytes of keccak256(height, round, seed) as a number;
      `vrfVerify` recovers the VRF output for a key, an input and a proof. */
  datatype Primitives = Primitives(
    headerHash: Header -> Bytes,
    leaderWord: (nat, nat, Bytes) -> nat,
    vrfVerify: (VrfKey, nat, nat, Bytes, Bytes, Bytes) -> Option<Bytes>,
    transactionsRoot: Bytes -> Bytes,
    decodeBody: Bytes -> Option<Bytes>,
    encodeBody: Bytes -> Bytes,
    encodeBlock: Block -> Bytes,
    decodeBlock: Bytes -> Option<Block>)

  function HashOf(prim: Primitives, b: Block): Bytes {
    prim.headerHash(b.header)
  }
}
