/** The wire codec for consensus messages. */
module Wire {
  import opened Bits
  import opened Crypto
  import opened Tally
  import opened BigEndian

  const VOTE_LEN: nat := 145
  const PROPOSAL_MIN_LEN: nat := 197
  const MAX_PROPOSAL_BODY_LEN: nat := 16 * 1024 * 1024
  const BLOCK_REQUEST_LEN: nat := 9
  const BLOCK_RESPONSE_HEADER_LEN: nat := 5
  const BLOCK_CERT_LEN: nat := 156
  const BLOCK_RESPONSE_MIN_LEN: nat := 161
  const MAX_BLOCK_RESPONSE_LEN: nat := 16 * 1024 * 1024 + 64 * 1024

  datatype Message =
    | ProposalMsg(height: nat, round: nat, block: Bytes, proof: LeaderProof, coinbase: Bytes, body: Bytes)
    | VoteMsg(kind: VoteKind, vote: Vote)
    | BlockRequest(height: nat)
    | BlockResponse(blockBytes: Bytes, cert: PrecommitCertificate)

  datatype CodecError =
    | Empty
    | UnknownTag(tag: Byte)
    | WrongLength(expected: nat, got: nat)
    | InvalidPoint
    | ProposalBodyTooLarge(max: nat, got: nat)
    | BlockResponseTooLarge(max: nat, got: nat)

  /** Point compression, from the BLS library. */
  datatype PointCodec = PointCodec(compress: VoteSignature -> Bytes, decompress: Bytes -> Option<VoteSignature>)

  /** Decompression accepts only 96-byte canonical encodings. */
  ghost predicate Lawful(pc: PointCodec) {
    forall b: Bytes :: pc.decompress(b).Some? ==> |b| == 96 && pc.compress(pc.decompress(b).value) == b
  }

  /** The signature is a point with an encoding of its own. */
  predicate Representable(pc: PointCodec, s: VoteSignature) {
    |pc.compress(s)| == 96 && pc.decompress(pc.compress(s)) == Some(s)
  }

  // ---------------------------------------------------------------------------------------
  // Encoding
  // ---------------------------------------------------------------------------------------

  /** A length as the `u32` prefix; larger lengths saturate. */
  function LengthPrefix(n: nat): Bytes {
    ToBytes(if n <= U32_MAX then n else U32_MAX, 4)
  }

  function VoteFields(v: Vote): Bytes {
    v.block + ToBytes(v.height, 8) + ToBytes(v.round, 4) + ToBytes(v.index, 4)
  }

  function EncodeCert(pc: PointCodec, c: Certificate): Bytes {
    c.block + ToBytes(c.height, 8) + ToBytes(c.round, 4) + ToBytes(c.signers, 16) + pc.compress(c.sig)
  }

  function TagOf(m: Message): Byte {
    match m
    case ProposalMsg(_, _, _, _, _, _) => 0
    case VoteMsg(Prevote, _) => 1
    case VoteMsg(Precommit, _) => 2
    case BlockRequest(_) => 3
    case BlockResponse(_, _) => 4
  }

  function ProposalHeader(m: Message): Bytes
    requires m.ProposalMsg?
  {
    [TagOf(m)] + ToBytes(m.height, 8) + ToBytes(m.round, 4) + m.block + m.proof.preOutput + m.proof.proof
    + m.proof.vrfOutput + m.coinbase
  }

  function Encode(pc: PointCodec, m: Message): Bytes {
    match m
    case ProposalMsg(_, _, _, _, _, body) => ProposalHeader(m) + LengthPrefix(|body|) + body
    case VoteMsg(_, v) => [TagOf(m)] + VoteFields(v) + pc.compress(v.sig)
    case BlockRequest(h) => [TagOf(m)] + ToBytes(h, 8)
    case BlockResponse(block, cert) => [TagOf(m)] + LengthPrefix(|block|) + block + EncodeCert(pc, cert)
  }

  function EncodedLen(m: Message): nat {
    match m
    case ProposalMsg(_, _, _, _, _, body) => PROPOSAL_MIN_LEN + |body|
    case VoteMsg(_, _) => VOTE_LEN
    case BlockRequest(_) => BLOCK_REQUEST_LEN
    case BlockResponse(block, _) => BLOCK_RESPONSE_HEADER_LEN + |block| + BLOCK_CERT_LEN
  }

  /** Field widths that the source's types guarantee. */
  predicate Typed(pc: PointCodec, m: Message) {
    match m
    case ProposalMsg(h, r, b, p, coinbase, _) =>
      && h < Pow256(8) && r < Pow256(4) && |b| == 32
      && |p.preOutput| == 32 && |p.proof| == 64 && |p.vrfOutput| == 32 && |coinbase| == 20
    case VoteMsg(_, v) =>
      && |v.block| == 32 && v.height < Pow256(8) && v.round < Pow256(4) && v.index < Pow256(4)
      && Representable(pc, v.sig)
    case BlockRequest(h) => h < Pow256(8)
    case BlockResponse(_, c) => TypedCert(pc, c)
  }

  predicate TypedCert(pc: PointCodec, c: Certificate) {
    && |c.block| == 32 && c.height < Pow256(8) && c.round < Pow256(4) && c.signers < Pow256(16)
    && Representable(pc, c.sig)
  }

  predicate WithinCap(m: Message) {
    match m
    case ProposalMsg(_, _, _, _, _, body) => |body| <= MAX_PROPOSAL_BODY_LEN
    case BlockResponse(block, _) => |block| <= MAX_BLOCK_RESPONSE_LEN
    case _ => true
  }

  lemma EncodeLength(pc: PointCodec, m: Message)
    requires Typed(pc, m)
    ensures |Encode(pc, m)| == EncodedLen(m) && Encode(pc, m)[0] == TagOf(m)
  {
  }

  // ---------------------------------------------------------------------------------------
  // Decoding
  // ---------------------------------------------------------------------------------------

  /** The error a byte string is rejected with, if any. */
  function ErrorOf(pc: PointCodec, b: Bytes): Option<CodecError> {
    if b == [] then Some(Empty)
    else if b[0] == 0 then
      if |b| < PROPOSAL_MIN_LEN then Some(WrongLength(PROPOSAL_MIN_LEN, |b|))
      else
        var n := FromBytes(b[193..197]);
        if n > MAX_PROPOSAL_BODY_LEN then Some(ProposalBodyTooLarge(MAX_PROPOSAL_BODY_LEN, n))
        else if |b| != PROPOSAL_MIN_LEN + n then Some(WrongLength(PROPOSAL_MIN_LEN + n, |b|))
        else None
    else if b[0] == 1 || b[0] == 2 then
      if |b| != VOTE_LEN then Some(WrongLength(VOTE_LEN, |b|))
      else if pc.decompress(b[49..145]).None? then Some(InvalidPoint)
      else None
    else if b[0] == 3 then
      if |b| != BLOCK_REQUEST_LEN then Some(WrongLength(BLOCK_REQUEST_LEN, |b|)) else None
    else if b[0] == 4 then
      if |b| < BLOCK_RESPONSE_MIN_LEN then Some(WrongLength(BLOCK_RESPONSE_MIN_LEN, |b|))
      else
        var n := FromBytes(b[1..5]);
        if n > MAX_BLOCK_RESPONSE_LEN then Some(BlockResponseTooLarge(MAX_BLOCK_RESPONSE_LEN, n))
        else if |b| != BLOCK_RESPONSE_HEADER_LEN + n + BLOCK_CERT_LEN
        then Some(WrongLength(BLOCK_RESPONSE_HEADER_LEN + n + BLOCK_CERT_LEN, |b|))
        else if pc.decompress(b[|b| - 96..]).None? then Some(InvalidPoint)
        else None
    else Some(UnknownTag(b[0]))
  }

  /** The message is the one whose encoding is exactly `b`. */
  ghost predicate Decodes(pc: PointCodec, b: Bytes, m: Message) {
    Typed(pc, m) && WithinCap(m) && Encode(pc, m) == b
  }

  /** The encoder: fields are appended to a buffer one by one.  A typed message within the caps becomes the
      bytes that decode to it, of the announced length. */
  method EncodeMessage(pc: PointCodec, m: Message) returns (buf: Bytes)
    ensures buf == Encode(pc, m)
    ensures Typed(pc, m) ==> |buf| == EncodedLen(m)
    ensures Typed(pc, m) && WithinCap(m) ==> Decodes(pc, buf, m)
  {
    hide ToBytes, Typed;
    buf := [TagOf(m)];
    match m {
      case ProposalMsg(height, round, block, proof, coinbase, body) =>
        buf := buf + ToBytes(height, 8);
        buf := buf + ToBytes(round, 4);
        buf := buf + block;
        buf := buf + proof.preOutput;
        buf := buf + proof.proof;
        buf := buf + proof.vrfOutput;
        buf := buf + coinbase;
        buf := buf + LengthPrefix(|body|);
        buf := buf + body;
      case VoteMsg(_, v) =>
        buf := buf + VoteFields(v);
        buf := buf + pc.compress(v.sig);
      case BlockRequest(height) =>
        buf := buf + ToBytes(height, 8);
      case BlockResponse(block, cert) =>
        buf := buf + LengthPrefix(|block|);
        buf := buf + block;
        buf := buf + EncodeCert(pc, cert);
    }
    if Typed(pc, m) {
      EncodeLength(pc, m);
    }
  }

  /** Decoding inverts encoding in both directions: it returns a message only if that message encodes
      to the input byte for byte, it returns every such message, and otherwise it reports the error of
      the input.  No slice is out of range on any input. */
  method Decode(pc: PointCodec, b: Bytes) returns (r: Result<Message, CodecError>)
    requires Lawful(pc)
    ensures r.Ok? ==> Decodes(pc, b, r.value)
    ensures forall m :: Decodes(pc, b, m) ==> r == Ok(m)
    ensures ErrorOf(pc, b) == if r.Err? then Some(r.error) else None
  {
    hide Decodes, ErrorOf;
    r := DecodeByTag(pc, b);
    forall m | Decodes(pc, b, m) ensures r == Ok(m) {
      EncodingIsAccepted(pc, b, m);
      DecodedIsUnique(pc, b, m, r.value);
    }
  }

  method DecodeByTag(pc: PointCodec, b: Bytes) returns (r: Result<Message, CodecError>)
    requires Lawful(pc)
    ensures r.Ok? ==> Decodes(pc, b, r.value)
    ensures ErrorOf(pc, b) == if r.Err? then Some(r.error) else None
  {
    if b == [] {
      return Err(Empty);
    }
    match b[0]
    case 0 => r := DecodeProposal(pc, b);
    case 1 => r := DecodeVote(pc, b, Prevote);
    case 2 => r := DecodeVote(pc, b, Precommit);
    case 3 => r := DecodeBlockRequest(pc, b);
    case 4 => r := DecodeBlockResponse(pc, b);
    case other => r := Err(UnknownTag(other));
  }

  /** Reading `w` bytes at the cursor and writing them back extends the prefix. */
  lemma ReadField(b: Bytes, cur: nat, w: nat)
    requires cur + w <= |b|
    ensures b[..cur] + b[cur..cur + w] == b[..cur + w]
    ensures ToBytes(FromBytes(b[cur..cur + w]), w) == b[cur..cur + w] && FromBytes(b[cur..cur + w]) < Pow256(w)
  {
    hide FromBytes, ToBytes, Pow256;
    ToFromBytes(b[cur..cur + w]);
  }

  method DecodeProposal(pc: PointCodec, b: Bytes) returns (r: Result<Message, CodecError>)
    requires b != [] && b[0] == 0
    ensures r.Ok? ==> Decodes(pc, b, r.value)
    ensures ErrorOf(pc, b) == if r.Err? then Some(r.error) else None
  {
    hide FromBytes, ToBytes, Pow256;
    if |b| < PROPOSAL_MIN_LEN {
      return Err(WrongLength(PROPOSAL_MIN_LEN, |b|));
    }
    var cur := 1;
    assert b[..1] == [0];
    ReadField(b, cur, 8);
    var height := FromBytes(b[cur..cur + 8]);
    cur := cur + 8;
    ReadField(b, cur, 4);
    var round := FromBytes(b[cur..cur + 4]);
    cur := cur + 4;
    ReadField(b, cur, 32);
    var block := b[cur..cur + 32];
    cur := cur + 32;
    ReadField(b, cur, 32);
    var preOutput := b[cur..cur + 32];
    cur := cur + 32;
    ReadField(b, cur, 64);
    var proof := b[cur..cur + 64];
    cur := cur + 64;
    ReadField(b, cur, 32);
    var vrfOutput := b[cur..cur + 32];
    cur := cur + 32;
    ReadField(b, cur, 20);
    var coinbase := b[cur..cur + 20];
    cur := cur + 20;
    ReadField(b, cur, 4);
    var bodyLen := FromBytes(b[cur..cur + 4]);
    cur := cur + 4;
    if bodyLen > MAX_PROPOSAL_BODY_LEN {
      return Err(ProposalBodyTooLarge(MAX_PROPOSAL_BODY_LEN, bodyLen));
    }
    if |b| != PROPOSAL_MIN_LEN + bodyLen {
      return Err(WrongLength(PROPOSAL_MIN_LEN + bodyLen, |b|));
    }
    var body := b[cur..cur + bodyLen];
    var m := ProposalMsg(height, round, block, LeaderProof(preOutput, proof, vrfOutput), coinbase, body);
    assert ProposalHeader(m) == b[..193];
    assert b[..197] + body == b;
    return Ok(m);
  }

  method DecodeVote(pc: PointCodec, b: Bytes, kind: VoteKind) returns (r: Result<Message, CodecError>)
    requires Lawful(pc) && b != [] && b[0] == (if kind.Prevote? then 1 else 2)
    ensures r.Ok? ==> Decodes(pc, b, r.value)
    ensures ErrorOf(pc, b) == if r.Err? then Some(r.error) else None
  {
    hide FromBytes, ToBytes, Pow256;
    if |b| != VOTE_LEN {
      return Err(WrongLength(VOTE_LEN, |b|));
    }
    var cur := 1;
    var block := b[cur..cur + 32];
    cur := cur + 32;
    ReadField(b, cur, 8);
    var height := FromBytes(b[cur..cur + 8]);
    cur := cur + 8;
    ReadField(b, cur, 4);
    var round := FromBytes(b[cur..cur + 4]);
    cur := cur + 4;
    ReadField(b, cur, 4);
    var index := FromBytes(b[cur..cur + 4]);
    cur := cur + 4;
    var sig := pc.decompress(b[cur..cur + 96]);
    if sig.None? {
      return Err(InvalidPoint);
    }
    var v := Vote(block, height, round, index, sig.value);
    VoteFieldsAre(b, v);
    hide VoteFields;
    assert b == [b[0]] + b[1..49] + b[49..145];
    return Ok(VoteMsg(kind, v));
  }

  lemma VoteFieldsAre(b: Bytes, v: Vote)
    requires |b| == VOTE_LEN && v.block == b[1..33] && ToBytes(v.height, 8) == b[33..41]
    requires ToBytes(v.round, 4) == b[41..45] && ToBytes(v.index, 4) == b[45..49]
    ensures VoteFields(v) == b[1..49]
  {
    hide ToBytes;
    assert b[1..33] + b[33..41] == b[1..41] && b[1..41] + b[41..45] == b[1..45];
    assert b[1..45] + b[45..49] == b[1..49];
  }

  method DecodeBlockRequest(pc: PointCodec, b: Bytes) returns (r: Result<Message, CodecError>)
    requires b != [] && b[0] == 3
    ensures r.Ok? ==> Decodes(pc, b, r.value)
    ensures ErrorOf(pc, b) == if r.Err? then Some(r.error) else None
  {
    hide FromBytes, ToBytes, Pow256;
    if |b| != BLOCK_REQUEST_LEN {
      return Err(WrongLength(BLOCK_REQUEST_LEN, |b|));
    }
    ReadField(b, 1, 8);
    return Ok(BlockRequest(FromBytes(b[1..9])));
  }

  method DecodeBlockResponse(pc: PointCodec, b: Bytes) returns (r: Result<Message, CodecError>)
    requires Lawful(pc) && b != [] && b[0] == 4
    ensures r.Ok? ==> Decodes(pc, b, r.value)
    ensures ErrorOf(pc, b) == if r.Err? then Some(r.error) else None
  {
    hide FromBytes, ToBytes, Pow256;
    if |b| < BLOCK_RESPONSE_MIN_LEN {
      return Err(WrongLength(BLOCK_RESPONSE_MIN_LEN, |b|));
    }
    ReadField(b, 1, 4);
    var len := FromBytes(b[1..5]);
    if len > MAX_BLOCK_RESPONSE_LEN {
      return Err(BlockResponseTooLarge(MAX_BLOCK_RESPONSE_LEN, len));
    }
    var expected := BLOCK_RESPONSE_HEADER_LEN + len + BLOCK_CERT_LEN;
    if |b| != expected {
      return Err(WrongLength(expected, |b|));
    }
    var block := b[BLOCK_RESPONSE_HEADER_LEN..BLOCK_RESPONSE_HEADER_LEN + len];
    var rest := b[BLOCK_RESPONSE_HEADER_LEN + len..];
    assert rest[60..] == b[|b| - 96..];
    var cert := DecodeCert(pc, rest);
    if cert.Err? {
      return Err(cert.error);
    }
    assert b == [4] + b[1..5] + block + rest;
    return Ok(BlockResponse(block, cert.value));
  }

  method DecodeCert(pc: PointCodec, b: Bytes) returns (r: Result<PrecommitCertificate, CodecError>)
    requires Lawful(pc)
    ensures r.Ok? ==> TypedCert(pc, r.value) && EncodeCert(pc, r.value) == b
    ensures r.Err? <==> |b| != BLOCK_CERT_LEN || pc.decompress(b[60..]).None?
    ensures r.Err? ==> r.error == if |b| != BLOCK_CERT_LEN then WrongLength(BLOCK_CERT_LEN, |b|) else InvalidPoint
  {
    hide FromBytes, ToBytes, Pow256;
    if |b| != BLOCK_CERT_LEN {
      return Err(WrongLength(BLOCK_CERT_LEN, |b|));
    }
    ReadField(b, 32, 8);
    ReadField(b, 40, 4);
    ReadField(b, 44, 16);
    assert b[60..156] == b[60..];
    var sig := pc.decompress(b[60..156]);
    if sig.None? {
      return Err(InvalidPoint);
    }
    var c := Certificate(Precommit, b[0..32], FromBytes(b[32..40]), FromBytes(b[40..44]), FromBytes(b[44..60]),
                         sig.value);
    assert b[..60] + b[60..156] == b;
    return Ok(c);
  }

  // ---------------------------------------------------------------------------------------
  // Encoding loses nothing
  // ---------------------------------------------------------------------------------------

  lemma CertInjective(pc: PointCodec, c: Certificate, d: Certificate)
    requires TypedCert(pc, c) && TypedCert(pc, d) && c.kind == d.kind && EncodeCert(pc, c) == EncodeCert(pc, d)
    ensures c == d
  {
    hide FromBytes, ToBytes, Pow256;
    Split(c.block + ToBytes(c.height, 8) + ToBytes(c.round, 4) + ToBytes(c.signers, 16), pc.compress(c.sig),
          d.block + ToBytes(d.height, 8) + ToBytes(d.round, 4) + ToBytes(d.signers, 16), pc.compress(d.sig));
    Split(c.block + ToBytes(c.height, 8) + ToBytes(c.round, 4), ToBytes(c.signers, 16),
          d.block + ToBytes(d.height, 8) + ToBytes(d.round, 4), ToBytes(d.signers, 16));
    Split(c.block + ToBytes(c.height, 8), ToBytes(c.round, 4), d.block + ToBytes(d.height, 8), ToBytes(d.round, 4));
    Split(c.block, ToBytes(c.height, 8), d.block, ToBytes(d.height, 8));
    BytesInjective(c.height, d.height, 8);
    BytesInjective(c.round, d.round, 4);
    BytesInjective(c.signers, d.signers, 16);
  }

  lemma VoteInjective(pc: PointCodec, v: Vote, w: Vote)
    requires Typed(pc, VoteMsg(Prevote, v)) && Typed(pc, VoteMsg(Prevote, w))
    requires VoteFields(v) + pc.compress(v.sig) == VoteFields(w) + pc.compress(w.sig)
    ensures v == w
  {
    hide FromBytes, ToBytes, Pow256;
    Split(VoteFields(v), pc.compress(v.sig), VoteFields(w), pc.compress(w.sig));
    Split(v.block + ToBytes(v.height, 8) + ToBytes(v.round, 4), ToBytes(v.index, 4),
          w.block + ToBytes(w.height, 8) + ToBytes(w.round, 4), ToBytes(w.index, 4));
    Split(v.block + ToBytes(v.height, 8), ToBytes(v.round, 4), w.block + ToBytes(w.height, 8), ToBytes(w.round, 4));
    Split(v.block, ToBytes(v.height, 8), w.block, ToBytes(w.height, 8));
    BytesInjective(v.height, w.height, 8);
    BytesInjective(v.round, w.round, 4);
    BytesInjective(v.index, w.index, 4);
  }

  lemma HeaderInjective(m: Message, n: Message)
    requires m.ProposalMsg? && n.ProposalMsg? && ProposalHeader(m) == ProposalHeader(n)
    requires m.height < Pow256(8) && n.height < Pow256(8) && m.round < Pow256(4) && n.round < Pow256(4)
    requires |m.block| == |n.block| && |m.proof.preOutput| == |n.proof.preOutput| && |m.proof.proof| == |n.proof.proof|
    requires |m.proof.vrfOutput| == |n.proof.vrfOutput| && |m.coinbase| == |n.coinbase|
    ensures n == m.(body := n.body)
  {
    hide FromBytes, ToBytes, Pow256;
    var a, b := [TagOf(m)] + ToBytes(m.height, 8), [TagOf(n)] + ToBytes(n.height, 8);
    var c, d := a + ToBytes(m.round, 4), b + ToBytes(n.round, 4);
    var e, f := c + m.block, d + n.block;
    var g, h := e + m.proof.preOutput, f + n.proof.preOutput;
    var i, j := g + m.proof.proof, h + n.proof.proof;
    var k, l := i + m.proof.vrfOutput, j + n.proof.vrfOutput;
    Split(k, m.coinbase, l, n.coinbase);
    Split(i, m.proof.vrfOutput, j, n.proof.vrfOutput);
    Split(g, m.proof.proof, h, n.proof.proof);
    Split(e, m.proof.preOutput, f, n.proof.preOutput);
    Split(c, m.block, d, n.block);
    Split(a, ToBytes(m.round, 4), b, ToBytes(n.round, 4));
    Split([TagOf(m)], ToBytes(m.height, 8), [TagOf(n)], ToBytes(n.height, 8));
    BytesInjective(m.height, n.height, 8);
    BytesInjective(m.round, n.round, 4);
  }

  /** Two typed messages with the same bytes are the same message. */
  lemma EncodeInjective(pc: PointCodec, m: Message, n: Message)
    requires Typed(pc, m) && Typed(pc, n) && Encode(pc, m) == Encode(pc, n)
    ensures m == n
  {
    EncodeLength(pc, m);
    EncodeLength(pc, n);
    hide FromBytes, ToBytes, Pow256;
    match m
    case ProposalMsg(_, _, _, _, _, _) =>
      Split(ProposalHeader(m) + LengthPrefix(|m.body|), m.body, ProposalHeader(n) + LengthPrefix(|n.body|), n.body);
      Split(ProposalHeader(m), LengthPrefix(|m.body|), ProposalHeader(n), LengthPrefix(|n.body|));
      HeaderInjective(m, n);
    case VoteMsg(_, v) =>
      assert Encode(pc, m)[1..] == VoteFields(v) + pc.compress(v.sig);
      assert Encode(pc, n)[1..] == VoteFields(n.vote) + pc.compress(n.vote.sig);
      VoteInjective(pc, v, n.vote);
    case BlockRequest(h) =>
      Split([TagOf(m)], ToBytes(h, 8), [TagOf(n)], ToBytes(n.height, 8));
      BytesInjective(h, n.height, 8);
    case BlockResponse(block, cert) =>
      Split([TagOf(m)] + LengthPrefix(|block|) + block, EncodeCert(pc, cert),
            [TagOf(n)] + LengthPrefix(|n.blockBytes|) + n.blockBytes, EncodeCert(pc, n.cert));
      Split([TagOf(m)] + LengthPrefix(|block|), block, [TagOf(n)] + LengthPrefix(|n.blockBytes|), n.blockBytes);
      CertInjective(pc, cert, n.cert);
  }

  lemma DecodedIsUnique(pc: PointCodec, b: Bytes, m: Message, n: Message)
    requires Decodes(pc, b, m) && Decodes(pc, b, n)
    ensures m == n
  {
    EncodeInjective(pc, m, n);
  }

  lemma PrefixValue(n: nat)
    ensures FromBytes(LengthPrefix(n)) == if n <= U32_MAX then n else U32_MAX
  {
    Widths();
    FromToBytes(if n <= U32_MAX then n else U32_MAX, 4);
  }

  /** A typed message survives the codec exactly when its variable part is within the cap. */
  lemma AcceptedIffWithinCap(pc: PointCodec, m: Message)
    requires Typed(pc, m)
    ensures ErrorOf(pc, Encode(pc, m)) == None <==> WithinCap(m)
  {
    EncodeLength(pc, m);
    hide FromBytes, ToBytes, Pow256;
    var b := Encode(pc, m);
    match m
    case ProposalMsg(_, _, _, _, _, body) =>
      PrefixValue(|body|);
      assert b[193..197] == LengthPrefix(|body|);
    case VoteMsg(_, v) =>
      assert b[49..145] == pc.compress(v.sig);
    case BlockRequest(h) =>
    case BlockResponse(block, cert) =>
      PrefixValue(|block|);
      assert b[1..5] == LengthPrefix(|block|);
      assert b[|b| - 96..] == pc.compress(cert.sig);
  }

  lemma EncodingIsAccepted(pc: PointCodec, b: Bytes, m: Message)
    requires Decodes(pc, b, m)
    ensures ErrorOf(pc, b) == None
  {
    AcceptedIffWithinCap(pc, m);
  }

  // ---------------------------------------------------------------------------------------
  // The documented layout
  // ---------------------------------------------------------------------------------------

  /** The field of `w` bytes at offset `at` is the big-endian number `n`. */
  predicate NumberAt(b: Bytes, at: nat, w: nat, n: nat) {
    at + w <= |b| && FromBytes(b[at..at + w]) == n
  }

  predicate BytesAt(b: Bytes, at: nat, x: Bytes) {
    at + |x| <= |b| && b[at..at + |x|] == x
  }

  lemma NumberFits(p: Bytes, n: nat, w: nat, q: Bytes)
    requires n < Pow256(w)
    ensures NumberAt(p + ToBytes(n, w) + q, |p|, w, n)
  {
    var b := p + ToBytes(n, w) + q;
    assert b[|p|..|p| + w] == ToBytes(n, w);
    FromToBytes(n, w);
  }

  lemma BytesFit(p: Bytes, x: Bytes, q: Bytes)
    ensures BytesAt(p + x + q, |p|, x)
  {
    assert (p + x + q)[|p|..|p| + |x|] == x;
  }

  lemma VoteLayout(pc: PointCodec, kind: VoteKind, v: Vote)
    requires Typed(pc, VoteMsg(kind, v))
    ensures var b := Encode(pc, VoteMsg(kind, v));
      && |b| == 145 && b[0] == (if kind.Prevote? then 1 else 2)
      && BytesAt(b, 1, v.block) && NumberAt(b, 33, 8, v.height) && NumberAt(b, 41, 4, v.round)
      && NumberAt(b, 45, 4, v.index) && BytesAt(b, 49, pc.compress(v.sig))
  {
    hide FromBytes, ToBytes, Pow256, NumberAt, BytesAt;
    var b := Encode(pc, VoteMsg(kind, v));
    var sig := pc.compress(v.sig);
    var h, r, i := ToBytes(v.height, 8), ToBytes(v.round, 4), ToBytes(v.index, 4);
    var p := [b[0]] + v.block;
    assert BytesAt(b, 1, v.block) by {
      BytesFit([b[0]], v.block, h + r + i + sig);
      assert b == [b[0]] + v.block + (h + r + i + sig);
    }
    assert NumberAt(b, 33, 8, v.height) by {
      NumberFits(p, v.height, 8, r + i + sig);
      assert b == p + h + (r + i + sig);
    }
    assert NumberAt(b, 41, 4, v.round) by {
      NumberFits(p + h, v.round, 4, i + sig);
      assert b == (p + h) + r + (i + sig);
    }
    assert NumberAt(b, 45, 4, v.index) by {
      NumberFits(p + h + r, v.index, 4, sig);
      assert b == (p + h + r) + i + sig;
    }
    assert BytesAt(b, 49, sig) by {
      BytesFit(p + h + r + i, sig, []);
      assert b == (p + h + r + i) + sig + [];
    }
  }

  lemma ProposalLayout(pc: PointCodec, m: Message)
    requires Typed(pc, m) && m.ProposalMsg? && |m.body| <= U32_MAX
    ensures var b := Encode(pc, m);
      && |b| == 197 + |m.body| && b[0] == 0
      && NumberAt(b, 1, 8, m.height) && NumberAt(b, 9, 4, m.round) && BytesAt(b, 13, m.block)
      && BytesAt(b, 45, m.proof.preOutput) && BytesAt(b, 77, m.proof.proof) && BytesAt(b, 141, m.proof.vrfOutput)
      && BytesAt(b, 173, m.coinbase) && NumberAt(b, 193, 4, |m.body|) && BytesAt(b, 197, m.body)
  {
    Widths();
    hide FromBytes, ToBytes, Pow256, NumberAt, BytesAt;
    var b, h, n := Encode(pc, m), ProposalHeader(m), ToBytes(|m.body|, 4);
    ProposalNumbers(pc, m, n + m.body);
    ProposalParts(pc, m, n + m.body);
    NumberFits(h, |m.body|, 4, m.body);
    BytesFit(h + n, m.body, []);
    assert b == h + n + m.body == h + (n + m.body) == (h + n) + m.body + [];
  }

  lemma ProposalNumbers(pc: PointCodec, m: Message, q: Bytes)
    requires Typed(pc, m) && m.ProposalMsg?
    ensures var b := ProposalHeader(m) + q; NumberAt(b, 1, 8, m.height) && NumberAt(b, 9, 4, m.round)
  {
    Widths();
    hide FromBytes, ToBytes, Pow256, NumberAt;
    var b, h, r := ProposalHeader(m) + q, ToBytes(m.height, 8), ToBytes(m.round, 4);
    var rest := m.block + m.proof.preOutput + m.proof.proof + m.proof.vrfOutput + m.coinbase + q;
    assert NumberAt(b, 1, 8, m.height) by {
      NumberFits([b[0]], m.height, 8, r + rest);
      assert b == [b[0]] + h + (r + rest);
    }
    assert NumberAt(b, 9, 4, m.round) by {
      NumberFits([b[0]] + h, m.round, 4, rest);
      assert b == ([b[0]] + h) + r + rest;
    }
  }

  lemma ProposalParts(pc: PointCodec, m: Message, q: Bytes)
    requires Typed(pc, m) && m.ProposalMsg?
    ensures var b := ProposalHeader(m) + q;
      && BytesAt(b, 13, m.block) && BytesAt(b, 45, m.proof.preOutput) && BytesAt(b, 77, m.proof.proof)
      && BytesAt(b, 141, m.proof.vrfOutput) && BytesAt(b, 173, m.coinbase)
  {
    hide ToBytes, BytesAt;
    var b := ProposalHeader(m) + q;
    var p := [b[0]] + ToBytes(m.height, 8) + ToBytes(m.round, 4);
    var x, y, z := m.proof.preOutput, m.proof.proof, m.proof.vrfOutput;
    assert BytesAt(b, 13, m.block) by {
      BytesFit(p, m.block, x + y + z + m.coinbase + q);
      assert b == p + m.block + (x + y + z + m.coinbase + q);
    }
    assert BytesAt(b, 45, x) by {
      BytesFit(p + m.block, x, y + z + m.coinbase + q);
      assert b == (p + m.block) + x + (y + z + m.coinbase + q);
    }
    assert BytesAt(b, 77, y) by {
      BytesFit(p + m.block + x, y, z + m.coinbase + q);
      assert b == (p + m.block + x) + y + (z + m.coinbase + q);
    }
    assert BytesAt(b, 141, z) by {
      BytesFit(p + m.block + x + y, z, m.coinbase + q);
      assert b == (p + m.block + x + y) + z + (m.coinbase + q);
    }
    assert BytesAt(b, 173, m.coinbase) by {
      BytesFit(p + m.block + x + y + z, m.coinbase, q);
    }
  }

  lemma RequestLayout(pc: PointCodec, height: nat)
    requires Typed(pc, BlockRequest(height))
    ensures var b := Encode(pc, BlockRequest(height)); |b| == 9 && b[0] == 3 && NumberAt(b, 1, 8, height)
  {
    NumberFits([3], height, 8, []);
    assert Encode(pc, BlockRequest(height)) == [3] + ToBytes(height, 8) + [];
  }

  lemma ResponseLayout(pc: PointCodec, block: Bytes, c: PrecommitCertificate)
    requires Typed(pc, BlockResponse(block, c)) && |block| <= U32_MAX
    ensures var b := Encode(pc, BlockResponse(block, c));
      var at := 5 + |block|;
      && |b| == at + 156 && b[0] == 4 && NumberAt(b, 1, 4, |block|) && BytesAt(b, 5, block)
      && BytesAt(b, at, c.block) && NumberAt(b, at + 32, 8, c.height) && NumberAt(b, at + 40, 4, c.round)
      && NumberAt(b, at + 44, 16, c.signers) && BytesAt(b, at + 60, pc.compress(c.sig))
  {
    Widths();
    hide FromBytes, ToBytes, Pow256, NumberAt;
    var b := Encode(pc, BlockResponse(block, c));
    var n, cert := ToBytes(|block|, 4), EncodeCert(pc, c);
    NumberFits([b[0]], |block|, 4, block + cert);
    BytesFit([b[0]] + n, block, cert);
    CertLayout(pc, [b[0]] + n + block, c);
    hide BytesAt, EncodeCert;
    assert b == [b[0]] + n + (block + cert) == ([b[0]] + n) + block + cert;
  }

  lemma CertLayout(pc: PointCodec, p: Bytes, c: Certificate)
    requires TypedCert(pc, c)
    ensures var b := p + EncodeCert(pc, c);
      && |b| == |p| + 156
      && BytesAt(b, |p|, c.block) && NumberAt(b, |p| + 32, 8, c.height) && NumberAt(b, |p| + 40, 4, c.round)
      && NumberAt(b, |p| + 44, 16, c.signers) && BytesAt(b, |p| + 60, pc.compress(c.sig))
  {
    hide FromBytes, ToBytes, Pow256, NumberAt, BytesAt;
    var b := p + EncodeCert(pc, c);
    var h, r, s, sig := ToBytes(c.height, 8), ToBytes(c.round, 4), ToBytes(c.signers, 16), pc.compress(c.sig);
    assert BytesAt(b, |p|, c.block) by {
      BytesFit(p, c.block, h + r + s + sig);
      assert b == p + c.block + (h + r + s + sig);
    }
    assert NumberAt(b, |p| + 32, 8, c.height) by {
      NumberFits(p + c.block, c.height, 8, r + s + sig);
      assert b == (p + c.block) + h + (r + s + sig);
    }
    assert NumberAt(b, |p| + 40, 4, c.round) by {
      NumberFits(p + c.block + h, c.round, 4, s + sig);
      assert b == (p + c.block + h) + r + (s + sig);
    }
    assert NumberAt(b, |p| + 44, 16, c.signers) by {
      NumberFits(p + c.block + h + r, c.signers, 16, sig);
      assert b == (p + c.block + h + r) + s + sig;
    }
    assert BytesAt(b, |p| + 60, sig) by {
      BytesFit(p + c.block + h + r + s, sig, []);
      assert b == (p + c.block + h + r + s) + sig + [];
    }
  }
}
