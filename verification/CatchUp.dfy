/** Catching up over the wire: a lagging node that keeps asking a peer for its next block receives,
    decodes and adopts exactly the blocks the peer committed, and ends at the peer's head. */
module CatchUp {
  import opened Bits
  import opened BigEndian
  import opened Crypto
  import opened Validators
  import opened Tally
  import opened Engine
  import opened Wire
  import opened Chain
  import opened Gossip
  import opened GossipObject

  /** The committed block fits a response: its encoding round-trips and is within the cap, and the
      fields of its certificate have the widths of the source's types. */
  predicate Servable(prim: Primitives, pc: PointCodec, b: Block, cert: PrecommitCertificate) {
    && prim.decodeBlock(prim.encodeBlock(b)) == Some(b) && |prim.encodeBlock(b)| <= MAX_BLOCK_RESPONSE_LEN
    && |cert.block| == 32 && cert.height < Pow256(8) && cert.round < Pow256(4)
    && Representable(pc, cert.sig)
  }

  /** The bitmap of a verifying certificate fits the 128 bits the wire gives it. */
  lemma SignersFit(vs: ValidatorSet, cert: Certificate)
    requires vs.Valid() && CertOk(vs, cert)
    ensures cert.signers < Pow256(16)
  {
    WordFits(cert.signers, 128);
    PowersAgree(16);
  }

  /** A response with a certified, servable block is what its own bytes decode to. */
  lemma ResponseSurvives(prim: Primitives, pc: PointCodec, c: Commit)
    requires c.vs.Valid() && Certified(prim, c) && Servable(prim, pc, c.block, c.cert)
    ensures var m := BlockResponse(prim.encodeBlock(c.block), c.cert); MessageOf(pc, Encode(pc, m)) == Some(m)
  {
    SignersFit(c.vs, c.cert);
    var m := BlockResponse(prim.encodeBlock(c.block), c.cert);
    assert Decodes(pc, Encode(pc, m), m);
    DecodedIsUnique(pc, Encode(pc, m), m, MessageOf(pc, Encode(pc, m)).value);
  }

  // ---------------------------------------------------------------------------------------
  // Asking
  // ---------------------------------------------------------------------------------------

  /** A proposal or a vote for a height above `h`. */
  predicate FromBeyond(m: Message, h: nat) {
    (m.ProposalMsg? && m.height > h) || (m.VoteMsg? && m.vote.height > h)
  }

  /** A node that hears of a height beyond its next one, and has not asked for its next block, asks for exactly that
      block and does nothing else; if it has asked, it does nothing at all. */
  lemma HintIsAnswered(cfg: Config, n: Node, hint: Message)
    requires EngineInv(cfg.prim, n.engine) && FromBeyond(hint, n.engine.headNumber + 1)
    ensures n.engine.vs.Valid() && ActiveCoord(n.engine).vs.Valid()
    ensures var o := Dispatch(cfg, n, hint);
      var next := n.engine.headNumber + 1;
      && o.node == n.(flags := n.flags.(requested := n.flags.requested + {next})) && o.commits == []
      && o.out == if next in n.flags.requested then [] else [BlockRequest(next)]
  {
    ValidSet(cfg, n.engine);
    assert n.engine.headNumber + 1 in n.flags.requested ==>
      n.flags.requested + {n.engine.headNumber + 1} == n.flags.requested;
  }

  /** The node hears `hint`; what it then sends reaches `server`, and the bytes of the answer reach the node. */
  ghost function FetchNext(cfg: Config, pc: PointCodec, server: Node, n: Node, hint: Message): (o: Outcome)
    requires EngineInv(cfg.prim, n.engine) && EngineInv(cfg.prim, server.engine)
    ensures EngineInv(cfg.prim, o.node.engine)
  {
    ActiveCoordInv(cfg.prim, server.engine);
    NodeStepKeepsEngineInv(cfg, n, Receive(hint));
    var asked := NodeStep(cfg, n, Receive(hint));
    if asked.out == [] then asked
    else
      var answer := Dispatch(cfg, server, asked.out[0]).out;
      if answer == [] then asked else Then(asked, AfterPayload(cfg, pc, asked.node, Encode(pc, answer[0])))
  }

  ghost function FetchAll(cfg: Config, pc: PointCodec, server: Node, n: Node, hints: seq<Message>): (o: Outcome)
    requires EngineInv(cfg.prim, n.engine) && EngineInv(cfg.prim, server.engine)
    ensures EngineInv(cfg.prim, o.node.engine)
  {
    if hints == [] then Quiet(n)
    else
      var o := FetchAll(cfg, pc, server, n, hints[..|hints| - 1]);
      Then(o, FetchNext(cfg, pc, server, o.node, hints[|hints| - 1]))
  }

  // ---------------------------------------------------------------------------------------
  // Adopting
  // ---------------------------------------------------------------------------------------

  /** The node stands on the server's chain, after its first `i` commits, under the set that formed them all; the
      server still has the rest; and the node has nothing to sweep up and has not asked for what it misses. */
  ghost predicate Lags(cfg: Config, pc: PointCodec, start: Origin, log: seq<Commit>, n: Node, i: nat) {
    && EngineInv(cfg.prim, n.engine)
    && i <= |log| <= i + RECENT_BLOCKS_CAP
    && n.engine.headNumber == start.number + i
    && n.engine.headHash == HeadAfter(cfg.prim, start, log[..i]).hash
    && (forall j :: i <= j < |log| ==> log[j].vs == n.engine.vs && Servable(cfg.prim, pc, log[j].block, log[j].cert))
    && Rested(cfg.prim, n) && (forall k :: k in n.flags.requested ==> k <= n.engine.headNumber)
  }

  ghost predicate Behind(cfg: Config, pc: PointCodec, start: Origin, h: History, n: Node, i: nat) {
    ChainInv(cfg, start, h) && Lags(cfg, pc, start, h.log, n, i)
  }

  /** A hint from beyond makes the node ask, and the answer to what it asked makes it adopt the server's next commit;
      afterwards it is free to ask again. */
  lemma FetchAdopts(cfg: Config, pc: PointCodec, start: Origin, h: History, server: Node, n: Node, i: nat,
    hint: Message)
    requires Behind(cfg, pc, start, h, n, i) && i < |h.log| && server.engine == h.engine
    requires FromBeyond(hint, start.number + i + 1)
    ensures var o := FetchNext(cfg, pc, server, n, hint);
      && Behind(cfg, pc, start, h, o.node, i + 1)
      && HeadOf(o.node.engine) == HeadAfter(cfg.prim, start, h.log[..i + 1])
      && o.commits == [CommittedBlock(h.log[i].block, h.log[i].cert)] && o.out == [BlockRequest(start.number + i + 1)]
      && o.node.harvested == n.harvested + [h.log[i].block]
      && o.node.flags.requested == n.flags.requested - {start.number + i + 1}
  {
    hide ChainInv, HeadAfter, EngineInv, Certified, Servable, FetchNext, NodeStep, Adopt, MessageOf, Encode, FromBeyond;
    NextIsCached(cfg, pc, start, h, n, i);
    ValidSet(cfg, n.engine);
    ResponseSurvives(cfg.prim, pc, h.log[i]);
    var asked := n.(flags := n.flags.(requested := n.flags.requested + {n.engine.headNumber + 1}));
    HintStep(cfg, n, hint);
    AnswerIsReceived(cfg, pc, server, n, hint, BlockResponse(cfg.prim.encodeBlock(h.log[i].block), h.log[i].cert));
    AdoptedResponse(cfg, pc, asked, h.log[i]);
    assert [BlockRequest(n.engine.headNumber + 1)] + [] == [BlockRequest(n.engine.headNumber + 1)];
    var k := start.number + i + 1;
    assert n.flags.requested + {k} - {k} == n.flags.requested - {k};
  }

  lemma HintStep(cfg: Config, n: Node, hint: Message)
    requires EngineInv(cfg.prim, n.engine) && FromBeyond(hint, n.engine.headNumber + 1)
    requires Rested(cfg.prim, n) && n.engine.headNumber + 1 !in n.flags.requested
    ensures n.engine.vs.Valid() && ActiveCoord(n.engine).vs.Valid()
    ensures var next := n.engine.headNumber + 1;
      NodeStep(cfg, n, Receive(hint))
      == Outcome(n.(flags := n.flags.(requested := n.flags.requested + {next})), [BlockRequest(next)], [])
  {
    hide Dispatch, FromBeyond, EngineInv;
    HintIsAnswered(cfg, n, hint);
  }

  lemma NextIsCached(cfg: Config, pc: PointCodec, start: Origin, h: History, n: Node, i: nat)
    requires Behind(cfg, pc, start, h, n, i) && i < |h.log|
    ensures EngineInv(cfg.prim, h.engine) && Certified(cfg.prim, h.log[i])
    ensures h.log[i].block.header.number == start.number + i + 1
    ensures n.engine.headNumber + 1 in h.engine.recent
    ensures h.engine.recent[n.engine.headNumber + 1] == CommittedBlock(h.log[i].block, h.log[i].cert)
    ensures var (t, r) := Adopt(cfg.prim, n.engine, h.log[i].block, h.log[i].cert);
      && r.Ok? && HeadOf(t) == HeadAfter(cfg.prim, start, h.log[..i + 1]) && t.headNumber == start.number + i + 1
  {
    hide EngineInv, Certified, CacheOf, WellBuilt, Servable, Adopt;
    CacheAnswers(start.number, h.log);
    ServedBlockIsAdopted(cfg, start, h, n.engine.headNumber + 1, n.engine);
  }

  lemma AnswerIsReceived(cfg: Config, pc: PointCodec, server: Node, n: Node, hint: Message, m: Message)
    requires EngineInv(cfg.prim, n.engine) && EngineInv(cfg.prim, server.engine)
    requires FromBeyond(hint, n.engine.headNumber + 1)
    requires Rested(cfg.prim, n) && n.engine.headNumber + 1 !in n.flags.requested
    requires var k := n.engine.headNumber + 1;
      k in server.engine.recent
      && m == BlockResponse(cfg.prim.encodeBlock(server.engine.recent[k].block), server.engine.recent[k].cert)
    requires MessageOf(pc, Encode(pc, m)) == Some(m)
    ensures n.engine.vs.Valid() && ActiveCoord(n.engine).vs.Valid()
    ensures var next := n.engine.headNumber + 1;
      var asked := n.(flags := n.flags.(requested := n.flags.requested + {next}));
      FetchNext(cfg, pc, server, n, hint) ==
      Then(Outcome(asked, [BlockRequest(next)], []), NodeStep(cfg, asked, Receive(m)))
  {
    hide MessageOf, Encode, NodeStep, EngineInv, FromBeyond, Rested;
    ValidSet(cfg, n.engine);
    ValidSet(cfg, server.engine);
    HintStep(cfg, n, hint);
  }

  lemma AdoptedResponse(cfg: Config, pc: PointCodec, n: Node, c: Commit)
    requires n.engine.vs.Valid() && ActiveCoord(n.engine).vs.Valid()
    requires Servable(cfg.prim, pc, c.block, c.cert)
    requires Adopt(cfg.prim, n.engine, c.block, c.cert).1.Ok?
    ensures var o := NodeStep(cfg, n, Receive(BlockResponse(cfg.prim.encodeBlock(c.block), c.cert)));
      && o.node.engine == Adopt(cfg.prim, n.engine, c.block, c.cert).0 && o.node.engine.vs == n.engine.vs
      && o.commits == [CommittedBlock(c.block, c.cert)] && o.out == []
      && o.node.harvested == n.harvested + [c.block]
      && o.node.flags == n.flags.(requested := n.flags.requested - {c.block.header.number})
      && o.node.engine.coord.None? && o.node.engine.proposal.None?
      && o.node.engine.pendingPrevotes == [] && o.node.engine.pendingPrecommits == []
  {
  }

  /** The hints come from beyond the blocks still missing when they arrive. */
  predicate HintsFromBeyond(hints: seq<Message>, base: nat) {
    forall j :: 0 <= j < |hints| ==> FromBeyond(hints[j], base + j + 1)
  }

  /** Hearing of later heights until level adopts the missing commits in order and nothing else, each after asking for
      it once, and ends with the head hash, number, timestamp and seed of the server. */
  lemma {:induction false} CatchUpReachesServer(cfg: Config, pc: PointCodec, start: Origin, h: History,
                                                server: Node, n: Node, i: nat, hints: seq<Message>)
    requires Behind(cfg, pc, start, h, n, i) && i + |hints| <= |h.log| && server.engine == h.engine
    requires HintsFromBeyond(hints, start.number + i)
    ensures var o := FetchAll(cfg, pc, server, n, hints);
      var times := |hints|;
      && Behind(cfg, pc, start, h, o.node, i + times)
      && |o.commits| == times && |o.out| == times
      && (forall j :: 0 <= j < times ==> o.commits[j] == CommittedBlock(h.log[i + j].block, h.log[i + j].cert))
      && (forall j :: 0 <= j < times ==> o.out[j] == BlockRequest(start.number + i + j + 1))
      && (times > 0 ==> HeadOf(o.node.engine) == HeadAfter(cfg.prim, start, h.log[..i + times]))
      && (0 < times == |h.log| - i ==> HeadOf(o.node.engine) == HeadOf(h.engine))
  {
    hide EngineInv, Linked, CacheOf, FetchNext, Servable, FromBeyond, Rested;
    if hints != [] {
      var front := hints[..|hints| - 1];
      CatchUpReachesServer(cfg, pc, start, h, server, n, i, front);
      FetchAdopts(cfg, pc, start, h, server, FetchAll(cfg, pc, server, n, front).node, i + |front|, hints[|front|]);
      assert h.log[..|h.log|] == h.log;
    }
  }

  // ---------------------------------------------------------------------------------------
  // Serving
  // ---------------------------------------------------------------------------------------

  /** A node on a chain answers a request exactly for the last 64 heights it committed, with the certified block of that
      height and its certificate, and a request changes nothing. */
  lemma ServesItsChain(cfg: Config, start: Origin, h: History, server: Node, k: nat)
    requires ChainInv(cfg, start, h) && server.engine == h.engine
    ensures server.engine.vs.Valid() && ActiveCoord(server.engine).vs.Valid()
    ensures var o := Dispatch(cfg, server, BlockRequest(k));
      && o.node == server && o.commits == []
      && if start.number < k <= start.number + |h.log| && start.number + |h.log| - k < 64
         then var c := h.log[k - start.number - 1];
              o.out == [BlockResponse(cfg.prim.encodeBlock(c.block), c.cert)] && c.block.header.number == k
         else o.out == []
  {
    hide EngineInv, Certified, CacheOf, HandleProposal, HandleBlockResponse, RequestCatchup, RemoteVote;
    ValidSet(cfg, server.engine);
    CacheAnswers(start.number, h.log);
  }
}
