/** Proposals of nodes that follow the protocol are safe to deliver at any time, to anyone, again and
    again: no node ever takes one whose height it has committed. */
module Offers {
  import opened Crypto
  import opened Validators
  import opened Tally
  import opened Coordinator
  import opened Engine
  import opened Wire
  import opened Chain
  import opened Gossip
  import opened Proposals

  /** Different headers have different hashes. */
  ghost predicate InjectiveHash(prim: Primitives) {
    forall a, b :: prim.headerHash(a) == prim.headerHash(b) ==> a == b
  }

  predicate Heads(prim: Primitives, h: Header, s: EngineState) {
    prim.headerHash(h) == s.headHash && h.number == s.headNumber
  }

  /** The head hash is that of a header with the head number. */
  ghost predicate HeadHashed(prim: Primitives, s: EngineState) {
    exists h :: Heads(prim, h, s)
  }

  predicate Extends(prim: Primitives, m: Message, h: Header, parent: Header)
    requires m.ProposalMsg?
  {
    && m.block == prim.headerHash(h) && h.parentHash == prim.headerHash(parent)
    && m.height == h.number == parent.number + 1
  }

  /** The proposal is for a block numbered one above the block it extends. */
  ghost predicate Offered(prim: Primitives, m: Message) {
    m.ProposalMsg? && exists h, parent :: Extends(prim, m, h, parent)
  }

  /** Such a proposal is refused, however late it arrives, by every node that has committed its height. */
  lemma OfferIsNeverTakenStale(cfg: Config, n: Node, m: Message)
    requires InjectiveHash(cfg.prim) && Offered(cfg.prim, m)
    requires HeadHashed(cfg.prim, n.engine) && ActiveCoord(n.engine).vs.Valid()
    ensures !TakesStale(cfg, n, m)
  {
    var h, parent :| Extends(cfg.prim, m, h, parent);
    var head :| Heads(cfg.prim, head, n.engine);
    var body := cfg.prim.decodeBody(m.body);
    if body.Some? {
      var block := BuildBlock(cfg, n.engine, m.height, m.proof, m.coinbase, body.value);
      if HashOf(cfg.prim, block) == m.block {
        assert block.header == h;
        assert parent == head;
      }
    }
  }

  // ---------------------------------------------------------------------------------------
  // What nodes send
  // ---------------------------------------------------------------------------------------

  ghost predicate OfferInv(cfg: Config, n: Node) {
    && EngineInv(cfg.prim, n.engine)
    && HeadHashed(cfg.prim, n.engine)
    && FlagsOffer(cfg.prim, n.flags)
  }

  /** The messages kept for re-broadcasting are an offer and two votes. */
  ghost predicate FlagsOffer(prim: Primitives, f: RoundFlags) {
    && (f.lastProposal.Some? ==> Offered(prim, f.lastProposal.value))
    && (f.lastPrevote.Some? ==> f.lastPrevote.value.VoteMsg?)
    && (f.lastPrecommit.Some? ==> f.lastPrecommit.value.VoteMsg?)
  }

  ghost predicate OffersOnly(prim: Primitives, out: seq<Message>) {
    forall m :: m in out && m.ProposalMsg? ==> Offered(prim, m)
  }

  lemma SameHeadHashed(prim: Primitives, s: EngineState, t: EngineState)
    requires HeadHashed(prim, s) && t.headHash == s.headHash && t.headNumber == s.headNumber
    ensures HeadHashed(prim, t)
  {
    var h :| Heads(prim, h, s);
    assert Heads(prim, h, t);
  }

  lemma DispatchOffers(cfg: Config, n: Node, m: Message)
    requires OfferInv(cfg, n)
    ensures n.engine.vs.Valid() && ActiveCoord(n.engine).vs.Valid()
    ensures HeadHashed(cfg.prim, Dispatch(cfg, n, m).node.engine)
    ensures var o := Dispatch(cfg, n, m); FlagsOffer(cfg.prim, o.node.flags) && OffersOnly(cfg.prim, o.out)
  {
    hide HeadHashed, Offered, EngineInv;
    var s := n.engine;
    ValidSet(cfg, s);
    var t := Dispatch(cfg, n, m).node.engine;
    match m
    case ProposalMsg(height, round, _, proof, coinbase, bytes) =>
      ProposalKeepsHead(cfg, n, m);
      SameHeadHashed(cfg.prim, s, t);
    case VoteMsg(kind, v) =>
      RemoteVoteFrame(cfg.prim, s, kind, v);
      SameHeadHashed(cfg.prim, s, t);
    case BlockRequest(_) =>
    case BlockResponse(bytes, cert) =>
      if cfg.prim.decodeBlock(bytes).Some? {
        AdoptHeadHashed(cfg.prim, s, cfg.prim.decodeBlock(bytes).value, cert);
      }
  }

  lemma ProposalKeepsHead(cfg: Config, n: Node, m: Message)
    requires EngineInv(cfg.prim, n.engine) && m.ProposalMsg?
    ensures n.engine.vs.Valid() && ActiveCoord(n.engine).vs.Valid()
    ensures var t := Dispatch(cfg, n, m).node.engine;
      t.headHash == n.engine.headHash && t.headNumber == n.engine.headNumber
  {
    hide CoordInv, RemoteProposal, EngineInv, ShouldFastForward;
    ValidSet(cfg, n.engine);
    FastForwardKeepsInv(cfg.prim, n.engine, m.round);
    var s := if ShouldFastForward(n.engine, m.height, m.round) then FastForward(n.engine, m.round).0 else n.engine;
    ValidSet(cfg, s);
    if cfg.prim.decodeBody(m.body).Some? {
      RemoteProposalFrame(cfg.prim, s,
        Proposal(BuildBlock(cfg, s, m.height, m.proof, m.coinbase, cfg.prim.decodeBody(m.body).value), m.proof));
    }
  }

  lemma AdoptHeadHashed(prim: Primitives, s: EngineState, b: Block, cert: PrecommitCertificate)
    requires HeadHashed(prim, s)
    ensures HeadHashed(prim, Adopt(prim, s, b, cert).0)
  {
    if Adopt(prim, s, b, cert).1.Ok? {
      assert Heads(prim, b.header, Adopt(prim, s, b, cert).0);
    }
  }

  lemma ProposeOffers(cfg: Config, n: Node, body: Bytes)
    requires OfferInv(cfg, n)
    ensures ActiveCoord(n.engine).vs.Valid()
    ensures var o := Propose(cfg, n, body);
      HeadHashed(cfg.prim, o.node.engine) && OffersOnly(cfg.prim, o.out) && FlagsOffer(cfg.prim, o.node.flags)
  {
    hide LeaderIndex, AfterCastProposal;
    ActiveCoordInv(cfg.prim, n.engine);
    var o := Propose(cfg, n, body);
    CastProposalFrame(cfg, n.engine, body);
    SameHeadHashed(cfg.prim, n.engine, o.node.engine);
    if o.out != [] {
      LeaderProposes(cfg, n, body);
      var p := o.node.engine.proposal.value;
      var parent :| Heads(cfg.prim, parent, n.engine);
      assert Extends(cfg.prim, o.out[0], p.block.header, parent);
    }
  }

  lemma VoteOffers(cfg: Config, n: Node, at: Position, kind: VoteKind)
    requires OfferInv(cfg, n)
    ensures var o := MaybeVote(cfg, n, at, kind);
      HeadHashed(cfg.prim, o.node.engine) && OffersOnly(cfg.prim, o.out) && FlagsOffer(cfg.prim, o.node.flags)
  {
    hide HeadHashed;
    SameHeadHashed(cfg.prim, n.engine, MaybeVote(cfg, n, at, kind).node.engine);
  }

  lemma DriveOffers(cfg: Config, n: Node, body: Bytes)
    requires OfferInv(cfg, n)
    ensures n.engine.vs.Valid() && ActiveCoord(n.engine).vs.Valid()
    ensures var o := Drive(cfg, n, body);
      HeadHashed(cfg.prim, o.node.engine) && OffersOnly(cfg.prim, o.out) && FlagsOffer(cfg.prim, o.node.flags)
  {
    hide HeadHashed, Offered, EngineInv, Propose, MaybeVote, LeaderIndex;
    ValidSet(cfg, n.engine);
    ProposeOffers(cfg, n, body);
    if n.engine.coord.Some? {
      var c := n.engine.coord.value;
      VoteOffers(cfg, n, Position(c.height, c.round), Prevote);
      VoteOffers(cfg, n, Position(c.height, c.round), Precommit);
    }
  }

  /** Whatever happens to a node, timely or not, every proposal it sends, new or repeated, is an offer. */
  lemma NodeStepOffers(cfg: Config, n: Node, e: NodeEvent)
    requires OfferInv(cfg, n)
    ensures n.engine.vs.Valid() && ActiveCoord(n.engine).vs.Valid()
    ensures OfferInv(cfg, NodeStep(cfg, n, e).node) && OffersOnly(cfg.prim, NodeStep(cfg, n, e).out)
  {
    hide HeadHashed, Offered, EngineInv, Dispatch, Drive, AfterTickTimeout, Harvest;
    NodeStepKeepsEngineInv(cfg, n, e);
    match e
    case Receive(m) =>
      DispatchOffers(cfg, n, m);
      HarvestHeadHashed(cfg.prim, Dispatch(cfg, n, m).node.engine);
    case Advance(body) =>
      DriveOffers(cfg, n, body);
      HarvestHeadHashed(cfg.prim, Drive(cfg, n, body).node.engine);
    case ClockFired =>
      TimeoutFrame(cfg.prim, n.engine);
      SameHeadHashed(cfg.prim, n.engine, AfterTickTimeout(n.engine));
  }

  lemma HarvestHeadHashed(prim: Primitives, s: EngineState)
    requires HeadHashed(prim, s)
    ensures HeadHashed(prim, Harvest(prim, s).0)
  {
    if Harvest(prim, s).1.Some? {
      assert Heads(prim, s.proposal.value.block.header, Harvest(prim, s).0);
    }
  }

  lemma FreshNodeOffers(cfg: Config, vs: ValidatorSet, index: nat, seed: Bytes, genesis: Block)
    requires vs.Valid()
    ensures var n := FreshNode(cfg, vs, index, seed, genesis); OfferInv(cfg, n) && OnTrack(n.engine)
  {
    assert Heads(cfg.prim, genesis.header, NewEngine(cfg.prim, vs, index, seed, genesis));
  }

  // ---------------------------------------------------------------------------------------
  // Nodes that take no stale proposal
  // ---------------------------------------------------------------------------------------

  /** A stored proposal is for a height above the head. */
  predicate OnTrack(s: EngineState) {
    s.proposal.Some? ==> s.proposal.value.block.header.number > s.headNumber
  }

  lemma DispatchStaysOnTrack(cfg: Config, n: Node, m: Message)
    requires EngineInv(cfg.prim, n.engine) && OnTrack(n.engine)
    ensures n.engine.vs.Valid() && ActiveCoord(n.engine).vs.Valid()
    ensures !TakesStale(cfg, n, m) <==> OnTrack(Dispatch(cfg, n, m).node.engine)
  {
    hide EngineInv, CoordInv, RemoteVote, RemoteProposal, FastForward;
    var s := n.engine;
    ValidSet(cfg, s);
    match m
    case ProposalMsg(height, round, _, proof, coinbase, bytes) =>
      FastForwardKeepsInv(cfg.prim, s, round);
      JumpKeepsProposal(s, round);
      var t := if ShouldFastForward(s, height, round) then FastForward(s, round).0 else s;
      ValidSet(cfg, t);
      if cfg.prim.decodeBody(bytes).Some? {
        RemoteProposalFrame(cfg.prim, t,
          Proposal(BuildBlock(cfg, t, height, proof, coinbase, cfg.prim.decodeBody(bytes).value), proof));
      }
    case VoteMsg(kind, v) => RemoteVoteFrame(cfg.prim, s, kind, v);
    case BlockRequest(_) =>
    case BlockResponse(_, _) =>
  }

  lemma JumpKeepsProposal(s: EngineState, round: nat)
    ensures var t := FastForward(s, round).0; t == s.(coord := t.coord)
  {
  }

  /** A node that takes no stale proposal only harvests blocks above its head. */
  lemma StaysOnTrack(cfg: Config, n: Node, e: NodeEvent)
    requires EngineInv(cfg.prim, n.engine) && OnTrack(n.engine)
    requires n.engine.vs.Valid() && ActiveCoord(n.engine).vs.Valid()
    requires e.Receive? ==> !TakesStale(cfg, n, e.m)
    ensures OnTrack(BeforeHarvest(cfg, n, e).node.engine) && OnTrack(NodeStep(cfg, n, e).node.engine)
  {
    hide EngineInv, CoordInv, Dispatch, Drive, AfterTickTimeout, TakesStale;
    match e
    case Receive(m) => DispatchStaysOnTrack(cfg, n, m);
    case Advance(body) => DriveStaysOnTrack(cfg, n, body);
    case ClockFired => TimeoutFrame(cfg.prim, n.engine);
  }

  lemma DriveStaysOnTrack(cfg: Config, n: Node, body: Bytes)
    requires EngineInv(cfg.prim, n.engine) && OnTrack(n.engine)
    requires n.engine.vs.Valid() && ActiveCoord(n.engine).vs.Valid()
    ensures OnTrack(Drive(cfg, n, body).node.engine)
  {
    hide EngineInv, AfterCastProposal, AfterCastVote, LeaderIndex;
    CastProposalFrame(cfg, n.engine, body);
    VoteKeepsProposal(cfg, n.engine, Prevote);
    VoteKeepsProposal(cfg, n.engine, Precommit);
    var t := AfterCastProposal(cfg, n.engine, body).0;
    assert t.headNumber == HeadOf(t).number == n.engine.headNumber;
  }

  lemma VoteKeepsProposal(cfg: Config, s: EngineState, kind: VoteKind)
    ensures var t := AfterCastVote(cfg, s, kind).0; t == s.(coord := t.coord)
  {
  }
}
