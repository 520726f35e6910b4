/** A node never sends two different proposals for the same height and round. */
module Proposing {
  import opened Crypto
  import opened Validators
  import opened Coordinator
  import opened Engine
  import opened Wire
  import opened Gossip
  import opened Voting
  import opened NodeChain

  function PlaceOf(m: Message): Position
    requires m.ProposalMsg?
  {
    Position(m.height, m.round)
  }

  /** At most one proposal per height and round. */
  ghost predicate NoDoublePropose(sent: set<Message>) {
    forall m, p :: m in sent && p in sent && m.ProposalMsg? && p.ProposalMsg? && PlaceOf(m) == PlaceOf(p) ==> m == p
  }

  /** The proposal kept for repeating is where the flag says and the engine has got there; everything sent is at most
      there, and at that place it is that very proposal. */
  ghost predicate ProposalInv(f: RoundFlags, s: EngineState, sent: set<Message>) {
    && NoDoublePropose(sent)
    && (f.proposed.Some? <==> f.lastProposal.Some?)
    && (f.proposed.Some? ==>
          && f.lastProposal.value.ProposalMsg? && f.lastProposal.value in sent
          && PlaceOf(f.lastProposal.value) == f.proposed.value && Reached(f.proposed.value, s))
    && (forall m :: m in sent ==>
          && m.ProposalMsg? && f.proposed.Some? && AtMost(PlaceOf(m), f.proposed.value)
          && (PlaceOf(m) == f.proposed.value ==> m == f.lastProposal.value))
  }

  lemma ProposalsAppend(a: seq<Message>, b: seq<Message>)
    ensures ProposalsIn(a + b) == ProposalsIn(a) + ProposalsIn(b)
  {
    forall m ensures m in ProposalsIn(a + b) <==> m in ProposalsIn(a) + ProposalsIn(b) {
      assert m in a + b <==> m in a || m in b;
    }
  }

  // ---------------------------------------------------------------------------------------
  // Steps
  // ---------------------------------------------------------------------------------------

  lemma DispatchGoesOn(cfg: Config, n: Node, m: Message)
    requires EngineInv(cfg.prim, n.engine)
    ensures n.engine.vs.Valid() && ActiveCoord(n.engine).vs.Valid()
    ensures var o := Dispatch(cfg, n, m);
      && Onward(n.engine, o.node.engine) && ProposalsIn(o.out) == {}
      && o.node.flags == n.flags.(requested := o.node.flags.requested)
  {
    hide RemoteVote, RemoteProposal, Adopt, EngineInv, Onward;
    ValidSet(cfg, n.engine);
    OnwardReflexive(n.engine);
    match m
    case ProposalMsg(_, _, _, _, _, _) => ProposalGoesOn(cfg, n, m);
    case VoteMsg(kind, v) => RemoteVoteStepsOn(cfg.prim, n.engine, kind, v);
    case BlockRequest(_) =>
    case BlockResponse(bytes, cert) =>
      if cfg.prim.decodeBlock(bytes).Some? {
        AdoptStepsOn(cfg.prim, n.engine, cfg.prim.decodeBlock(bytes).value, cert);
      }
  }

  lemma ProposalGoesOn(cfg: Config, n: Node, m: Message)
    requires EngineInv(cfg.prim, n.engine) && m.ProposalMsg?
    ensures n.engine.vs.Valid() && ActiveCoord(n.engine).vs.Valid()
    ensures Onward(n.engine, HandleProposal(cfg, n, m).node.engine)
  {
    hide EngineInv, RemoteProposal, FastForward, Onward;
    ValidSet(cfg, n.engine);
    var s := if ShouldFastForward(n.engine, m.height, m.round) then FastForward(n.engine, m.round).0 else n.engine;
    OnwardReflexive(n.engine);
    if ShouldFastForward(n.engine, m.height, m.round) {
      FastForwardStepsOn(cfg.prim, n.engine, m.height, m.round);
    }
    ValidSet(cfg, s);
    if cfg.prim.decodeBody(m.body).Some? {
      var p := Proposal(BuildBlock(cfg, s, m.height, m.proof, m.coinbase, cfg.prim.decodeBody(m.body).value), m.proof);
      RemoteProposalStepsOn(cfg.prim, s, p);
      OnwardTransitive(n.engine, s, RemoteProposal(cfg.prim, s, p).0);
    }
  }

  /** Moving on without proposing. */
  lemma QuietlyOn(f: RoundFlags, g: RoundFlags, s: EngineState, t: EngineState, sent: set<Message>)
    requires ProposalInv(f, s, sent) && Onward(s, t) && g.proposed == f.proposed && g.lastProposal == f.lastProposal
    ensures ProposalInv(g, t, sent)
  {
  }

  /** A proposal at the engine's position, where none was sent, keeps the discipline. */
  lemma ProposeOnce(cfg: Config, n: Node, body: Bytes, sent: set<Message>)
    requires EngineInv(cfg.prim, n.engine) && ProposalInv(n.flags, n.engine, sent)
    requires n.engine.coord.Some? ==> n.flags.proposed != Some(Here(n.engine))
    ensures ActiveCoord(n.engine).vs.Valid()
    ensures var o := Propose(cfg, n, body); ProposalInv(o.node.flags, o.node.engine, sent + ProposalsIn(o.out))
  {
    ActiveCoordInv(cfg.prim, n.engine);
    CastProposalStepsOn(cfg, n.engine, body);
    var o := Propose(cfg, n, body);
    if o.out == [] {
      assert sent + ProposalsIn(o.out) == sent;
      QuietlyOn(n.flags, o.node.flags, n.engine, o.node.engine, sent);
    } else {
      var m := o.out[0];
      assert ProposalsIn(o.out) == {m};
      assert PlaceOf(m) == Here(n.engine) == Here(o.node.engine);
    }
  }

  lemma RepeatsNothingNew(f: RoundFlags, s: EngineState, sent: set<Message>)
    requires ProposalInv(f, s, sent)
    ensures ProposalsIn(Repeat(f.lastProposal)) <= sent
  {
  }

  /** The votes kept for repeating are votes. */
  predicate KeepsVotes(f: RoundFlags) {
    && (f.lastPrevote.Some? ==> f.lastPrevote.value.VoteMsg?)
    && (f.lastPrecommit.Some? ==> f.lastPrecommit.value.VoteMsg?)
  }

  lemma VoteGoesOn(cfg: Config, n: Node, kind: VoteKind, sent: set<Message>)
    requires EngineInv(cfg.prim, n.engine) && n.engine.coord.Some? && ProposalInv(n.flags, n.engine, sent)
    requires KeepsVotes(n.flags)
    ensures var o := MaybeVote(cfg, n, Here(n.engine), kind);
      ProposalInv(o.node.flags, o.node.engine, sent) && ProposalsIn(o.out) == {} && KeepsVotes(o.node.flags)
  {
    hide AfterCastVote;
    CastVoteStepsOn(cfg, n.engine, kind);
    OnwardReflexive(n.engine);
    QuietlyOn(n.flags, MaybeVote(cfg, n, Here(n.engine), kind).node.flags, n.engine,
              MaybeVote(cfg, n, Here(n.engine), kind).node.engine, sent);
  }

  lemma DriveProposesOnce(cfg: Config, n: Node, body: Bytes, sent: set<Message>)
    requires EngineInv(cfg.prim, n.engine) && ProposalInv(n.flags, n.engine, sent) && KeepsVotes(n.flags)
    ensures n.engine.vs.Valid() && ActiveCoord(n.engine).vs.Valid()
    ensures var o := Drive(cfg, n, body);
      ProposalInv(o.node.flags, o.node.engine, sent + ProposalsIn(o.out)) && KeepsVotes(o.node.flags)
  {
    hide EngineInv, ProposalInv, Propose, MaybeVote, LeaderIndex, ProposalsIn;
    ValidSet(cfg, n.engine);
    NoProposals();
    var o := Drive(cfg, n, body);
    if n.engine.coord.None? {
      ProposeOnce(cfg, n, body, sent);
      ProposeKeepsVotes(cfg, n, body);
      assert sent + {} == sent;
    } else {
      var at := Here(n.engine);
      match PhaseOf(n.engine.coord.value.stage)
      case AwaitingProposal =>
        ProposeKeepsVotes(cfg, n, body);
        if n.flags.proposed != Some(at) {
          ProposeOnce(cfg, n, body, sent);
        }
        var p := MaybePropose(cfg, n, at, body);
        assert sent + {} == sent;
        RepeatsNothingNew(p.node.flags, p.node.engine, sent + ProposalsIn(p.out));
        ProposalsAppend(p.out, Repeat(p.node.flags.lastProposal));
        assert sent + ProposalsIn(o.out) == sent + ProposalsIn(p.out);
      case Prevoting =>
        VoteGoesOn(cfg, n, Prevote, sent);
        var p := MaybeVote(cfg, n, at, Prevote);
        RepeatsNothingNew(p.node.flags, p.node.engine, sent);
        RepeatedVotes(p.node.flags);
        ProposalsAppend(p.out, Repeat(p.node.flags.lastProposal));
        ProposalsAppend(p.out + Repeat(p.node.flags.lastProposal), Repeat(p.node.flags.lastPrevote));
        assert sent + ProposalsIn(o.out) == sent;
      case Precommitting =>
        VoteGoesOn(cfg, n, Precommit, sent);
        var p := MaybeVote(cfg, n, at, Precommit);
        RepeatedVotes(p.node.flags);
        ProposalsAppend(p.out, Repeat(p.node.flags.lastPrevote));
        ProposalsAppend(p.out + Repeat(p.node.flags.lastPrevote), Repeat(p.node.flags.lastPrecommit));
        assert sent + ProposalsIn(o.out) == sent;
      case Committed =>
        assert sent + {} == sent;
    }
  }

  lemma NoProposals()
    ensures ProposalsIn([]) == {}
  {
  }

  lemma RepeatedVotes(f: RoundFlags)
    requires KeepsVotes(f)
    ensures ProposalsIn(Repeat(f.lastPrevote)) == {} && ProposalsIn(Repeat(f.lastPrecommit)) == {}
  {
  }

  lemma ProposeKeepsVotes(cfg: Config, n: Node, body: Bytes)
    requires ActiveCoord(n.engine).vs.Valid()
    ensures KeepsVotes(n.flags) ==> KeepsVotes(Propose(cfg, n, body).node.flags)
  {
  }

  lemma HarvestGoesOn(cfg: Config, o: Outcome, sent: set<Message>)
    requires EngineInv(cfg.prim, o.node.engine) && HarvestAdvances(cfg.prim, o.node.engine)
    requires ProposalInv(o.node.flags, o.node.engine, sent)
    ensures var t := AutoHarvest(cfg.prim, o);
      ProposalInv(t.node.flags, t.node.engine, sent) && t.out == o.out && t.node.flags == o.node.flags
  {
    var t := AutoHarvest(cfg.prim, o);
    OnwardReflexive(o.node.engine);
    if Harvest(cfg.prim, o.node.engine).1.Some? {
      HarvestAdvancesIff(cfg.prim, o.node.engine);
    }
    QuietlyOn(o.node.flags, t.node.flags, o.node.engine, t.node.engine, sent);
  }

  lemma StepProposesOnce(cfg: Config, n: Node, e: NodeEvent, sent: set<Message>)
    requires EngineInv(cfg.prim, n.engine) && ProposalInv(n.flags, n.engine, sent) && KeepsVotes(n.flags)
    requires n.engine.vs.Valid() && ActiveCoord(n.engine).vs.Valid()
    requires HarvestAdvances(cfg.prim, BeforeHarvest(cfg, n, e).node.engine)
    ensures var o := NodeStep(cfg, n, e);
      ProposalInv(o.node.flags, o.node.engine, sent + ProposalsIn(o.out)) && KeepsVotes(o.node.flags)
  {
    hide EngineInv, ProposalInv, Dispatch, Drive, AutoHarvest, AfterTickTimeout, HarvestAdvances, Onward, ProposalsIn;
    assert sent + {} == sent;
    match e
    case Receive(m) =>
      DispatchGoesOn(cfg, n, m);
      DispatchKeepsEngineInv(cfg, n, m);
      var d := Dispatch(cfg, n, m);
      QuietlyOn(n.flags, d.node.flags, n.engine, d.node.engine, sent);
      HarvestGoesOn(cfg, d, sent);
    case Advance(body) =>
      DriveProposesOnce(cfg, n, body, sent);
      DriveKeepsEngineInv(cfg, n, body);
      HarvestGoesOn(cfg, Drive(cfg, n, body), sent + ProposalsIn(Drive(cfg, n, body).out));
    case ClockFired =>
      TimeoutStepsOn(cfg.prim, n.engine);
      QuietlyOn(n.flags, n.flags, n.engine, AfterTickTimeout(n.engine), sent);
      NoProposals();
  }

  // ---------------------------------------------------------------------------------------
  // Runs
  // ---------------------------------------------------------------------------------------

  lemma {:induction false} RunProposesOnce(cfg: Config, n: Node, es: seq<NodeEvent>)
    requires EngineInv(cfg.prim, n.engine) && ProposalInv(n.flags, n.engine, {}) && KeepsVotes(n.flags)
    requires AdvancingRun(cfg, n, es)
    ensures var o := RunNode(cfg, n, es);
      ProposalInv(o.node.flags, o.node.engine, ProposalsIn(o.out)) && KeepsVotes(o.node.flags)
  {
    hide NodeStep, EngineInv, ProposalInv, ProposalsIn, HarvestAdvances, BeforeHarvest;
    if es == [] {
      NoProposals();
    } else {
      var front, e := es[..|es| - 1], es[|es| - 1];
      assert forall i :: 0 <= i < |front| ==> front[..i] == es[..i];
      RunProposesOnce(cfg, n, front);
      var o := RunNode(cfg, n, front);
      ValidSet(cfg, o.node.engine);
      StepProposesOnce(cfg, o.node, e, ProposalsIn(o.out));
      ProposalsAppend(o.out, NodeStep(cfg, o.node, e).out);
    }
  }

  /** Over any run from a fresh start whose harvests advance, whatever is delivered, a node never sends two different
      proposals for one height and round, however often it repeats itself. */
  lemma NeverProposesTwice(cfg: Config, vs: ValidatorSet, index: nat, seed: Bytes, genesis: Block, es: seq<NodeEvent>)
    requires vs.Valid()
    requires (FreshChain(cfg, vs, index, seed, genesis);
      AdvancingRun(cfg, FreshNode(cfg, vs, index, seed, genesis), es))
    ensures (FreshChain(cfg, vs, index, seed, genesis);
      NoDoublePropose(ProposalsIn(RunNode(cfg, FreshNode(cfg, vs, index, seed, genesis), es).out)))
  {
    FreshChain(cfg, vs, index, seed, genesis);
    RunProposesOnce(cfg, FreshNode(cfg, vs, index, seed, genesis), es);
  }
}
