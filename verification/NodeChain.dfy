/** The chain of a node driven by gossip: whatever a node commits over a run, by voting or by catching up,
    is a linked, certified chain, and its cache serves the end of it. */
module NodeChain {
  import opened Crypto
  import opened Validators
  import opened Coordinator
  import opened Engine
  import opened Wire
  import opened Chain
  import opened Gossip
  import opened CatchUp

  /** Committed blocks with the validator set they were committed under. */
  function LogOf(commits: seq<CommittedBlock>, vs: ValidatorSet): (log: seq<Commit>)
    ensures |log| == |commits|
    ensures forall i :: 0 <= i < |commits| ==> log[i] == Commit(commits[i].block, commits[i].cert, vs)
  {
    seq(|commits|, i requires 0 <= i < |commits| => Commit(commits[i].block, commits[i].cert, vs))
  }

  lemma LogOfAppend(a: seq<CommittedBlock>, b: seq<CommittedBlock>, vs: ValidatorSet)
    ensures LogOf(a + b, vs) == LogOf(a, vs) + LogOf(b, vs)
  {
  }

  /** The log extended by the commits of a step. */
  ghost predicate Keeps(cfg: Config, start: Origin, log: seq<Commit>, vs: ValidatorSet, o: Outcome) {
    ChainInv(cfg, start, History(o.node.engine, log + LogOf(o.commits, vs))) && o.node.engine.vs == vs
  }

  lemma QuietKeeps(cfg: Config, start: Origin, log: seq<Commit>, n: Node, out: seq<Message>)
    requires ChainInv(cfg, start, History(n.engine, log))
    ensures Keeps(cfg, start, log, n.engine.vs, Outcome(n, out, []))
  {
    assert log + LogOf([], n.engine.vs) == log;
  }

  lemma ChainHasEngineInv(cfg: Config, start: Origin, h: History)
    requires ChainInv(cfg, start, h)
    ensures EngineInv(cfg.prim, h.engine) && h.engine.vs.Valid() && ActiveCoord(h.engine).vs.Valid()
  {
    ActiveCoordInv(cfg.prim, h.engine);
  }

  /** The blocks handed to the host. */
  function BlocksOf(commits: seq<CommittedBlock>): (bs: seq<Block>)
    ensures |bs| == |commits| && forall i :: 0 <= i < |commits| ==> bs[i] == commits[i].block
  {
    seq(|commits|, i requires 0 <= i < |commits| => commits[i].block)
  }

  lemma StepHandsOver(cfg: Config, n: Node, e: NodeEvent)
    requires n.engine.vs.Valid() && ActiveCoord(n.engine).vs.Valid()
    ensures var o := NodeStep(cfg, n, e); o.node.harvested == n.harvested + BlocksOf(o.commits)
  {
    hide RemoteProposal, RemoteVote, AfterTickTimeout, AfterCastProposal, AfterCastVote;
    hide LeaderIndex, AdoptError, WithHead;
    var o := BeforeHarvest(cfg, n, e);
    assert n.harvested + BlocksOf([]) == n.harvested;
    assert o.node.harvested == n.harvested + BlocksOf(o.commits) by {
      HandsOverBefore(cfg, n, e);
    }
    var c := Harvest(cfg.prim, o.node.engine).1;
    if c.Some? {
      assert BlocksOf(o.commits + [c.value]) == BlocksOf(o.commits) + [c.value.block];
    }
  }

  lemma HandsOverBefore(cfg: Config, n: Node, e: NodeEvent)
    requires n.engine.vs.Valid() && ActiveCoord(n.engine).vs.Valid()
    ensures var o := BeforeHarvest(cfg, n, e); o.node.harvested == n.harvested + BlocksOf(o.commits)
  {
    hide RemoteProposal, RemoteVote, AfterTickTimeout, AfterCastProposal, AfterCastVote;
    hide LeaderIndex, AdoptError, WithHead;
    assert n.harvested + BlocksOf([]) == n.harvested;
  }

  /** Every block committed in a run, by voting or by catching up, is handed to the host, once and in order. */
  lemma {:induction false} CommitsAreHandedOver(cfg: Config, n: Node, es: seq<NodeEvent>)
    requires EngineInv(cfg.prim, n.engine)
    ensures var o := RunNode(cfg, n, es); o.node.harvested == n.harvested + BlocksOf(o.commits)
  {
    hide NodeStep, EngineInv;
    if es == [] {
      assert n.harvested + BlocksOf([]) == n.harvested;
    } else {
      var front, e := es[..|es| - 1], es[|es| - 1];
      CommitsAreHandedOver(cfg, n, front);
      var o := RunNode(cfg, n, front);
      ValidSet(cfg, o.node.engine);
      StepHandsOver(cfg, o.node, e);
      var p := NodeStep(cfg, o.node, e);
      assert BlocksOf(o.commits + p.commits) == BlocksOf(o.commits) + BlocksOf(p.commits);
    }
  }

  // ---------------------------------------------------------------------------------------
  // Stored proposals
  // ---------------------------------------------------------------------------------------

  /** A stored proposal was rebuilt on the head; only its number may be stale. */
  predicate Rebuilt(s: EngineState) {
    s.proposal.Some? ==>
      var p := s.proposal.value;
      && p.block.header.parentHash == s.headHash && p.block.header.mixHash == p.proof.vrfOutput
      && p.block.header.number <= s.headNumber + 1
  }

  /** A harvest, if there is one, takes the head to a higher number. */
  predicate HarvestAdvances(prim: Primitives, s: EngineState) {
    Harvest(prim, s).1.Some? ==> s.proposal.value.block.header.number > s.headNumber
  }

  lemma ProposalKeepsChain(cfg: Config, start: Origin, log: seq<Commit>, n: Node, m: Message)
    requires ChainInv(cfg, start, History(n.engine, log)) && Rebuilt(n.engine) && m.ProposalMsg?
    requires n.engine.vs.Valid() && ActiveCoord(n.engine).vs.Valid()
    requires m.height <= n.engine.headNumber + 1
    ensures var o := HandleProposal(cfg, n, m); Keeps(cfg, start, log, n.engine.vs, o) && Rebuilt(o.node.engine)
  {
    hide ChainInv, RemoteProposal, FastForward, CoordInv;
    var h := History(n.engine, log);
    ChainHasEngineInv(cfg, start, h);
    ApplyKeepsChain(cfg, start, h, FastForwardOp(m.round));
    var s := if ShouldFastForward(n.engine, m.height, m.round) then FastForward(n.engine, m.round).0 else n.engine;
    JumpKeepsHead(n.engine, m.round);
    ChainHasEngineInv(cfg, start, History(s, log));
    QuietKeeps(cfg, start, log, n.(engine := s), []);
    var body := cfg.prim.decodeBody(m.body);
    if body.Some? {
      var p := Proposal(BuildBlock(cfg, s, m.height, m.proof, m.coinbase, body.value), m.proof);
      ApplyKeepsChain(cfg, start, History(s, log), RemoteProposalOp(p));
      RemoteProposalFrame(cfg.prim, s, p);
      QuietKeeps(cfg, start, log, n.(engine := RemoteProposal(cfg.prim, s, p).0), []);
    }
  }

  lemma JumpKeepsHead(s: EngineState, round: nat)
    ensures var t := FastForward(s, round).0;
      t.headHash == s.headHash && t.headNumber == s.headNumber && t.vs == s.vs && t.proposal == s.proposal
  {
  }

  lemma DispatchKeepsChain(cfg: Config, start: Origin, log: seq<Commit>, n: Node, m: Message)
    requires ChainInv(cfg, start, History(n.engine, log)) && Rebuilt(n.engine)
    requires n.engine.vs.Valid() && ActiveCoord(n.engine).vs.Valid()
    ensures var o := Dispatch(cfg, n, m); Keeps(cfg, start, log, n.engine.vs, o) && Rebuilt(o.node.engine)
  {
    hide ChainInv, RemoteVote, HandleProposal;
    var h := History(n.engine, log);
    ChainHasEngineInv(cfg, start, h);
    QuietKeeps(cfg, start, log, n, []);
    match m
    case ProposalMsg(height, _, _, _, _, _) =>
      if height <= n.engine.headNumber + 1 {
        ProposalKeepsChain(cfg, start, log, n, m);
      }
    case VoteMsg(kind, v) =>
      ApplyKeepsChain(cfg, start, h, RemoteVoteOp(kind, v));
      RemoteVoteFrame(cfg.prim, n.engine, kind, v);
      QuietKeeps(cfg, start, log, n.(engine := RemoteVote(n.engine, kind, v).0), []);
    case BlockRequest(_) =>
    case BlockResponse(bytes, cert) =>
      if cfg.prim.decodeBlock(bytes).Some? {
        var b := cfg.prim.decodeBlock(bytes).value;
        ApplyKeepsChain(cfg, start, h, AdoptOp(b, cert));
        assert LogOf([CommittedBlock(b, cert)], n.engine.vs) == [Commit(b, cert, n.engine.vs)];
      }
  }

  lemma DriveKeepsChain(cfg: Config, start: Origin, log: seq<Commit>, n: Node, body: Bytes)
    requires ChainInv(cfg, start, History(n.engine, log)) && Rebuilt(n.engine)
    requires n.engine.vs.Valid() && ActiveCoord(n.engine).vs.Valid()
    ensures var o := Drive(cfg, n, body); Keeps(cfg, start, log, n.engine.vs, o) && Rebuilt(o.node.engine)
  {
    hide ChainInv, AfterCastProposal, AfterCastVote, LeaderIndex;
    var h := History(n.engine, log);
    ChainHasEngineInv(cfg, start, h);
    ApplyKeepsChain(cfg, start, h, CastProposalOp(body));
    CastProposalFrame(cfg, n.engine, body);
    ApplyKeepsChain(cfg, start, h, CastVoteOp(Prevote));
    ApplyKeepsChain(cfg, start, h, CastVoteOp(Precommit));
    CastVoteFrame(cfg, n.engine, Prevote);
    CastVoteFrame(cfg, n.engine, Precommit);
    assert log + LogOf([], n.engine.vs) == log;
  }

  lemma CastVoteFrame(cfg: Config, s: EngineState, kind: VoteKind)
    ensures var t := AfterCastVote(cfg, s, kind).0; t == s.(coord := t.coord)
  {
  }

  lemma BeforeHarvestKeepsChain(cfg: Config, start: Origin, log: seq<Commit>, n: Node, e: NodeEvent)
    requires ChainInv(cfg, start, History(n.engine, log)) && Rebuilt(n.engine)
    requires n.engine.vs.Valid() && ActiveCoord(n.engine).vs.Valid()
    ensures var o := BeforeHarvest(cfg, n, e); Keeps(cfg, start, log, n.engine.vs, o) && Rebuilt(o.node.engine)
    ensures e.ClockFired? ==> Harvest(cfg.prim, BeforeHarvest(cfg, n, e).node.engine).1.None?
  {
    hide ChainInv, Dispatch, Drive, AfterTickTimeout, Keeps;
    match e
    case Receive(m) => DispatchKeepsChain(cfg, start, log, n, m);
    case Advance(body) => DriveKeepsChain(cfg, start, log, n, body);
    case ClockFired =>
      ChainHasEngineInv(cfg, start, History(n.engine, log));
      ApplyKeepsChain(cfg, start, History(n.engine, log), TimeoutOp);
      TimeoutFrame(cfg.prim, n.engine);
      QuietKeeps(cfg, start, log, n.(engine := AfterTickTimeout(n.engine)), []);
  }

  lemma HarvestKeepsChain(cfg: Config, start: Origin, log: seq<Commit>, vs: ValidatorSet, o: Outcome)
    requires Keeps(cfg, start, log, vs, o) && Rebuilt(o.node.engine)
    ensures Keeps(cfg, start, log, vs, AutoHarvest(cfg.prim, o)) <==> HarvestAdvances(cfg.prim, o.node.engine)
    ensures Rebuilt(AutoHarvest(cfg.prim, o).node.engine)
  {
    hide ChainInv;
    var h := History(o.node.engine, log + LogOf(o.commits, vs));
    ChainHasEngineInv(cfg, start, h);
    ApplyKeepsChain(cfg, start, h, HarvestOp);
    var c := Harvest(cfg.prim, o.node.engine).1;
    if c.Some? {
      LogOfAppend(o.commits, [c.value], vs);
      assert LogOf([c.value], vs) == [Commit(c.value.block, c.value.cert, vs)];
      assert log + LogOf(o.commits + [c.value], vs) == h.log + [Commit(c.value.block, c.value.cert, vs)];
    }
  }

  /** An event of a node keeps its chain if and only if the block it harvests, if any, is numbered above the head. */
  lemma NodeStepKeepsChain(cfg: Config, start: Origin, log: seq<Commit>, n: Node, e: NodeEvent)
    requires ChainInv(cfg, start, History(n.engine, log)) && Rebuilt(n.engine)
    requires n.engine.vs.Valid() && ActiveCoord(n.engine).vs.Valid()
    ensures Keeps(cfg, start, log, n.engine.vs, NodeStep(cfg, n, e))
       <==> HarvestAdvances(cfg.prim, BeforeHarvest(cfg, n, e).node.engine)
    ensures Rebuilt(NodeStep(cfg, n, e).node.engine)
  {
    hide ChainInv, Dispatch, Drive, AutoHarvest, AfterTickTimeout, Keeps;
    BeforeHarvestKeepsChain(cfg, start, log, n, e);
    HarvestKeepsChain(cfg, start, log, n.engine.vs, BeforeHarvest(cfg, n, e));
  }

  // ---------------------------------------------------------------------------------------
  // Runs
  // ---------------------------------------------------------------------------------------

  /** Every harvest of the run takes the head to a higher number. */
  ghost predicate AdvancingRun(cfg: Config, n: Node, es: seq<NodeEvent>)
    requires EngineInv(cfg.prim, n.engine)
  {
    forall i :: 0 <= i < |es| ==>
      var m := RunNode(cfg, n, es[..i]).node;
      ActiveCoordInv(cfg.prim, m.engine);
      HarvestAdvances(cfg.prim, BeforeHarvest(cfg, m, es[i]).node.engine)
  }

  /** Everything the node committed, in order, is a chain from where it started: linked, consecutively numbered,
      certified, ending at its head, with the last 64 in the cache. */
  ghost predicate ChainOfRun(cfg: Config, n: Node, es: seq<NodeEvent>)
    requires EngineInv(cfg.prim, n.engine)
  {
    var o := RunNode(cfg, n, es);
    ChainInv(cfg, HeadOf(n.engine), History(o.node.engine, LogOf(o.commits, n.engine.vs)))
  }

  lemma FreshChain(cfg: Config, vs: ValidatorSet, index: nat, seed: Bytes, genesis: Block)
    requires vs.Valid()
    ensures var n := FreshNode(cfg, vs, index, seed, genesis);
      EngineInv(cfg.prim, n.engine) && n.engine.vs == vs && Rebuilt(n.engine) && ChainOfRun(cfg, n, [])
  {
    NewEngineChain(cfg, vs, index, seed, genesis);
    assert LogOf([], vs) == [];
  }

  lemma {:induction false} RunKeepsChain(cfg: Config, n: Node, es: seq<NodeEvent>)
    requires EngineInv(cfg.prim, n.engine) && Rebuilt(n.engine) && ChainOfRun(cfg, n, []) && AdvancingRun(cfg, n, es)
    ensures var o := RunNode(cfg, n, es);
      ChainOfRun(cfg, n, es) && o.node.engine.vs == n.engine.vs && Rebuilt(o.node.engine)
  {
    hide ChainInv, NodeStep, BeforeHarvest, HarvestAdvances, EngineInv, Rebuilt;
    var start, vs := HeadOf(n.engine), n.engine.vs;
    if es != [] {
      var front, e := es[..|es| - 1], es[|es| - 1];
      assert forall i :: 0 <= i < |front| ==> front[..i] == es[..i];
      RunKeepsChain(cfg, n, front);
      var o := RunNode(cfg, n, front);
      ChainHasEngineInv(cfg, start, History(o.node.engine, LogOf(o.commits, vs)));
      NodeStepKeepsChain(cfg, start, LogOf(o.commits, vs), o.node, e);
      LogOfAppend(o.commits, NodeStep(cfg, o.node, e).commits, vs);
    }
  }

  lemma StepKeepsSet(cfg: Config, start: Origin, log: seq<Commit>, n: Node, e: NodeEvent)
    requires ChainInv(cfg, start, History(n.engine, log)) && Rebuilt(n.engine)
    requires n.engine.vs.Valid() && ActiveCoord(n.engine).vs.Valid()
    ensures NodeStep(cfg, n, e).node.engine.vs == n.engine.vs
  {
    hide ChainInv, Dispatch, Drive, AfterTickTimeout;
    BeforeHarvestKeepsChain(cfg, start, log, n, e);
  }

  /** The commits are a chain throughout the run. */
  ghost predicate ChainThroughout(cfg: Config, n: Node, es: seq<NodeEvent>)
    requires EngineInv(cfg.prim, n.engine)
  {
    forall k :: 0 <= k <= |es| ==> ChainOfRun(cfg, n, es[..k])
  }

  /** The last event of a run that stays a chain harvests nothing that falls behind. */
  lemma LastStepAdvances(cfg: Config, n: Node, es: seq<NodeEvent>)
    requires EngineInv(cfg.prim, n.engine) && Rebuilt(n.engine) && es != []
    requires ChainOfRun(cfg, n, []) && AdvancingRun(cfg, n, es[..|es| - 1]) && ChainOfRun(cfg, n, es)
    ensures var m := RunNode(cfg, n, es[..|es| - 1]).node;
      && m.engine.vs.Valid() && ActiveCoord(m.engine).vs.Valid()
      && HarvestAdvances(cfg.prim, BeforeHarvest(cfg, m, es[|es| - 1]).node.engine)
  {
    hide ChainInv, NodeStep, BeforeHarvest, HarvestAdvances, EngineInv, Rebuilt, AdvancingRun;
    var start, vs := HeadOf(n.engine), n.engine.vs;
    var front, e := es[..|es| - 1], es[|es| - 1];
    RunKeepsChain(cfg, n, front);
    var o := RunNode(cfg, n, front);
    ChainHasEngineInv(cfg, start, History(o.node.engine, LogOf(o.commits, vs)));
    NodeStepKeepsChain(cfg, start, LogOf(o.commits, vs), o.node, e);
    StepKeepsSet(cfg, start, LogOf(o.commits, vs), o.node, e);
    LogOfAppend(o.commits, NodeStep(cfg, o.node, e).commits, vs);
  }

  lemma {:induction false} ChainMeansAdvancing(cfg: Config, n: Node, es: seq<NodeEvent>)
    requires EngineInv(cfg.prim, n.engine) && Rebuilt(n.engine) && ChainThroughout(cfg, n, es)
    ensures AdvancingRun(cfg, n, es)
  {
    hide ChainOfRun, RunNode, BeforeHarvest, HarvestAdvances, EngineInv, Rebuilt;
    assert es[..0] == [] && es[..|es|] == es;
    if es != [] {
      var front := es[..|es| - 1];
      forall k | 0 <= k <= |front| ensures front[..k] == es[..k] && ChainOfRun(cfg, n, front[..k]) {
        assert front[..k] == es[..k];
      }
      ChainMeansAdvancing(cfg, n, front);
      LastStepAdvances(cfg, n, es);
      forall i | 0 <= i < |es| ensures i < |front| ==> front[..i] == es[..i] && front[i] == es[i] {
      }
    }
  }

  lemma AdvancingMeansChain(cfg: Config, n: Node, es: seq<NodeEvent>)
    requires EngineInv(cfg.prim, n.engine) && Rebuilt(n.engine) && ChainOfRun(cfg, n, []) && AdvancingRun(cfg, n, es)
    ensures ChainThroughout(cfg, n, es)
  {
    hide ChainOfRun, RunNode, BeforeHarvest, HarvestAdvances, EngineInv, Rebuilt;
    forall k | 0 <= k <= |es| ensures ChainOfRun(cfg, n, es[..k]) {
      assert forall i :: 0 <= i < k ==> es[..k][..i] == es[..i];
      RunKeepsChain(cfg, n, es[..k]);
    }
  }

  /** From a fresh start, whatever is delivered, a node's commits stay a chain if and only if every block it
      harvests is numbered above its head. */
  lemma NodeRunKeepsChain(cfg: Config, vs: ValidatorSet, index: nat, seed: Bytes, genesis: Block, es: seq<NodeEvent>)
    requires vs.Valid()
    ensures (FreshChain(cfg, vs, index, seed, genesis);
      var n := FreshNode(cfg, vs, index, seed, genesis);
      ChainThroughout(cfg, n, es) <==> AdvancingRun(cfg, n, es))
  {
    hide ChainThroughout, AdvancingRun, ChainOfRun, Rebuilt, FreshNode;
    FreshChain(cfg, vs, index, seed, genesis);
    var n := FreshNode(cfg, vs, index, seed, genesis);
    if ChainThroughout(cfg, n, es) {
      ChainMeansAdvancing(cfg, n, es);
    }
    if AdvancingRun(cfg, n, es) {
      AdvancingMeansChain(cfg, n, es);
    }
  }

  /** A lagging node that hears of later heights and asks any node in such a run adopts exactly that node's missing
      commits, and ends at its head. */
  lemma NodesServeTheirChain(cfg: Config, pc: PointCodec, vs: ValidatorSet, index: nat, seed: Bytes, genesis: Block,
                             es: seq<NodeEvent>, n: Node, i: nat, hints: seq<Message>)
    requires vs.Valid()
    requires (FreshChain(cfg, vs, index, seed, genesis);
      var origin := FreshNode(cfg, vs, index, seed, genesis);
      var commits := RunNode(cfg, origin, es).commits;
      && AdvancingRun(cfg, origin, es)
      && Lags(cfg, pc, HeadOf(origin.engine), LogOf(commits, vs), n, i)
      && 0 < |hints| == |commits| - i && HintsFromBeyond(hints, genesis.header.number + i))
    ensures (FreshChain(cfg, vs, index, seed, genesis);
      var server := RunNode(cfg, FreshNode(cfg, vs, index, seed, genesis), es);
      var o := FetchAll(cfg, pc, server.node, n, hints);
      o.commits == server.commits[i..] && HeadOf(o.node.engine) == HeadOf(server.node.engine))
  {
    hide ChainInv, RunNode, AdvancingRun, FetchAll, Rebuilt;
    FreshChain(cfg, vs, index, seed, genesis);
    var origin := FreshNode(cfg, vs, index, seed, genesis);
    RunKeepsChain(cfg, origin, es);
    var server := RunNode(cfg, origin, es);
    var h := History(server.node.engine, LogOf(server.commits, vs));
    CatchUpReachesServer(cfg, pc, HeadOf(origin.engine), h, server.node, n, i, hints);
    var got := FetchAll(cfg, pc, server.node, n, hints).commits;
    forall j | 0 <= j < |got| ensures got[j] == server.commits[i..][j] {
      assert h.log[i + j] == Commit(server.commits[i + j].block, server.commits[i + j].cert, vs);
    }
  }
}
