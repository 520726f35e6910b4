/** A node driven by gossip never signs two different votes of one kind for the same height and round. */
module Voting {
  import opened Crypto
  import opened Validators
  import opened Tally
  import opened Coordinator
  import opened Engine
  import opened Wire
  import opened Chain
  import opened Gossip

  // ---------------------------------------------------------------------------------------
  // Positions never go back
  // ---------------------------------------------------------------------------------------

  predicate AtMost(p: Position, q: Position) {
    p.height < q.height || (p.height == q.height && p.round <= q.round)
  }

  /** Where the engine's next event takes place. */
  function Here(s: EngineState): Position {
    Position(ActiveCoord(s).height, ActiveCoord(s).round)
  }

  /** The position has been reached, and if its round is over it is behind. */
  predicate Reached(p: Position, s: EngineState) {
    if s.coord.Some? then AtMost(p, Here(s)) else p.height <= s.headNumber
  }

  /** Everything reached before is still reached. */
  ghost predicate Onward(s: EngineState, t: EngineState) {
    forall p :: Reached(p, s) ==> Reached(p, t)
  }

  /** Whether the height after a harvest lies ahead is decided by the number of the proposed block alone. */
  lemma HarvestAdvancesIff(prim: Primitives, s: EngineState)
    requires EngineInv(prim, s) && Harvest(prim, s).1.Some?
    ensures Here(Harvest(prim, s).0).height > Here(s).height <==> s.proposal.value.block.header.number > s.headNumber
    ensures Onward(s, Harvest(prim, s).0) <==> s.proposal.value.block.header.number > s.headNumber
  {
    var t := Harvest(prim, s).0;
    if s.proposal.value.block.header.number <= s.headNumber {
      assert Reached(Here(s), s) && !Reached(Here(s), t);
    }
  }

  lemma AdoptStepsOn(prim: Primitives, s: EngineState, b: Block, cert: PrecommitCertificate)
    requires EngineInv(prim, s)
    ensures EngineInv(prim, Adopt(prim, s, b, cert).0) && Onward(s, Adopt(prim, s, b, cert).0)
  {
  }

  lemma RemoteVoteStepsOn(prim: Primitives, s: EngineState, kind: VoteKind, v: Vote)
    requires EngineInv(prim, s)
    ensures EngineInv(prim, RemoteVote(s, kind, v).0) && Onward(s, RemoteVote(s, kind, v).0)
  {
    RemoteVoteKeepsInv(prim, s, kind, v);
    RemoteVoteFrame(prim, s, kind, v);
    var r := Recorded(s, kind, v);
    if r.coord.Some? && AfterVote(r.coord.value, kind, v).Ok? {
      VoteContinues(r.coord.value, kind, v);
      DrainContinues(r.(coord := Some(AfterVote(r.coord.value, kind, v).value)));
    }
  }

  lemma RemoteProposalStepsOn(prim: Primitives, s: EngineState, p: Proposal)
    requires EngineInv(prim, s)
    ensures ActiveCoord(s).vs.Valid()
    ensures EngineInv(prim, RemoteProposal(prim, s, p).0) && Onward(s, RemoteProposal(prim, s, p).0)
  {
    hide Drain, CoordInv;
    ActiveCoordInv(prim, s);
    RemoteProposalKeepsInv(prim, s, p);
    RemoteProposalFrame(prim, s, p);
    AcceptedProposalInv(prim, s, p);
    var r := AfterProposal(prim, ActiveCoord(s), HashOf(prim, p.block), p.proof);
    if r.Ok? {
      DrainContinues(s.(coord := Some(r.value), proposal := Some(p)));
    }
  }

  lemma FastForwardStepsOn(prim: Primitives, s: EngineState, height: nat, round: nat)
    requires EngineInv(prim, s) && ShouldFastForward(s, height, round)
    ensures EngineInv(prim, FastForward(s, round).0) && Onward(s, FastForward(s, round).0)
  {
    FastForwardKeepsInv(prim, s, round);
  }

  lemma CastProposalStepsOn(cfg: Config, s: EngineState, body: Bytes)
    requires EngineInv(cfg.prim, s)
    ensures ActiveCoord(s).vs.Valid()
    ensures EngineInv(cfg.prim, AfterCastProposal(cfg, s, body).0) && Onward(s, AfterCastProposal(cfg, s, body).0)
  {
    ActiveCoordInv(cfg.prim, s);
    CastProposalKeepsInv(cfg, s, body);
    CastProposalFrame(cfg, s, body);
  }

  lemma CastVoteStepsOn(cfg: Config, s: EngineState, kind: VoteKind)
    requires EngineInv(cfg.prim, s)
    ensures EngineInv(cfg.prim, AfterCastVote(cfg, s, kind).0) && Onward(s, AfterCastVote(cfg, s, kind).0)
  {
    CastVoteKeepsInv(cfg, s, kind);
  }

  lemma TimeoutStepsOn(prim: Primitives, s: EngineState)
    requires EngineInv(prim, s)
    ensures EngineInv(prim, AfterTickTimeout(s)) && Onward(s, AfterTickTimeout(s))
  {
    ActiveCoordInv(prim, s);
    TickTimeoutKeepsInv(prim, s);
    TimeoutKeepsInv(ActiveCoord(s));
    TimeoutFrame(prim, s);
    DrainContinues(s.(coord := Some(AfterTimeout(ActiveCoord(s))), proposal := None));
  }

  // ---------------------------------------------------------------------------------------
  // Released votes
  // ---------------------------------------------------------------------------------------

  function VoteStatement(kind: VoteKind, v: Vote): Statement {
    Statement(kind, v.block, v.height, v.round)
  }

  /** The statements of the votes among broadcast messages. */
  function Released(out: seq<Message>): set<Statement> {
    set m | m in out && m.VoteMsg? :: VoteStatement(m.kind, m.vote)
  }

  /** The last vote kept for re-broadcasting is where the flag says, and was released; every released
      vote of that kind is at most there, and at that position it is that very vote. */
  ghost predicate Disciplined(f: RoundFlags, kind: VoteKind, released: set<Statement>) {
    && (VotedAt(f, kind).Some? <==> LastVote(f, kind).Some?)
    && (VotedAt(f, kind).Some? ==>
      var m := LastVote(f, kind).value;
      && m.VoteMsg? && m.kind == kind
      && VotedAt(f, kind).value == Position(m.vote.height, m.vote.round)
      && VoteStatement(kind, m.vote) in released)
    && (forall st :: st in released && st.kind == kind ==>
      && VotedAt(f, kind).Some?
      && AtMost(Position(st.height, st.round), VotedAt(f, kind).value)
      && (Position(st.height, st.round) == VotedAt(f, kind).value ==>
            st == VoteStatement(kind, LastVote(f, kind).value.vote)))
  }

  /** At most one statement per kind, height and round. */
  ghost predicate NoDoubleSign(released: set<Statement>) {
    forall st, tt ::
      && st in released && tt in released
      && st.kind == tt.kind && st.height == tt.height && st.round == tt.round
      ==> st == tt
  }

  ghost predicate NodeInv(cfg: Config, n: Node, released: set<Statement>) {
    && EngineInv(cfg.prim, n.engine)
    && NoDoubleSign(released)
    && (forall kind :: Disciplined(n.flags, kind, released))
    && (forall kind :: VotedAt(n.flags, kind).Some? ==> Reached(VotedAt(n.flags, kind).value, n.engine))
    && (n.flags.lastProposal.Some? ==> n.flags.lastProposal.value.ProposalMsg?)
  }

  /** The node moved on and released nothing new. */
  lemma QuietStep(cfg: Config, n: Node, t: Node, released: set<Statement>)
    requires NodeInv(cfg, n, released)
    requires EngineInv(cfg.prim, t.engine) && Onward(n.engine, t.engine)
    requires t.flags == n.flags.(requested := t.flags.requested, proposed := t.flags.proposed,
                                 lastProposal := t.flags.lastProposal)
    requires t.flags.lastProposal.Some? ==> t.flags.lastProposal.value.ProposalMsg?
    ensures NodeInv(cfg, t, released)
  {
    forall kind ensures Disciplined(t.flags, kind, released)
      && (VotedAt(t.flags, kind).Some? ==> Reached(VotedAt(t.flags, kind).value, t.engine)) {
      assert Disciplined(n.flags, kind, released);
      match kind
      case Prevote =>
      case Precommit =>
    }
  }

  /** Casting a vote at a position where none was cast keeps the discipline. */
  lemma VoteStep(cfg: Config, n: Node, kind: VoteKind, released: set<Statement>)
    requires NodeInv(cfg, n, released) && n.engine.coord.Some?
    ensures var o := MaybeVote(cfg, n, Here(n.engine), kind);
      && NodeInv(cfg, o.node, released + Released(o.out)) && Onward(n.engine, o.node.engine) && o.commits == []
      && (forall st :: st in Released(o.out) ==> st.kind == kind)
  {
    var at := Here(n.engine);
    var o := MaybeVote(cfg, n, at, kind);
    CastVoteStepsOn(cfg, n.engine, kind);
    var (s, r) := AfterCastVote(cfg, n.engine, kind);
    if VotedAt(n.flags, kind) == Some(at) || r.Err? {
      assert Released([]) == {} && released + {} == released;
      QuietStep(cfg, n, o.node, released);
    } else {
      var st := VoteStatement(kind, r.value);
      assert Position(st.height, st.round) == at;
      assert Released(o.out) == {st} by {
        assert VoteMsg(kind, r.value) in o.out;
      }
      FreshVoteKeepsDiscipline(n.flags, kind, released, r.value, at);
      forall k ensures VotedAt(o.node.flags, k).Some? ==> Reached(VotedAt(o.node.flags, k).value, o.node.engine) {
        assert k != kind ==> VotedAt(o.node.flags, k) == VotedAt(n.flags, k);
      }
    }
  }

  lemma FreshVoteKeepsDiscipline(f: RoundFlags, kind: VoteKind, released: set<Statement>, v: Vote, at: Position)
    requires NoDoubleSign(released) && forall k :: Disciplined(f, k, released)
    requires at == Position(v.height, v.round) && VotedAt(f, kind) != Some(at)
    requires VotedAt(f, kind).Some? ==> AtMost(VotedAt(f, kind).value, at)
    ensures var g := NoteVote(f, kind, at, VoteMsg(kind, v));
      var all := released + {VoteStatement(kind, v)};
      NoDoubleSign(all) && forall k :: Disciplined(g, k, all)
  {
    var g := NoteVote(f, kind, at, VoteMsg(kind, v));
    var all := released + {VoteStatement(kind, v)};
    assert Disciplined(f, kind, released);
    forall k ensures Disciplined(g, k, all) {
      assert Disciplined(f, k, released);
      match kind
      case Prevote =>
      case Precommit =>
    }
  }

  // ---------------------------------------------------------------------------------------
  // Steps and runs
  // ---------------------------------------------------------------------------------------

  lemma ReleasedAppend(a: seq<Message>, b: seq<Message>)
    ensures Released(a + b) == Released(a) + Released(b)
  {
    forall st ensures st in Released(a + b) <==> st in Released(a) + Released(b) {
      if st in Released(a + b) {
        var m :| m in a + b && m.VoteMsg? && VoteStatement(m.kind, m.vote) == st;
        assert m in a || m in b;
      }
      if st in Released(a) {
        var m :| m in a && m.VoteMsg? && VoteStatement(m.kind, m.vote) == st;
        assert m in a + b;
      }
      if st in Released(b) {
        var m :| m in b && m.VoteMsg? && VoteStatement(m.kind, m.vote) == st;
        assert m in a + b;
      }
    }
  }

  /** Re-broadcasting releases nothing new. */
  lemma RepeatReleasesNothingNew(cfg: Config, n: Node, released: set<Statement>)
    requires NodeInv(cfg, n, released)
    ensures Released(Repeat(n.flags.lastProposal)) == {}
    ensures Released(Repeat(n.flags.lastPrevote)) <= released
    ensures Released(Repeat(n.flags.lastPrecommit)) <= released
  {
    assert Disciplined(n.flags, Prevote, released);
    assert Disciplined(n.flags, Precommit, released);
  }

  lemma ProposeStep(cfg: Config, n: Node, body: Bytes, released: set<Statement>)
    requires NodeInv(cfg, n, released)
    ensures ActiveCoord(n.engine).vs.Valid()
    ensures var o := Propose(cfg, n, body);
      && NodeInv(cfg, o.node, released) && Released(o.out) == {} && Onward(n.engine, o.node.engine) && o.commits == []
  {
    CastProposalStepsOn(cfg, n.engine, body);
    QuietStep(cfg, n, Propose(cfg, n, body).node, released);
  }

  lemma DriveStep(cfg: Config, n: Node, body: Bytes, released: set<Statement>)
    requires NodeInv(cfg, n, released)
    ensures n.engine.vs.Valid() && ActiveCoord(n.engine).vs.Valid()
    ensures var o := Drive(cfg, n, body); NodeInv(cfg, o.node, released + Released(o.out)) && o.commits == []
  {
    hide NodeInv, MaybeVote, Propose, Released;
    NodeHasEngineInv(cfg, n, released);
    ActiveCoordInv(cfg.prim, n.engine);
    ProposeStep(cfg, n, body, released);
    ReleasedNothing();
    var o := Drive(cfg, n, body);
    if n.engine.coord.Some? {
      match PhaseOf(n.engine.coord.value.stage)
      case AwaitingProposal =>
        var p := MaybePropose(cfg, n, Here(n.engine), body);
        RepeatReleasesNothingNew(cfg, p.node, released);
        ReleasedAppend(p.out, Repeat(p.node.flags.lastProposal));
        assert released + Released(o.out) == released;
      case Prevoting =>
        var p := MaybeVote(cfg, n, Here(n.engine), Prevote);
        VoteStep(cfg, n, Prevote, released);
        RepeatReleasesNothingNew(cfg, p.node, released + Released(p.out));
        ReleasedAppend(p.out, Repeat(p.node.flags.lastProposal));
        ReleasedAppend(p.out + Repeat(p.node.flags.lastProposal), Repeat(p.node.flags.lastPrevote));
        assert released + Released(o.out) == released + Released(p.out);
      case Precommitting =>
        var p := MaybeVote(cfg, n, Here(n.engine), Precommit);
        VoteStep(cfg, n, Precommit, released);
        RepeatReleasesNothingNew(cfg, p.node, released + Released(p.out));
        ReleasedAppend(p.out, Repeat(p.node.flags.lastPrevote));
        ReleasedAppend(p.out + Repeat(p.node.flags.lastPrevote), Repeat(p.node.flags.lastPrecommit));
        assert released + Released(o.out) == released + Released(p.out);
      case Committed =>
        assert released + Released(o.out) == released;
    } else {
      assert released + Released(o.out) == released;
    }
  }

  lemma ReleasedNothing()
    ensures Released([]) == {}
  {
  }

  lemma NodeHasEngineInv(cfg: Config, n: Node, released: set<Statement>)
    requires NodeInv(cfg, n, released)
    ensures EngineInv(cfg.prim, n.engine)
  {
  }

  lemma HandleProposalStep(cfg: Config, n: Node, m: Message, released: set<Statement>)
    requires NodeInv(cfg, n, released) && m.ProposalMsg?
    ensures n.engine.vs.Valid() && ActiveCoord(n.engine).vs.Valid()
    ensures NodeInv(cfg, HandleProposal(cfg, n, m).node, released)
  {
    hide NodeInv, EngineInv, RemoteProposal, FastForward, Onward;
    NodeHasEngineInv(cfg, n, released);
    EngineInvHasSet(cfg.prim, n.engine);
    var s := if ShouldFastForward(n.engine, m.height, m.round) then FastForward(n.engine, m.round).0 else n.engine;
    OnwardReflexive(n.engine);
    if ShouldFastForward(n.engine, m.height, m.round) {
      FastForwardStepsOn(cfg.prim, n.engine, m.height, m.round);
    }
    EngineInvHasSet(cfg.prim, s);
    if cfg.prim.decodeBody(m.body).Some? {
      var p := Proposal(BuildBlock(cfg, s, m.height, m.proof, m.coinbase, cfg.prim.decodeBody(m.body).value), m.proof);
      RemoteProposalStepsOn(cfg.prim, s, p);
      OnwardTransitive(n.engine, s, RemoteProposal(cfg.prim, s, p).0);
    }
    LastProposalKind(cfg, n, released);
    QuietStep(cfg, n, HandleProposal(cfg, n, m).node, released);
  }

  lemma EngineInvHasSet(prim: Primitives, s: EngineState)
    requires EngineInv(prim, s)
    ensures s.vs.Valid() && ActiveCoord(s).vs.Valid()
  {
    ActiveCoordInv(prim, s);
  }

  lemma OnwardReflexive(s: EngineState)
    ensures Onward(s, s)
  {
  }

  lemma OnwardTransitive(s: EngineState, t: EngineState, u: EngineState)
    requires Onward(s, t) && Onward(t, u)
    ensures Onward(s, u)
  {
  }

  lemma LastProposalKind(cfg: Config, n: Node, released: set<Statement>)
    requires NodeInv(cfg, n, released)
    ensures n.flags.lastProposal.Some? ==> n.flags.lastProposal.value.ProposalMsg?
  {
  }

  /** Handling a message, whatever it is, keeps the discipline and releases nothing. */
  lemma DispatchStep(cfg: Config, n: Node, m: Message, released: set<Statement>)
    requires NodeInv(cfg, n, released)
    ensures n.engine.vs.Valid() && ActiveCoord(n.engine).vs.Valid()
    ensures NodeInv(cfg, Dispatch(cfg, n, m).node, released) && Released(Dispatch(cfg, n, m).out) == {}
  {
    ActiveCoordInv(cfg.prim, n.engine);
    var o := Dispatch(cfg, n, m);
    match m
    case ProposalMsg(height, _, _, _, _, _) =>
      if height > n.engine.headNumber + 1 {
        QuietStep(cfg, n, o.node, released);
      } else {
        HandleProposalStep(cfg, n, m, released);
      }
    case VoteMsg(kind, v) =>
      RemoteVoteStepsOn(cfg.prim, n.engine, kind, v);
      QuietStep(cfg, n, o.node, released);
    case BlockRequest(height) =>
    case BlockResponse(bytes, cert) =>
      if cfg.prim.decodeBlock(bytes).Some? {
        AdoptStepsOn(cfg.prim, n.engine, cfg.prim.decodeBlock(bytes).value, cert);
        QuietStep(cfg, n, o.node, released);
      }
  }

  /** A harvest, if there is one, takes the head to every height this node has voted at. */
  predicate HarvestClears(prim: Primitives, n: Node) {
    Harvest(prim, n.engine).1.Some? ==>
      forall kind :: VotedAt(n.flags, kind).Some? ==>
        VotedAt(n.flags, kind).value.height <= n.engine.proposal.value.block.header.number
  }

  /** Sweeping up a commit keeps the node ahead of its votes if and only if the block's number clears them. */
  lemma AutoHarvestStep(cfg: Config, o: Outcome, released: set<Statement>)
    requires NodeInv(cfg, o.node, released)
    ensures NodeInv(cfg, AutoHarvest(cfg.prim, o).node, released) <==> HarvestClears(cfg.prim, o.node)
    ensures AutoHarvest(cfg.prim, o).out == o.out
  {
  }

  /** A block numbered above the head always does. */
  lemma AdvancingHarvestClears(cfg: Config, n: Node, released: set<Statement>)
    requires NodeInv(cfg, n, released)
    requires Harvest(cfg.prim, n.engine).1.Some? ==> n.engine.proposal.value.block.header.number > n.engine.headNumber
    ensures HarvestClears(cfg.prim, n)
  {
    if Harvest(cfg.prim, n.engine).1.Some? {
      HarvestAdvancesIff(cfg.prim, n.engine);
    }
  }

  /** Whatever an event does before the sweep keeps the discipline. */
  lemma BeforeHarvestStep(cfg: Config, n: Node, e: NodeEvent, released: set<Statement>)
    requires NodeInv(cfg, n, released)
    ensures n.engine.vs.Valid() && ActiveCoord(n.engine).vs.Valid()
    ensures var o := BeforeHarvest(cfg, n, e); NodeInv(cfg, o.node, released + Released(o.out))
    ensures e.ClockFired? ==> Harvest(cfg.prim, BeforeHarvest(cfg, n, e).node.engine).1.None?
  {
    hide NodeInv, Dispatch, Drive, Released, Drain;
    NodeHasEngineInv(cfg, n, released);
    EngineInvHasSet(cfg.prim, n.engine);
    match e
    case Receive(m) =>
      DispatchStep(cfg, n, m, released);
      assert released + {} == released;
    case Advance(body) => DriveStep(cfg, n, body, released);
    case ClockFired =>
      TimeoutStepsOn(cfg.prim, n.engine);
      TimeoutFrame(cfg.prim, n.engine);
      LastProposalKind(cfg, n, released);
      QuietStep(cfg, n, BeforeHarvest(cfg, n, e).node, released);
      ReleasedNothing();
      assert released + {} == released;
  }

  /** An event keeps the discipline, with whatever it releases, if and only if the block it harvests, if any, is
      not numbered below a height the node has voted at.  No message needs to be kept from the node. */
  lemma NodeStepKeepsInv(cfg: Config, n: Node, e: NodeEvent, released: set<Statement>)
    requires NodeInv(cfg, n, released)
    ensures n.engine.vs.Valid() && ActiveCoord(n.engine).vs.Valid()
    ensures NodeInv(cfg, NodeStep(cfg, n, e).node, released + Released(NodeStep(cfg, n, e).out))
       <==> HarvestClears(cfg.prim, BeforeHarvest(cfg, n, e).node)
  {
    hide NodeInv, Dispatch, Drive, Released, AutoHarvest;
    BeforeHarvestStep(cfg, n, e, released);
    var o := BeforeHarvest(cfg, n, e);
    AutoHarvestStep(cfg, o, released + Released(o.out));
  }

  /** A node that has just started has voted nowhere. */
  lemma FreshNodeInv(cfg: Config, s: EngineState)
    requires EngineInv(cfg.prim, s) && s.coord.None? && s.proposal.None?
    ensures NodeInv(cfg, Node(s, NO_FLAGS, []), {})
  {
  }

  /** No harvest of the run falls behind a height the node has voted at. */
  ghost predicate ClearRun(cfg: Config, n: Node, es: seq<NodeEvent>)
    requires EngineInv(cfg.prim, n.engine)
  {
    forall i :: 0 <= i < |es| ==>
      var m := RunNode(cfg, n, es[..i]).node;
      ActiveCoordInv(cfg.prim, m.engine);
      HarvestClears(cfg.prim, BeforeHarvest(cfg, m, es[i]).node)
  }

  /** Over any run of messages, ticks and timeouts from a fresh start, a node never releases two
      different PRE-VOTES, nor two different PRE-COMMITS, for one height and round. */
  lemma NeverSignsTwice(cfg: Config, vs: ValidatorSet, index: nat, seed: Bytes, genesis: Block, es: seq<NodeEvent>)
    requires vs.Valid()
    requires ClearRun(cfg, FreshNode(cfg, vs, index, seed, genesis), es)
    ensures NoDoubleSign(Released(RunNode(cfg, FreshNode(cfg, vs, index, seed, genesis), es).out))
  {
    var n := FreshNode(cfg, vs, index, seed, genesis);
    FreshNodeInv(cfg, n.engine);
    RunKeepsNodeInv(cfg, n, es);
  }

  lemma {:induction false} RunKeepsNodeInv(cfg: Config, n: Node, es: seq<NodeEvent>)
    requires NodeInv(cfg, n, {}) && ClearRun(cfg, n, es)
    ensures NodeInv(cfg, RunNode(cfg, n, es).node, Released(RunNode(cfg, n, es).out))
  {
    hide NodeStep, EngineInv, Released, HarvestClears, BeforeHarvest;
    NodeHasEngineInv(cfg, n, {});
    if es == [] {
      ReleasedNothing();
    } else {
      var front, e := es[..|es| - 1], es[|es| - 1];
      assert forall i :: 0 <= i < |front| ==> front[..i] == es[..i];
      RunKeepsNodeInv(cfg, n, front);
      var o := RunNode(cfg, n, front);
      NodeStepKeepsInv(cfg, o.node, e, Released(o.out));
      ReleasedAppend(o.out, NodeStep(cfg, o.node, e).out);
    }
  }
}
