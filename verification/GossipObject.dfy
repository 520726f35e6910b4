/** The gossip driver as the mutable object of the source: one `Tick` drains the inbox and drives the
    round, and is proved to be the run of node steps that the safety theorems are about. */
module GossipObject {
  import opened Bits
  import opened Crypto
  import opened Validators
  import opened Tally
  import opened Coordinator
  import opened Engine
  import opened EngineObject
  import opened Wire
  import opened Gossip

  /** The message a payload carries, if any. */
  ghost function MessageOf(pc: PointCodec, b: Bytes): Option<Message> {
    if exists m :: Decodes(pc, b, m) then
      var m :| Decodes(pc, b, m);
      Some(m)
    else None
  }

  /** The messages of an inbox that decode, in order. */
  ghost function Deliveries(pc: PointCodec, inbox: seq<Bytes>): seq<NodeEvent> {
    if inbox == [] then []
    else
      var m := MessageOf(pc, inbox[|inbox| - 1]);
      Deliveries(pc, inbox[..|inbox| - 1]) + if m.Some? then [Receive(m.value)] else []
  }

  /** Nothing is left to harvest. */
  predicate Rested(prim: Primitives, n: Node) {
    Harvest(prim, n.engine).1.None?
  }

  /** One payload: a message is handled, anything else only sweeps up a commit. */
  ghost function AfterPayload(cfg: Config, pc: PointCodec, n: Node, b: Bytes): (o: Outcome)
    requires EngineInv(cfg.prim, n.engine)
    ensures EngineInv(cfg.prim, o.node.engine)
  {
    match MessageOf(pc, b)
    case Some(m) =>
      NodeStepKeepsEngineInv(cfg, n, Receive(m));
      NodeStep(cfg, n, Receive(m))
    case None => Gossip.AutoHarvest(cfg.prim, Quiet(n))
  }

  ghost function AfterInbox(cfg: Config, pc: PointCodec, n: Node, inbox: seq<Bytes>): (o: Outcome)
    requires EngineInv(cfg.prim, n.engine)
    ensures EngineInv(cfg.prim, o.node.engine)
  {
    if inbox == [] then Quiet(n)
    else
      var o := AfterInbox(cfg, pc, n, inbox[..|inbox| - 1]);
      Then(o, AfterPayload(cfg, pc, o.node, inbox[|inbox| - 1]))
  }

  lemma HarvestAfter(prim: Primitives, o: Outcome, p: Outcome)
    ensures Gossip.AutoHarvest(prim, Then(o, p)) == Then(o, Gossip.AutoHarvest(prim, p))
  {
  }

  lemma ThenAssociates(o: Outcome, p: Outcome, q: Outcome)
    ensures Then(Then(o, p), q) == Then(o, Then(p, q))
  {
  }

  /** Every step leaves a rested node: one harvest is enough. */
  lemma StepRests(cfg: Config, n: Node, e: NodeEvent)
    requires EngineInv(cfg.prim, n.engine)
    ensures n.engine.vs.Valid() && ActiveCoord(n.engine).vs.Valid()
    ensures Rested(cfg.prim, NodeStep(cfg, n, e).node)
  {
    hide Drain;
    ActiveCoordInv(cfg.prim, n.engine);
    if e.ClockFired? {
      TimedOutInv(cfg.prim, n.engine);
      DrainContinues(n.engine.(coord := Some(AfterTimeout(ActiveCoord(n.engine))), proposal := None));
    }
  }

  /** Payloads that do not decode change nothing, so handling an inbox is a run of deliveries. */
  lemma {:induction false} InboxIsRun(cfg: Config, pc: PointCodec, n: Node, inbox: seq<Bytes>)
    requires EngineInv(cfg.prim, n.engine) && Rested(cfg.prim, n)
    ensures AfterInbox(cfg, pc, n, inbox) == RunNode(cfg, n, Deliveries(pc, inbox))
    ensures Rested(cfg.prim, AfterInbox(cfg, pc, n, inbox).node)
  {
    hide EngineInv, NodeStep, Harvest;
    if inbox != [] {
      var front, b := inbox[..|inbox| - 1], inbox[|inbox| - 1];
      InboxIsRun(cfg, pc, n, front);
      var o := AfterInbox(cfg, pc, n, front);
      var m := MessageOf(pc, b);
      if m.Some? {
        StepRests(cfg, o.node, Receive(m.value));
        assert Deliveries(pc, inbox)[..|Deliveries(pc, inbox)| - 1] == Deliveries(pc, front);
      } else {
        assert Deliveries(pc, inbox) == Deliveries(pc, front);
        assert Then(o, Quiet(o.node)) == o;
      }
    }
  }

  lemma TypedWhenDecoded(pc: PointCodec, b: Bytes, m: Message)
    requires Decodes(pc, b, m)
    ensures Typed(pc, m)
  {
  }

  lemma Regroup<T>(a: seq<T>, b: seq<T>, c: seq<T>, d: seq<T>)
    ensures (a + b) + c + d == a + (b + c + d)
  {
  }

  lemma AdoptResult(prim: Primitives, s: EngineState, b: Block, cert: PrecommitCertificate)
    ensures var (t, r) := Adopt(prim, s, b, cert); if r.Ok? then r.value == b else t == s
  {
  }

  lemma CastProposalSetsPosition(cfg: Config, s: EngineState, body: Bytes)
    requires ActiveCoord(s).vs.Valid()
    ensures AfterCastProposal(cfg, s, body).0.coord.Some?
  {
  }

  class BftGossip {
    const pc: PointCodec
    const engine: BftEngine
    var flags: RoundFlags
    var harvestedBlocks: seq<Block>
    var outbox: seq<Message>
    ghost var commits: seq<CommittedBlock>
    ghost var Repr: set<object>

    ghost predicate Valid()
      reads this, Repr
    {
      && this in Repr && engine in Repr && engine.Repr <= Repr && this !in engine.Repr
      && engine.Valid() && Lawful(pc)
    }

    ghost function State(): Outcome
      reads this, Repr
      requires Valid()
    {
      Outcome(Node(engine.View(), flags, harvestedBlocks), outbox, commits)
    }

    constructor (pc: PointCodec, engine: BftEngine)
      requires engine.Valid() && Lawful(pc)
      ensures Valid() && fresh(Repr - engine.Repr) && this.engine == engine
      ensures State() == Quiet(Node(engine.View(), NO_FLAGS, []))
    {
      this.pc, this.engine := pc, engine;
      flags, harvestedBlocks, outbox, commits := NO_FLAGS, [], [], [];
      Repr := {this} + engine.Repr;
    }

    method AutoHarvest()
      requires Valid()
      modifies Repr
      ensures Valid() && fresh(Repr - old(Repr))
      ensures State() == Gossip.AutoHarvest(engine.cfg.prim, old(State()))
    {
      hide BftEngine.Valid, BftEngine.Shape, BftEngine.View, EngineInv, Cached;
      ghost var s := engine.View();
      var r := engine.TryHarvestCommitted();
      while r.Some?
        invariant Valid() && Repr == old(Repr)
        invariant r.Some? ==> (engine.View(), r) == Harvest(engine.cfg.prim, s)
        invariant r.Some? ==> State() == old(State()).(node := old(State()).node.(engine := engine.View()))
        invariant r.None? ==> State() == Gossip.AutoHarvest(engine.cfg.prim, old(State()))
        decreases r.Some?
      {
        harvestedBlocks := harvestedBlocks + [r.value.block];
        commits := commits + [r.value];
        r := engine.TryHarvestCommitted();
      }
    }

    /** Hand over the committed blocks and forget them. */
    method DrainHarvested() returns (blocks: seq<Block>)
      requires Valid()
      modifies this`harvestedBlocks
      ensures Valid() && blocks == old(harvestedBlocks)
      ensures State() == old(State()).(node := old(State()).node.(harvested := []))
    {
      hide BftEngine.Valid, BftEngine.Shape, BftEngine.View;
      blocks := harvestedBlocks;
      harvestedBlocks := [];
    }

    method Broadcast(m: Message)
      requires Valid()
      modifies this`outbox
      ensures Valid() && State() == old(State()).(out := old(State()).out + [m])
    {
      hide BftEngine.Valid, BftEngine.Shape, BftEngine.View;
      outbox := outbox + [m];
    }

    /** Ask for the next block, once, when a message is from beyond the next height. */
    method RequestCatchupIfFutureHeight(height: nat) returns (future: bool)
      requires Valid()
      modifies this`flags, this`outbox
      ensures Valid() && future == (height > old(engine.View()).headNumber + 1)
      ensures State() == if future then Then(old(State()), RequestCatchup(old(State()).node)) else old(State())
    {
      hide BftEngine.Valid, BftEngine.Shape, BftEngine.View;
      var next := engine.headNumber + 1;
      if height <= next {
        return false;
      }
      if next in flags.requested {
        assert outbox == outbox + [] && commits == commits + [];
        return true;
      }
      flags := flags.(requested := flags.requested + {next});
      outbox := outbox + [BlockRequest(next)];
      assert commits == commits + [];
      return true;
    }

    /** Jump to the round of a proposal for the next height; a valid engine never refuses. */
    method FastForwardFor(height: nat, round: nat)
      requires Valid() && round <= U32_MAX
      modifies Repr
      ensures Valid() && fresh(Repr - old(Repr))
      ensures var s := old(State());
        State() == s.(node := s.node.(engine :=
          if ShouldFastForward(s.node.engine, height, round)
          then FastForward(s.node.engine, round).0 else s.node.engine))
    {
      hide BftEngine.Valid, BftEngine.Shape, BftEngine.View, EngineInv, FastForward;
      if height == engine.headNumber + 1 && round > 0 {
        var at := engine.CurrentRoundState();
        if at.None? || (at.value.0 == height && round > at.value.1) {
          var _ := engine.FastForwardToRound(round);
          Repr := Repr + engine.Repr;
        }
      }
    }

    method HandleProposal(m: Message)
      requires Valid() && m.ProposalMsg? && m.round <= U32_MAX
      modifies Repr
      ensures Valid() && fresh(Repr - old(Repr))
      ensures State() == Then(old(State()), Gossip.HandleProposal(engine.cfg, old(State()).node, m))
    {
      hide BftEngine.Valid, BftEngine.Shape, BftEngine.View, EngineInv, RemoteProposal, FastForward, ShouldFastForward;
      FastForwardFor(m.height, m.round);
      assert outbox == outbox + [] && commits == commits + [];
      var body := engine.cfg.prim.decodeBody(m.body);
      if body.None? {
        return;
      }
      var block := engine.BuildBlockOnHead(m.height, m.proof, m.coinbase, body.value);
      if HashOf(engine.cfg.prim, block) != m.block {
        return;
      }
      var _ := engine.SubmitRemoteProposal(Proposal(block, m.proof));
      Repr := Repr + engine.Repr;
    }

    method HandleBlockResponse(blockBytes: Bytes, cert: PrecommitCertificate)
      requires Valid()
      modifies Repr
      ensures Valid() && fresh(Repr - old(Repr))
      ensures State() == Then(old(State()),
                Gossip.HandleBlockResponse(engine.cfg, old(State()).node, BlockResponse(blockBytes, cert)))
    {
      hide BftEngine.Valid, BftEngine.Shape, BftEngine.View, EngineInv, Adopt;
      assert outbox == outbox + [] && commits == commits + [];
      var b := engine.cfg.prim.decodeBlock(blockBytes);
      if b.None? {
        return;
      }
      AdoptResult(engine.cfg.prim, engine.View(), b.value, cert);
      var r := engine.AdoptSyncedBlock(b.value, cert);
      if r.Err? {
        return;
      }
      flags := flags.(requested := flags.requested - {r.value.header.number});
      harvestedBlocks := harvestedBlocks + [r.value];
      commits := commits + [CommittedBlock(r.value, cert)];
    }

    method Dispatch(m: Message)
      requires Valid() && Typed(pc, m)
      modifies Repr
      ensures Valid() && fresh(Repr - old(Repr))
      ensures State() == Then(old(State()), Gossip.Dispatch(engine.cfg, old(State()).node, m))
    {
      hide BftEngine.Valid, BftEngine.Shape, BftEngine.View, EngineInv, RemoteVote, Gossip.HandleProposal,
        Gossip.HandleBlockResponse, RequestCatchup;
      match m
      case ProposalMsg(height, _, _, _, _, _) =>
        var future := RequestCatchupIfFutureHeight(height);
        if !future {
          HandleProposal(m);
        }
      case VoteMsg(kind, v) =>
        assert outbox == outbox + [] && commits == commits + [];
        var future := RequestCatchupIfFutureHeight(v.height);
        if !future {
          var _ := engine.SubmitRemoteVote(kind, v);
          Repr := Repr + engine.Repr;
        }
      case BlockRequest(height) =>
        assert outbox == outbox + [] && commits == commits + [];
        if height in engine.recentBlocks {
          var c := engine.recentBlocks[height];
          Broadcast(BlockResponse(engine.cfg.prim.encodeBlock(c.block), c.cert));
        }
      case BlockResponse(bytes, cert) =>
        HandleBlockResponse(bytes, cert);
    }

    method Propose(body: Bytes) returns (activity: nat)
      requires Valid()
      modifies Repr
      ensures Valid() && fresh(Repr - old(Repr))
      ensures ActiveCoord(old(State()).node.engine).vs.Valid()
      ensures State() == Then(old(State()), Gossip.Propose(engine.cfg, old(State()).node, body))
      ensures activity == |Gossip.Propose(engine.cfg, old(State()).node, body).out|
    {
      hide BftEngine.Valid, BftEngine.Shape, BftEngine.View, EngineInv, AfterCastProposal;
      assert outbox == outbox + [] && commits == commits + [];
      ValidSet(engine.cfg, engine.View());
      CastProposalSetsPosition(engine.cfg, engine.View(), body);
      var r := engine.CastProposal(body);
      Repr := Repr + engine.Repr;
      if r.Err? {
        return 0;
      }
      var at := engine.CurrentRoundState();
      var here := Position(at.value.0, at.value.1);
      var m := ProposalMessage(engine.cfg, r.value, here);
      flags := flags.(proposed := Some(here), lastProposal := Some(m));
      Broadcast(m);
      return 1;
    }

    method MaybePropose(h: nat, r: nat, body: Bytes) returns (activity: nat)
      requires Valid() && State().node.engine.coord.Some?
      modifies Repr
      ensures Valid() && fresh(Repr - old(Repr))
      ensures old(State()).node.engine.coord.value.vs.Valid()
      ensures State() == Then(old(State()), Gossip.MaybePropose(engine.cfg, old(State()).node, Position(h, r), body))
      ensures activity == |Gossip.MaybePropose(engine.cfg, old(State()).node, Position(h, r), body).out|
    {
      hide BftEngine.Valid, BftEngine.Shape, BftEngine.View, EngineInv, Gossip.Propose, LeaderIndex;
      assert outbox == outbox + [] && commits == commits + [];
      var leads := engine.LeadsNow();
      if flags.proposed == Some(Position(h, r)) || !leads {
        return 0;
      }
      activity := Propose(body);
    }

    method MaybeVote(h: nat, r: nat, kind: VoteKind) returns (activity: nat)
      requires Valid()
      modifies Repr
      ensures Valid() && fresh(Repr - old(Repr))
      ensures State() == Then(old(State()), Gossip.MaybeVote(engine.cfg, old(State()).node, Position(h, r), kind))
      ensures activity == |Gossip.MaybeVote(engine.cfg, old(State()).node, Position(h, r), kind).out|
    {
      hide BftEngine.Valid, BftEngine.Shape, BftEngine.View, EngineInv, AfterCastVote;
      assert outbox == outbox + [] && commits == commits + [];
      if VotedAt(flags, kind) == Some(Position(h, r)) {
        return 0;
      }
      var vote := engine.CastVote(kind);
      Repr := Repr + engine.Repr;
      if vote.Err? {
        return 0;
      }
      var m := VoteMsg(kind, vote.value);
      flags := NoteVote(flags, kind, Position(h, r), m);
      Broadcast(m);
      return 1;
    }

    method Retransmit(m: Option<Message>) returns (activity: nat)
      requires Valid()
      modifies this`outbox
      ensures Valid() && State() == old(State()).(out := old(State()).out + Repeat(m))
      ensures activity == |Repeat(m)|
    {
      hide BftEngine.Valid, BftEngine.Shape, BftEngine.View;
      assert outbox == outbox + [];
      if m.Some? {
        Broadcast(m.value);
        return 1;
      }
      return 0;
    }

    method VoteAndRetransmit(h: nat, r: nat, kind: VoteKind) returns (activity: nat)
      requires Valid()
      modifies Repr
      ensures Valid() && fresh(Repr - old(Repr))
      ensures var o := Gossip.MaybeVote(engine.cfg, old(State()).node, Position(h, r), kind);
        var first := Repeat(if kind.Prevote? then o.node.flags.lastProposal else o.node.flags.lastPrevote);
        var out := o.out + first + Repeat(LastVote(o.node.flags, kind));
        State() == Then(old(State()), o.(out := out)) && activity == |out|
    {
      hide BftEngine.Valid, BftEngine.Shape, BftEngine.View, EngineInv, Gossip.MaybeVote, Repeat;
      activity := MaybeVote(h, r, kind);
      ghost var s := State();
      var more := Retransmit(if kind.Prevote? then flags.lastProposal else flags.lastPrevote);
      var again := Retransmit(LastVote(flags, kind));
      activity := activity + more + again;
      ghost var first := Repeat(if kind.Prevote? then flags.lastProposal else flags.lastPrevote);
      Regroup(old(outbox), Gossip.MaybeVote(engine.cfg, old(State()).node, Position(h, r), kind).out, first,
              Repeat(LastVote(flags, kind)));
      assert State() == s.(out := s.out + first + Repeat(LastVote(flags, kind)));
    }

    /** Act on the phase, then send the latest messages again. */
    method DrivePhase(h: nat, r: nat, phase: Phase, body: Bytes) returns (activity: nat)
      requires Valid()
      requires State().node.engine.coord.Some?
      requires var c := State().node.engine.coord.value; (c.height, c.round, PhaseOf(c.stage)) == (h, r, phase)
      modifies Repr
      ensures Valid() && fresh(Repr - old(Repr))
      ensures old(State()).node.engine.coord.value.vs.Valid()
      ensures State() == Then(old(State()), Gossip.DrivePhase(engine.cfg, old(State()).node, body))
      ensures activity == |Gossip.DrivePhase(engine.cfg, old(State()).node, body).out|
    {
      hide BftEngine.Valid, BftEngine.Shape, BftEngine.View, EngineInv, Gossip.MaybePropose, Gossip.MaybeVote, Repeat;
      ValidSet(engine.cfg, engine.View());
      assert outbox == outbox + [] && commits == commits + [];
      match phase
      case AwaitingProposal =>
        activity := MaybePropose(h, r, body);
        var more := Retransmit(flags.lastProposal);
        activity := activity + more;
      case Prevoting => activity := VoteAndRetransmit(h, r, Prevote);
      case Precommitting => activity := VoteAndRetransmit(h, r, Precommit);
      case Committed => activity := 0;
    }

    method Drive(body: Bytes) returns (activity: nat)
      requires Valid()
      modifies Repr
      ensures Valid() && fresh(Repr - old(Repr))
      ensures State() == Then(old(State()), Gossip.Drive(engine.cfg, old(State()).node, body))
      ensures activity == |Gossip.Drive(engine.cfg, old(State()).node, body).out|
    {
      hide BftEngine.Valid, BftEngine.Shape, BftEngine.View, EngineInv, Gossip.DrivePhase, Gossip.Propose, LeaderIndex;
      assert outbox == outbox + [] && commits == commits + [];
      var at := engine.CurrentRoundState();
      var leads := engine.LeadsNow();
      if at.Some? {
        activity := DrivePhase(at.value.0, at.value.1, at.value.2, body);
      } else if leads {
        activity := Propose(body);
      } else {
        activity := 0;
      }
    }

    /** Handle every payload of the inbox, then drive the round.  On a rested node this is a run of node
        steps, and it counts the messages handled and the messages sent while driving. */
    method Tick(inbox: seq<Bytes>, body: Bytes) returns (activity: nat)
      requires Valid()
      modifies Repr
      ensures Valid() && fresh(Repr - old(Repr)) && Rested(engine.cfg.prim, State().node)
      ensures Rested(engine.cfg.prim, old(State()).node) ==>
        State() == Then(old(State()), RunNode(engine.cfg, old(State()).node, Deliveries(pc, inbox) + [Advance(body)]))
      ensures activity == |Deliveries(pc, inbox)|
        + |NodeStep(engine.cfg, AfterInbox(engine.cfg, pc, old(State()).node, inbox).node, Advance(body)).out|
    {
      hide BftEngine.Valid, BftEngine.Shape, BftEngine.View, EngineInv, Gossip.Drive, NodeStep, Harvest;
      ghost var n := State().node;
      activity := 0;
      assert inbox[..|inbox|] == inbox;
      assert Then(State(), Quiet(n)) == State();
      for i := 0 to |inbox|
        invariant Valid() && fresh(Repr - old(Repr))
        invariant State() == Then(old(State()), AfterInbox(engine.cfg, pc, n, inbox[..i]))
        invariant activity == |Deliveries(pc, inbox[..i])|
      {
        var consumed := HandlePayload(inbox[i]);
        activity := activity + consumed;
        assert inbox[..i + 1][..i] == inbox[..i];
        ghost var o := AfterInbox(engine.cfg, pc, n, inbox[..i]);
        ThenAssociates(old(State()), o, AfterPayload(engine.cfg, pc, o.node, inbox[i]));
      }
      ghost var o := AfterInbox(engine.cfg, pc, n, inbox);
      var sent := DriveAndHarvest(body);
      activity := activity + sent;
      StepRests(engine.cfg, o.node, Advance(body));
      ThenAssociates(old(State()), o, NodeStep(engine.cfg, o.node, Advance(body)));
      if Rested(engine.cfg.prim, n) {
        InboxIsRun(engine.cfg, pc, n, inbox);
        assert (Deliveries(pc, inbox) + [Advance(body)])[..|Deliveries(pc, inbox)|] == Deliveries(pc, inbox);
      }
    }

    method HandlePayload(b: Bytes) returns (activity: nat)
      requires Valid()
      modifies Repr
      ensures Valid() && fresh(Repr - old(Repr))
      ensures State() == Then(old(State()), AfterPayload(engine.cfg, pc, old(State()).node, b))
      ensures activity == if MessageOf(pc, b).Some? then 1 else 0
    {
      hide BftEngine.Valid, BftEngine.Shape, BftEngine.View, EngineInv, Gossip.Dispatch, Gossip.AutoHarvest,
        Decodes, ErrorOf;
      ghost var s := State();
      ValidSet(engine.cfg, s.node.engine);
      var r := Decode(pc, b);
      if r.Ok? {
        assert MessageOf(pc, b) == Some(r.value);
        TypedWhenDecoded(pc, b, r.value);
        Dispatch(r.value);
        HarvestAfter(engine.cfg.prim, s, Gossip.Dispatch(engine.cfg, s.node, r.value));
        activity := 1;
      } else {
        assert s == Then(s, Quiet(s.node));
        HarvestAfter(engine.cfg.prim, s, Quiet(s.node));
        activity := 0;
      }
      AutoHarvest();
    }

    method DriveAndHarvest(body: Bytes) returns (activity: nat)
      requires Valid()
      modifies Repr
      ensures Valid() && fresh(Repr - old(Repr))
      ensures State() == Then(old(State()), NodeStep(engine.cfg, old(State()).node, Advance(body)))
      ensures activity == |NodeStep(engine.cfg, old(State()).node, Advance(body)).out|
    {
      hide BftEngine.Valid, BftEngine.Shape, BftEngine.View, EngineInv, Gossip.Drive;
      ghost var s := State();
      ValidSet(engine.cfg, s.node.engine);
      activity := Drive(body);
      HarvestAfter(engine.cfg.prim, s, Gossip.Drive(engine.cfg, s.node, body));
      AutoHarvest();
    }
  }
}
