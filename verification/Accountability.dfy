/** Accountability in the running engine and the running node: the evidence handed to the host is exactly what the
    votes received so far justify, so a double vote that both arrive is never lost. */
module Accountability {
  import opened Crypto
  import opened Validators
  import opened Tally
  import opened Coordinator
  import opened Slashing
  import opened Engine
  import opened Wire
  import opened Chain
  import opened Gossip

  // ---------------------------------------------------------------------------------------
  // One operation
  // ---------------------------------------------------------------------------------------

  /** Detector and evidence are left alone. */
  predicate SameRecords(s: EngineState, t: EngineState) {
    t.detector == s.detector && t.evidence == s.evidence
  }

  /** The vote, and nothing else, is recorded, and a report is parked behind the earlier ones. */
  predicate RecordsVote(s: EngineState, t: EngineState, kind: VoteKind, v: Vote) {
    var (d, e) := Record(s.detector, kind, v);
    t.detector == d && t.evidence == Parked(s.evidence, e)
  }

  function Parked(es: seq<Evidence>, e: Option<Evidence>): seq<Evidence> {
    if e.Some? then es + [e.value] else es
  }

  lemma RemoteVoteRecords(prim: Primitives, s: EngineState, kind: VoteKind, v: Vote)
    requires EngineInv(prim, s)
    ensures RecordsVote(s, RemoteVote(s, kind, v).0, kind, v)
  {
    hide Record, Drain;
    var t := Recorded(s, kind, v);
    if t.coord.Some? && AfterVote(t.coord.value, kind, v).Ok? {
      VoteContinues(t.coord.value, kind, v);
      DrainContinues(t.(coord := Some(AfterVote(t.coord.value, kind, v).value)));
    }
  }

  lemma RemoteProposalRecords(prim: Primitives, s: EngineState, p: Proposal)
    requires EngineInv(prim, s) && ActiveCoord(s).vs.Valid()
    ensures SameRecords(s, RemoteProposal(prim, s, p).0)
  {
    hide Drain;
    ActiveCoordInv(prim, s);
    AcceptedProposalInv(prim, s, p);
    var r := AfterProposal(prim, ActiveCoord(s), HashOf(prim, p.block), p.proof);
    if r.Ok? {
      DrainContinues(s.(coord := Some(r.value), proposal := Some(p)));
    }
  }

  lemma TimeoutRecords(prim: Primitives, s: EngineState)
    requires EngineInv(prim, s)
    ensures SameRecords(s, AfterTickTimeout(s))
  {
    hide Drain;
    ActiveCoordInv(prim, s);
    TimeoutKeepsInv(ActiveCoord(s));
    DrainContinues(s.(coord := Some(AfterTimeout(ActiveCoord(s))), proposal := None));
  }

  // ---------------------------------------------------------------------------------------
  // Engine runs
  // ---------------------------------------------------------------------------------------

  /** An engine and the evidence already handed to the host. */
  datatype Watched = Watched(engine: EngineState, taken: seq<Evidence>)

  ghost predicate SetsAreValid(ops: seq<Op>) {
    forall op :: op in ops && op.RotateOp? ==> op.vs.Valid()
  }

  lemma OpKeepsInv(cfg: Config, s: EngineState, op: Op)
    requires EngineInv(cfg.prim, s) && (op.RotateOp? ==> op.vs.Valid())
    ensures ActiveCoord(s).vs.Valid() && EngineInv(cfg.prim, Apply(cfg, History(s, []), op).engine)
  {
    hide EngineInv, Harvest, Adopt, Rotate;
    ValidActive(cfg.prim, s);
    match op
    case HarvestOp => HarvestKeepsInv(cfg.prim, s);
    case AdoptOp(b, cert) => AdoptKeepsInv(cfg.prim, s, b, cert);
    case RotateOp(vs, myIndex) => RotateKeepsInv(cfg.prim, s, vs, myIndex);
    case _ =>
      hide Apply;
      RoundOpKeepsChain(cfg, History(s, []), op);
  }

  lemma SetsStayValid(ops: seq<Op>)
    requires SetsAreValid(ops) && ops != []
    ensures SetsAreValid(ops[..|ops| - 1])
  {
  }

  /** Any operations whatsoever, in order. */
  ghost function Watch(cfg: Config, s: EngineState, ops: seq<Op>): (w: Watched)
    requires EngineInv(cfg.prim, s) && SetsAreValid(ops)
    ensures EngineInv(cfg.prim, w.engine)
  {
    if ops == [] then Watched(s, [])
    else
      var w := Watch(cfg, s, ops[..|ops| - 1]);
      var op := ops[|ops| - 1];
      OpKeepsInv(cfg, w.engine, op);
      var taken := if op.TakeEvidenceOp? then w.engine.evidence else [];
      Watched(Apply(cfg, History(w.engine, []), op).engine, w.taken + taken)
  }

  /** The votes delivered to the engine, in order. */
  function DeliveredVotes(ops: seq<Op>): seq<Recording> {
    if ops == [] then []
    else
      var op := ops[|ops| - 1];
      DeliveredVotes(ops[..|ops| - 1]) + if op.RemoteVoteOp? then [Recording(op.kind, op.v)] else []
  }

  lemma OpRecords(cfg: Config, s: EngineState, op: Op)
    requires EngineInv(cfg.prim, s) && ActiveCoord(s).vs.Valid()
    ensures var t := Apply(cfg, History(s, []), op).engine;
      match op
      case RemoteVoteOp(kind, v) => RecordsVote(s, t, kind, v)
      case TakeEvidenceOp => t.detector == s.detector && t.evidence == []
      case _ => SameRecords(s, t)
  {
    hide EngineInv, RemoteVote, RemoteProposal, AfterTickTimeout, Record, LeaderIndex, AfterProposal, AfterVote;
    match op
    case RemoteProposalOp(p) => RemoteProposalRecords(cfg.prim, s, p);
    case RemoteVoteOp(kind, v) => RemoteVoteRecords(cfg.prim, s, kind, v);
    case TimeoutOp => TimeoutRecords(cfg.prim, s);
    case _ =>
  }

  /** One more recording. */
  lemma RecordAllSnoc(rs: seq<Recording>, r: Recording)
    ensures var (d, es) := RecordAll(EMPTY_DETECTOR, rs);
      var (d', e) := Record(d, r.kind, r.vote);
      RecordAll(EMPTY_DETECTOR, rs + [r]) == (d', Parked(es, e))
  {
    assert (rs + [r])[..|rs|] == rs;
  }

  lemma {:induction false} WatchIsRecordAll(cfg: Config, s: EngineState, ops: seq<Op>)
    requires EngineInv(cfg.prim, s) && SetsAreValid(ops)
    requires s.detector == EMPTY_DETECTOR && s.evidence == []
    ensures var w := Watch(cfg, s, ops);
      (w.engine.detector, w.taken + w.engine.evidence) == RecordAll(EMPTY_DETECTOR, DeliveredVotes(ops))
  {
    hide EngineInv, Record, Apply;
    if ops == [] {
      assert Watch(cfg, s, ops).taken + s.evidence == [];
    } else {
      hide RecordAll, SetsAreValid;
      var front, op := ops[..|ops| - 1], ops[|ops| - 1];
      SetsStayValid(ops);
      WatchIsRecordAll(cfg, s, front);
      var w := Watch(cfg, s, front);
      OpKeepsInv(cfg, w.engine, op);
      OpRecords(cfg, w.engine, op);
      if op.RemoteVoteOp? {
        RecordAllSnoc(DeliveredVotes(front), Recording(op.kind, op.v));
        var e := Record(w.engine.detector, op.kind, op.v).1;
        assert w.taken + [] + Parked(w.engine.evidence, e) == Parked(w.taken + w.engine.evidence, e);
      } else {
        assert DeliveredVotes(front) + [] == DeliveredVotes(front);
        assert w.taken + w.engine.evidence + [] == w.taken + w.engine.evidence == w.taken + [] + w.engine.evidence;
      }
    }
  }

  /** Over any operations from a new engine, the evidence parked or already handed over is exactly the pairs of a
      slot's first delivered vote and a later one for another block. */
  lemma EngineEvidenceIsExact(cfg: Config, vs: ValidatorSet, index: nat, seed: Bytes, genesis: Block, ops: seq<Op>,
                              e: Evidence)
    requires vs.Valid() && SetsAreValid(ops)
    ensures var w := Watch(cfg, NewEngine(cfg.prim, vs, index, seed, genesis), ops);
      e in w.taken + w.engine.evidence <==> exists i: nat, j: nat :: Reports(DeliveredVotes(ops), i, j, e)
  {
    hide Watch;
    WatchIsRecordAll(cfg, NewEngine(cfg.prim, vs, index, seed, genesis), ops);
    ReportsAreBreaks(DeliveredVotes(ops), e);
  }

  /** Two genuine conflicting votes that are both delivered, with a genuine first delivery for their slot, leave the
      host verifying evidence against their validator. */
  lemma EngineConvicts(cfg: Config, vs: ValidatorSet, index: nat, seed: Bytes, genesis: Block, ops: seq<Op>,
                       i: nat, j: nat, kind: VoteKind, slot: Slot)
    requires vs.Valid() && SetsAreValid(ops)
    requires var rs := DeliveredVotes(ops);
      && i < |rs| && Fills(rs[i], kind, slot) && Genuine(vs, rs[i])
      && j < |rs| && Fills(rs[j], kind, slot) && Genuine(vs, rs[j])
      && rs[i].vote.block != rs[j].vote.block
      && forall k: nat :: FirstFor(rs, k, kind, slot) ==> Genuine(vs, rs[k])
    ensures var w := Watch(cfg, NewEngine(cfg.prim, vs, index, seed, genesis), ops);
      exists e :: e in w.taken + w.engine.evidence && e.kind == kind && SlotOf(e.first) == slot && Slashable(vs, e)
  {
    hide Watch, Slashable, Genuine;
    WatchIsRecordAll(cfg, NewEngine(cfg.prim, vs, index, seed, genesis), ops);
    TwoGenuineVotesConvict(vs, DeliveredVotes(ops), i, j, kind, slot);
  }

  // ---------------------------------------------------------------------------------------
  // Node runs
  // ---------------------------------------------------------------------------------------

  /** The vote an event brings to the engine: one that is not from beyond the next height. */
  function VoteBrought(n: Node, e: NodeEvent): seq<Recording> {
    if e.Receive? && e.m.VoteMsg? && e.m.vote.height <= n.engine.headNumber + 1
    then [Recording(e.m.kind, e.m.vote)] else []
  }

  /** The votes a node's engine has seen in a run, in order. */
  ghost function VotesSeen(cfg: Config, n: Node, es: seq<NodeEvent>): seq<Recording>
    requires EngineInv(cfg.prim, n.engine)
  {
    if es == [] then []
    else
      var front := es[..|es| - 1];
      VotesSeen(cfg, n, front) + VoteBrought(RunNode(cfg, n, front).node, es[|es| - 1])
  }

  lemma ProposalMessageRecords(cfg: Config, n: Node, m: Message)
    requires EngineInv(cfg.prim, n.engine) && m.ProposalMsg?
    ensures n.engine.vs.Valid() && ActiveCoord(n.engine).vs.Valid()
    ensures SameRecords(n.engine, HandleProposal(cfg, n, m).node.engine)
  {
    hide EngineInv, CoordInv, RemoteProposal, ShouldFastForward;
    ValidSet(cfg, n.engine);
    FastForwardKeepsInv(cfg.prim, n.engine, m.round);
    var s := if ShouldFastForward(n.engine, m.height, m.round) then FastForward(n.engine, m.round).0 else n.engine;
    ValidSet(cfg, s);
    if cfg.prim.decodeBody(m.body).Some? {
      RemoteProposalRecords(cfg.prim, s,
        Proposal(BuildBlock(cfg, s, m.height, m.proof, m.coinbase, cfg.prim.decodeBody(m.body).value), m.proof));
    }
  }

  lemma DispatchRecords(cfg: Config, n: Node, m: Message)
    requires EngineInv(cfg.prim, n.engine)
    ensures n.engine.vs.Valid() && ActiveCoord(n.engine).vs.Valid()
    ensures var t := Dispatch(cfg, n, m).node.engine;
      if VoteBrought(n, Receive(m)) == [] then SameRecords(n.engine, t) else RecordsVote(n.engine, t, m.kind, m.vote)
  {
    hide EngineInv, RemoteVote, HandleProposal, RecordsVote;
    ValidSet(cfg, n.engine);
    match m
    case ProposalMsg(_, _, _, _, _, _) => ProposalMessageRecords(cfg, n, m);
    case VoteMsg(kind, v) => RemoteVoteRecords(cfg.prim, n.engine, kind, v);
    case BlockRequest(_) =>
    case BlockResponse(_, _) =>
  }

  lemma DriveRecords(cfg: Config, n: Node, body: Bytes)
    requires n.engine.vs.Valid() && ActiveCoord(n.engine).vs.Valid()
    ensures SameRecords(n.engine, Drive(cfg, n, body).node.engine)
  {
    hide AfterProposal, AfterVote, LeaderIndex;
  }

  lemma NodeStepRecords(cfg: Config, n: Node, e: NodeEvent)
    requires EngineInv(cfg.prim, n.engine)
    ensures n.engine.vs.Valid() && ActiveCoord(n.engine).vs.Valid()
    ensures var t := NodeStep(cfg, n, e).node.engine;
      if VoteBrought(n, e) == [] then SameRecords(n.engine, t) else RecordsVote(n.engine, t, e.m.kind, e.m.vote)
  {
    hide EngineInv, Dispatch, Drive, AfterTickTimeout, VoteBrought, Record;
    ValidSet(cfg, n.engine);
    match e
    case Receive(m) => DispatchRecords(cfg, n, m);
    case Advance(body) =>
      DriveRecords(cfg, n, body);
      OnlyVotesAreBrought(n, e);
    case ClockFired =>
      TimeoutRecords(cfg.prim, n.engine);
      OnlyVotesAreBrought(n, e);
  }

  lemma OnlyVotesAreBrought(n: Node, e: NodeEvent)
    ensures !e.Receive? ==> VoteBrought(n, e) == []
  {
  }

  /** Over any run of a fresh node, whatever is delivered, its evidence is exactly the pairs of a slot's first vote seen
      and a later one for another block. */
  lemma NodeEvidenceIsExact(cfg: Config, vs: ValidatorSet, index: nat, seed: Bytes, genesis: Block, es: seq<NodeEvent>,
                            e: Evidence)
    requires vs.Valid()
    ensures var n := FreshNode(cfg, vs, index, seed, genesis);
      e in RunNode(cfg, n, es).node.engine.evidence <==>
        exists i: nat, j: nat :: Reports(VotesSeen(cfg, n, es), i, j, e)
  {
    hide RunNode, VotesSeen;
    var n := FreshNode(cfg, vs, index, seed, genesis);
    NodeRunIsRecordAll(cfg, n, es);
    ReportsAreBreaks(VotesSeen(cfg, n, es), e);
  }

  lemma {:induction false} NodeRunIsRecordAll(cfg: Config, n: Node, es: seq<NodeEvent>)
    requires EngineInv(cfg.prim, n.engine) && n.engine.detector == EMPTY_DETECTOR && n.engine.evidence == []
    ensures var s := RunNode(cfg, n, es).node.engine;
      (s.detector, s.evidence) == RecordAll(EMPTY_DETECTOR, VotesSeen(cfg, n, es))
  {
    hide EngineInv, NodeStep, Record;
    if es != [] {
      var front, e := es[..|es| - 1], es[|es| - 1];
      NodeRunIsRecordAll(cfg, n, front);
      var m := RunNode(cfg, n, front).node;
      NodeStepRecords(cfg, m, e);
      if VoteBrought(m, e) != [] {
        RecordAllSnoc(VotesSeen(cfg, n, front), Recording(e.m.kind, e.m.vote));
      } else {
        assert VotesSeen(cfg, n, front) + [] == VotesSeen(cfg, n, front);
      }
    }
  }
}
