/** The gossip driver: what one node does with an inbound message, on a tick and on a timeout, and
    what it puts on the wire. */
module Gossip {
  import opened Crypto
  import opened Validators
  import opened Coordinator
  import opened Engine
  import opened Wire

  /** A (height, round) pair. */
  datatype Position = Position(height: nat, round: nat)

  /** Per-round bookkeeping: where this node last proposed and voted, the messages it re-broadcasts,
      and the blocks it has asked for. */
  datatype RoundFlags = RoundFlags(
    proposed: Option<Position>,
    prevoted: Option<Position>,
    precommitted: Option<Position>,
    lastProposal: Option<Message>,
    lastPrevote: Option<Message>,
    lastPrecommit: Option<Message>,
    requested: set<nat>)

  const NO_FLAGS := RoundFlags(None, None, None, None, None, None, {})

  datatype Node = Node(engine: EngineState, flags: RoundFlags, harvested: seq<Block>)

  /** A node after an action, the messages it broadcast and the blocks it committed. */
  datatype Outcome = Outcome(node: Node, out: seq<Message>, commits: seq<CommittedBlock>)

  function Quiet(n: Node): Outcome {
    Outcome(n, [], [])
  }

  function VotedAt(f: RoundFlags, kind: VoteKind): Option<Position> {
    match kind
    case Prevote => f.prevoted
    case Precommit => f.precommitted
  }

  function LastVote(f: RoundFlags, kind: VoteKind): Option<Message> {
    match kind
    case Prevote => f.lastPrevote
    case Precommit => f.lastPrecommit
  }

  function NoteVote(f: RoundFlags, kind: VoteKind, p: Position, m: Message): RoundFlags {
    match kind
    case Prevote => f.(prevoted := Some(p), lastPrevote := Some(m))
    case Precommit => f.(precommitted := Some(p), lastPrecommit := Some(m))
  }

  function Repeat(m: Option<Message>): seq<Message> {
    if m.Some? then [m.value] else []
  }

  /** The proposals among broadcast messages. */
  function ProposalsIn(out: seq<Message>): set<Message> {
    set m | m in out && m.ProposalMsg?
  }

  // ---------------------------------------------------------------------------------------
  // Inbound messages
  // ---------------------------------------------------------------------------------------

  /** Harvest whatever the engine has committed. */
  function AutoHarvest(prim: Primitives, o: Outcome): Outcome {
    var (s, c) := Harvest(prim, o.node.engine);
    if c.None? then o
    else Outcome(o.node.(engine := s, harvested := o.node.harvested + [c.value.block]), o.out, o.commits + [c.value])
  }

  /** A message from beyond the next height is not processed; the missing block is requested once. */
  function RequestCatchup(n: Node): Outcome {
    var next := n.engine.headNumber + 1;
    if next in n.flags.requested then Quiet(n)
    else Outcome(n.(flags := n.flags.(requested := n.flags.requested + {next})), [BlockRequest(next)], [])
  }

  /** Whether a proposal for `(height, round)` makes the engine jump to that round. */
  predicate ShouldFastForward(s: EngineState, height: nat, round: nat) {
    && height == s.headNumber + 1 && round > 0
    && (s.coord.None? || (s.coord.value.height == height && round > s.coord.value.round))
  }

  function HandleProposal(cfg: Config, n: Node, m: Message): Outcome
    requires m.ProposalMsg? && n.engine.vs.Valid() && ActiveCoord(n.engine).vs.Valid()
  {
    var s := if ShouldFastForward(n.engine, m.height, m.round) then FastForward(n.engine, m.round).0 else n.engine;
    match cfg.prim.decodeBody(m.body)
    case None => Quiet(n.(engine := s))
    case Some(body) =>
      var block := BuildBlock(cfg, s, m.height, m.proof, m.coinbase, body);
      if HashOf(cfg.prim, block) != m.block then Quiet(n.(engine := s))
      else Quiet(n.(engine := RemoteProposal(cfg.prim, s, Proposal(block, m.proof)).0))
  }

  function HandleBlockResponse(cfg: Config, n: Node, m: Message): Outcome
    requires m.BlockResponse?
  {
    match cfg.prim.decodeBlock(m.blockBytes)
    case None => Quiet(n)
    case Some(b) =>
      var (s, r) := Adopt(cfg.prim, n.engine, b, m.cert);
      if r.Err? then Quiet(n)
      else Outcome(Node(s, n.flags.(requested := n.flags.requested - {b.header.number}), n.harvested + [b]), [],
                   [CommittedBlock(b, m.cert)])
  }

  function Dispatch(cfg: Config, n: Node, m: Message): Outcome
    requires n.engine.vs.Valid() && ActiveCoord(n.engine).vs.Valid()
  {
    match m
    case ProposalMsg(height, _, _, _, _, _) =>
      if height > n.engine.headNumber + 1 then RequestCatchup(n) else HandleProposal(cfg, n, m)
    case VoteMsg(kind, v) =>
      if v.height > n.engine.headNumber + 1 then RequestCatchup(n)
      else Quiet(n.(engine := RemoteVote(n.engine, kind, v).0))
    case BlockRequest(height) =>
      if height in n.engine.recent
      then
        var c := n.engine.recent[height];
        Outcome(n, [BlockResponse(cfg.prim.encodeBlock(c.block), c.cert)], [])
      else Quiet(n)
    case BlockResponse(_, _) => HandleBlockResponse(cfg, n, m)
  }

  // ---------------------------------------------------------------------------------------
  // Driving the round
  // ---------------------------------------------------------------------------------------

  function ProposalMessage(cfg: Config, p: Proposal, at: Position): Message {
    ProposalMsg(at.height, at.round, HashOf(cfg.prim, p.block), p.proof, cfg.coinbase,
                cfg.prim.encodeBody(p.block.body))
  }

  /** Propose at the engine's position, if it accepts. */
  function Propose(cfg: Config, n: Node, body: Bytes): Outcome
    requires ActiveCoord(n.engine).vs.Valid()
  {
    var (s, r) := AfterCastProposal(cfg, n.engine, body);
    if r.Err? then Quiet(n.(engine := s))
    else
      var at := Position(s.coord.value.height, s.coord.value.round);
      var m := ProposalMessage(cfg, r.value, at);
      Outcome(n.(engine := s, flags := n.flags.(proposed := Some(at), lastProposal := Some(m))), [m], [])
  }

  function MaybePropose(cfg: Config, n: Node, at: Position, body: Bytes): Outcome
    requires n.engine.coord.Some? && n.engine.coord.value.vs.Valid()
  {
    var c := n.engine.coord.value;
    if n.flags.proposed == Some(at) then Quiet(n)
    else if LeaderIndex(cfg.prim, c.vs, c.height, c.round, c.seed) != n.engine.myIndex then Quiet(n)
    else Propose(cfg, n, body)
  }

  /** Vote once per (height, round). */
  function MaybeVote(cfg: Config, n: Node, at: Position, kind: VoteKind): Outcome {
    if VotedAt(n.flags, kind) == Some(at) then Quiet(n)
    else
      var (s, r) := AfterCastVote(cfg, n.engine, kind);
      if r.Err? then Quiet(n.(engine := s))
      else
        var m := VoteMsg(kind, r.value);
        Outcome(n.(engine := s, flags := NoteVote(n.flags, kind, at, m)), [m], [])
  }

  /** Act on the phase, then re-broadcast the latest messages. */
  function DrivePhase(cfg: Config, n: Node, body: Bytes): Outcome
    requires n.engine.coord.Some? && n.engine.coord.value.vs.Valid()
  {
    var c := n.engine.coord.value;
    var at := Position(c.height, c.round);
    match PhaseOf(c.stage)
    case AwaitingProposal =>
      var o := MaybePropose(cfg, n, at, body);
      o.(out := o.out + Repeat(o.node.flags.lastProposal))
    case Prevoting =>
      var o := MaybeVote(cfg, n, at, Prevote);
      o.(out := o.out + Repeat(o.node.flags.lastProposal) + Repeat(o.node.flags.lastPrevote))
    case Precommitting =>
      var o := MaybeVote(cfg, n, at, Precommit);
      o.(out := o.out + Repeat(o.node.flags.lastPrevote) + Repeat(o.node.flags.lastPrecommit))
    case Committed => Quiet(n)
  }

  function Drive(cfg: Config, n: Node, body: Bytes): Outcome
    requires n.engine.vs.Valid() && ActiveCoord(n.engine).vs.Valid()
  {
    var s := n.engine;
    if s.coord.Some? then DrivePhase(cfg, n, body)
    else if LeaderIndex(cfg.prim, s.vs, s.headNumber + 1, 0, s.seed) == s.myIndex then Propose(cfg, n, body)
    else Quiet(n)
  }

  // ---------------------------------------------------------------------------------------
  // Node steps
  // ---------------------------------------------------------------------------------------

  /** A node that has just started at a genesis block. */
  function FreshNode(cfg: Config, vs: ValidatorSet, index: nat, seed: Bytes, genesis: Block): Node {
    Node(NewEngine(cfg.prim, vs, index, seed, genesis), NO_FLAGS, [])
  }

  /** What can happen to a node: a message arrives, the second half of a tick, or its clock fires. */
  datatype NodeEvent =
    | Receive(m: Message)
    | Advance(body: Bytes)
    | ClockFired

  /** What an event does to a node before committed blocks are swept up. */
  function BeforeHarvest(cfg: Config, n: Node, e: NodeEvent): Outcome
    requires n.engine.vs.Valid() && ActiveCoord(n.engine).vs.Valid()
  {
    match e
    case Receive(m) => Dispatch(cfg, n, m)
    case Advance(body) => Drive(cfg, n, body)
    case ClockFired => Quiet(n.(engine := AfterTickTimeout(n.engine)))
  }

  function NodeStep(cfg: Config, n: Node, e: NodeEvent): Outcome
    requires n.engine.vs.Valid() && ActiveCoord(n.engine).vs.Valid()
  {
    match e
    case Receive(m) => AutoHarvest(cfg.prim, Dispatch(cfg, n, m))
    case Advance(body) => AutoHarvest(cfg.prim, Drive(cfg, n, body))
    case ClockFired => Quiet(n.(engine := AfterTickTimeout(n.engine)))
  }

  lemma ValidSet(cfg: Config, s: EngineState)
    requires EngineInv(cfg.prim, s)
    ensures s.vs.Valid() && ActiveCoord(s).vs == s.vs
  {
  }

  lemma DispatchKeepsEngineInv(cfg: Config, n: Node, m: Message)
    requires EngineInv(cfg.prim, n.engine)
    ensures n.engine.vs.Valid() && ActiveCoord(n.engine).vs.Valid()
    ensures EngineInv(cfg.prim, Dispatch(cfg, n, m).node.engine)
  {
    hide EngineInv, RemoteProposal, RemoteVote, Adopt, FastForward, CoordInv;
    ValidSet(cfg, n.engine);
    ActiveCoordInv(cfg.prim, n.engine);
    match m
    case ProposalMsg(height, round, _, proof, coinbase, bytes) =>
      FastForwardKeepsInv(cfg.prim, n.engine, round);
      var s := if ShouldFastForward(n.engine, height, round) then FastForward(n.engine, round).0 else n.engine;
      ActiveCoordInv(cfg.prim, s);
      if cfg.prim.decodeBody(bytes).Some? {
        RemoteProposalKeepsInv(cfg.prim, s,
          Proposal(BuildBlock(cfg, s, height, proof, coinbase, cfg.prim.decodeBody(bytes).value), proof));
      }
    case VoteMsg(kind, v) => RemoteVoteKeepsInv(cfg.prim, n.engine, kind, v);
    case BlockRequest(_) =>
    case BlockResponse(bytes, cert) =>
      if cfg.prim.decodeBlock(bytes).Some? {
        AdoptKeepsInv(cfg.prim, n.engine, cfg.prim.decodeBlock(bytes).value, cert);
      }
  }

  lemma DriveKeepsEngineInv(cfg: Config, n: Node, body: Bytes)
    requires EngineInv(cfg.prim, n.engine)
    ensures n.engine.vs.Valid() && ActiveCoord(n.engine).vs.Valid()
    ensures EngineInv(cfg.prim, Drive(cfg, n, body).node.engine)
  {
    hide EngineInv, AfterCastProposal, AfterCastVote, LeaderIndex;
    ValidSet(cfg, n.engine);
    CastProposalKeepsInv(cfg, n.engine, body);
    CastVoteKeepsInv(cfg, n.engine, Prevote);
    CastVoteKeepsInv(cfg, n.engine, Precommit);
  }

  /** Every event keeps the engine invariant. */
  lemma NodeStepKeepsEngineInv(cfg: Config, n: Node, e: NodeEvent)
    requires EngineInv(cfg.prim, n.engine)
    ensures n.engine.vs.Valid() && ActiveCoord(n.engine).vs.Valid()
    ensures EngineInv(cfg.prim, NodeStep(cfg, n, e).node.engine)
  {
    ActiveCoordInv(cfg.prim, n.engine);
    match e
    case Receive(m) =>
      DispatchKeepsEngineInv(cfg, n, m);
      HarvestKeepsInv(cfg.prim, Dispatch(cfg, n, m).node.engine);
    case Advance(body) =>
      DriveKeepsEngineInv(cfg, n, body);
      HarvestKeepsInv(cfg.prim, Drive(cfg, n, body).node.engine);
    case ClockFired =>
      TickTimeoutKeepsInv(cfg.prim, n.engine);
  }

  /** One action after another. */
  function Then(o: Outcome, p: Outcome): Outcome {
    Outcome(p.node, o.out + p.out, o.commits + p.commits)
  }

  /** A run of events: the final node, and everything broadcast and committed on the way. */
  ghost function RunNode(cfg: Config, n: Node, es: seq<NodeEvent>): (o: Outcome)
    requires EngineInv(cfg.prim, n.engine)
    ensures EngineInv(cfg.prim, o.node.engine)
  {
    if es == [] then Quiet(n)
    else
      var o := RunNode(cfg, n, es[..|es| - 1]);
      NodeStepKeepsEngineInv(cfg, o.node, es[|es| - 1]);
      Then(o, NodeStep(cfg, o.node, es[|es| - 1]))
  }

  /** The node takes a proposal for a height it has already committed: the block it rebuilds has the
      announced hash, and its coordinator accepts the leader proof. */
  predicate TakesStale(cfg: Config, n: Node, m: Message)
    requires ActiveCoord(n.engine).vs.Valid()
  {
    && m.ProposalMsg? && m.height <= n.engine.headNumber
    && var body := cfg.prim.decodeBody(m.body);
       && body.Some?
       && HashOf(cfg.prim, BuildBlock(cfg, n.engine, m.height, m.proof, m.coinbase, body.value)) == m.block
       && AfterProposal(cfg.prim, ActiveCoord(n.engine), m.block, m.proof).Ok?
  }
}
