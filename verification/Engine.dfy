/** The chain engine: head and seed, the active coordinator, buffers for early votes, harvest of
    committed blocks, adoption of certified blocks, the recent-block cache and set rotation.

    Every operation of the multi-validator path is a function on the engine state.  The object in
    `EngineObject` carries the same state in mutable fields and is proved to follow them.
  */
module Engine {
  import opened Crypto
  import opened Validators
  import opened Tally
  import opened Coordinator
  import opened Slashing

  const RECENT_BLOCKS_CAP: nat := 64

  datatype Proposal = Proposal(block: Block, proof: LeaderProof)

  datatype CommittedBlock = CommittedBlock(block: Block, cert: PrecommitCertificate)

  datatype EngineState = EngineState(
    vs: ValidatorSet,
    myIndex: nat,
    headHash: Bytes,
    headNumber: nat,
    headTimestamp: nat,
    seed: Bytes,
    coord: Option<Coord>,
    proposal: Option<Proposal>,
    detector: Detector,
    evidence: seq<Evidence>,
    pendingPrevotes: seq<Vote>,
    pendingPrecommits: seq<Vote>,
    recent: map<nat, CommittedBlock>)

  /** A node's own keys and block parameters.  `prove` is the node's VRF prover. */
  datatype Config = Config(
    prim: Primitives,
    blsKey: BlsKey,
    prove: (nat, nat, Bytes) -> LeaderProof,
    coinbase: Bytes,
    slotSeconds: nat)

  function NewEngine(prim: Primitives, vs: ValidatorSet, myIndex: nat, seed: Bytes, genesis: Block): EngineState {
    EngineState(vs, myIndex, HashOf(prim, genesis), genesis.header.number, genesis.header.timestamp, seed,
                None, None, EMPTY_DETECTOR, [], [], [], map[])
  }

  // ---------------------------------------------------------------------------------------
  // Buffered votes
  // ---------------------------------------------------------------------------------------

  /** Rejections after which a vote is kept for later. */
  predicate Retriable(e: BftError) {
    e.WrongPhase? || e == WrongRound || e == WrongHeight
  }

  datatype Fed = Fed(coord: Coord, leftover: seq<Vote>, applied: bool)

  /** Submit buffered votes in order, keeping those rejected for phase, round or height. */
  function Feed(c: Coord, kind: VoteKind, votes: seq<Vote>): (f: Fed)
    ensures |f.leftover| + (if f.applied then 1 else 0) <= |votes|
  {
    if votes == [] then Fed(c, [], false)
    else
      var f := Feed(c, kind, votes[..|votes| - 1]);
      var v := votes[|votes| - 1];
      match AfterVote(f.coord, kind, v)
      case Ok(d) => Fed(d, f.leftover, true)
      case Err(e) => if Retriable(e) then f.(leftover := f.leftover + [v]) else f
  }

  function NotStale(votes: seq<Vote>, head: nat): (r: seq<Vote>)
    ensures |r| <= |votes|
    ensures forall v :: v in r <==> v in votes && v.height > head
  {
    if votes == [] then []
    else
      var rest := NotStale(votes[..|votes| - 1], head);
      assert votes == votes[..|votes| - 1] + [votes[|votes| - 1]];
      if votes[|votes| - 1].height > head then rest + [votes[|votes| - 1]] else rest
  }

  function DropStale(s: EngineState): EngineState {
    s.(pendingPrevotes := NotStale(s.pendingPrevotes, s.headNumber),
       pendingPrecommits := NotStale(s.pendingPrecommits, s.headNumber))
  }

  /** One pass over both buffers, and whether any vote was counted. */
  function DrainPass(s: EngineState): (r: (EngineState, bool))
    requires s.coord.Some?
    ensures |r.0.pendingPrevotes| + |r.0.pendingPrecommits| + (if r.1 then 1 else 0)
         <= |s.pendingPrevotes| + |s.pendingPrecommits|
  {
    var f := Feed(s.coord.value, Prevote, s.pendingPrevotes);
    var g := Feed(f.coord, Precommit, s.pendingPrecommits);
    (s.(coord := Some(g.coord), pendingPrevotes := f.leftover, pendingPrecommits := g.leftover), f.applied || g.applied)
  }

  /** Passes are repeated until one counts nothing. */
  function Drain(s: EngineState): EngineState
    decreases |s.pendingPrevotes| + |s.pendingPrecommits|
  {
    var t := DropStale(s);
    if t.coord.None? then t
    else
      var (u, applied) := DrainPass(t);
      if applied then Drain(u) else u
  }

  // ---------------------------------------------------------------------------------------
  // Events
  // ---------------------------------------------------------------------------------------

  /** The coordinator that handles the next event: the active one, or a fresh one for `head + 1`. */
  function ActiveCoord(s: EngineState): Coord {
    if s.coord.Some? then s.coord.value else NewCoord(s.headNumber + 1, s.seed, s.vs)
  }

  function RemoteProposal(prim: Primitives, s: EngineState, p: Proposal): (EngineState, Result<(), BftError>)
    requires ActiveCoord(s).vs.Valid()
  {
    match AfterProposal(prim, ActiveCoord(s), HashOf(prim, p.block), p.proof)
    case Err(e) => (s.(coord := Some(ActiveCoord(s))), Err(e))
    case Ok(c) => (Drain(s.(coord := Some(c), proposal := Some(p))), Ok(()))
  }

  function Recorded(s: EngineState, kind: VoteKind, v: Vote): EngineState {
    var (d, e) := Record(s.detector, kind, v);
    s.(detector := d, evidence := if e.Some? then s.evidence + [e.value] else s.evidence)
  }

  function TakeEvidence(s: EngineState): (EngineState, seq<Evidence>) {
    (s.(evidence := []), s.evidence)
  }

  function Buffered(s: EngineState, kind: VoteKind, v: Vote): EngineState {
    match kind
    case Prevote => s.(pendingPrevotes := s.pendingPrevotes + [v])
    case Precommit => s.(pendingPrecommits := s.pendingPrecommits + [v])
  }

  function RemoteVote(s: EngineState, kind: VoteKind, v: Vote): (EngineState, Result<(), BftError>) {
    var t := Recorded(s, kind, v);
    if v.height <= t.headNumber then (t, Ok(()))
    else if t.coord.None? then (Buffered(t, kind, v), Ok(()))
    else
      match AfterVote(t.coord.value, kind, v)
      case Ok(c) => (Drain(t.(coord := Some(c))), Ok(()))
      case Err(e) => if Retriable(e) then (Buffered(t, kind, v), Ok(())) else (t, Err(e))
  }

  /** The block a leader builds on the current head; followers rebuild it from the wire fields. */
  function BuildBlock(cfg: Config, s: EngineState, height: nat, proof: LeaderProof, coinbase: Bytes,
                      body: Bytes): Block
  {
    Block(Header(s.headHash, height, s.headTimestamp + cfg.slotSeconds, proof.vrfOutput, coinbase,
                 cfg.prim.transactionsRoot(body)), body)
  }

  function AfterCastProposal(cfg: Config, s: EngineState, body: Bytes): (EngineState, Result<Proposal, BftError>)
    requires ActiveCoord(s).vs.Valid()
  {
    var c := ActiveCoord(s);
    var t := s.(coord := Some(c));
    var leader := LeaderIndex(cfg.prim, c.vs, c.height, c.round, c.seed);
    if leader != s.myIndex then (t, Err(NotLeader(c.round, leader)))
    else
      var proof := cfg.prove(c.height, c.round, s.seed);
      var block := BuildBlock(cfg, s, c.height, proof, cfg.coinbase, body);
      match AfterProposal(cfg.prim, c, HashOf(cfg.prim, block), proof)
      case Err(e) => (t, Err(e))
      case Ok(d) => (s.(coord := Some(d), proposal := Some(Proposal(block, proof))), Ok(Proposal(block, proof)))
  }

  /** Sign and count this node's own vote; the buffers are not drained here. */
  function AfterCastVote(cfg: Config, s: EngineState, kind: VoteKind): (EngineState, Result<Vote, BftError>) {
    if s.coord.None? then (s, Err(NoActiveCoordinator))
    else
      var c := s.coord.value;
      if kind.Prevote? && c.stage.NoProposal? then (s, Err(WrongPhase(Phase.Prevoting, PhaseOf(c.stage))))
      else if kind.Precommit? && !c.stage.CollectingPrecommits?
      then (s, Err(WrongPhase(Phase.Precommitting, PhaseOf(c.stage))))
      else
        var v := SignVote(cfg.blsKey, VotedOn(c, kind), s.myIndex);
        match AfterVote(c, kind, v)
        case Err(e) => (s, Err(e))
        case Ok(d) => (s.(coord := Some(d)), Ok(v))
  }

  function AfterTickTimeout(s: EngineState): EngineState {
    Drain(s.(coord := Some(AfterTimeout(ActiveCoord(s))), proposal := None))
  }

  function FastForward(s: EngineState, target: nat): (EngineState, Result<(), BftError>) {
    if s.coord.Some? && s.coord.value.height != s.headNumber + 1 then (s, Err(WrongHeight))
    else (s.(coord := Some(NewCoord(s.headNumber + 1, s.seed, s.vs).(round := target))), Ok(()))
  }

  // ---------------------------------------------------------------------------------------
  // The recent-block cache and head changes
  // ---------------------------------------------------------------------------------------

  /** How many cached heights lie above `h`. */
  function HeightsAbove<T>(m: map<nat, T>, h: nat): set<nat> {
    set k | k in m && k > h
  }

  /** The `RECENT_BLOCKS_CAP` highest entries. */
  function KeepHighest<T>(m: map<nat, T>): map<nat, T> {
    map k | k in m && |HeightsAbove(m, k)| < RECENT_BLOCKS_CAP :: m[k]
  }

  function Cached(m: map<nat, CommittedBlock>, b: Block, cert: PrecommitCertificate): map<nat, CommittedBlock> {
    KeepHighest(m[b.header.number := CommittedBlock(b, cert)])
  }

  /** Make `b` the head, with the given next seed, and forget the finished height. */
  function WithHead(prim: Primitives, s: EngineState, b: Block, cert: PrecommitCertificate, seed: Bytes): EngineState {
    s.(headHash := HashOf(prim, b), headNumber := b.header.number, headTimestamp := b.header.timestamp,
       seed := seed, coord := None, proposal := None, recent := Cached(s.recent, b, cert))
  }

  function Harvest(prim: Primitives, s: EngineState): (EngineState, Option<CommittedBlock>) {
    if s.coord.Some? && s.coord.value.stage.Done? && s.proposal.Some? then
      var p := s.proposal.value;
      var cert := s.coord.value.stage.cert;
      (WithHead(prim, s, p.block, cert, p.proof.vrfOutput), Some(CommittedBlock(p.block, cert)))
    else (s, None)
  }

  function AdoptError(prim: Primitives, s: EngineState, b: Block, cert: PrecommitCertificate): Option<BftError> {
    if b.header.number != s.headNumber + 1 || cert.height != b.header.number then Some(WrongHeight)
    else if b.header.parentHash != s.headHash || cert.block != HashOf(prim, b) then Some(ProposalHashMismatch)
    else if !CertOk(s.vs, cert) then Some(CertErrorOf(s.vs, cert))
    else None
  }

  function Adopt(prim: Primitives, s: EngineState, b: Block, cert: PrecommitCertificate)
    : (EngineState, Result<Block, BftError>)
  {
    match AdoptError(prim, s, b, cert)
    case Some(e) => (s, Err(e))
    case None =>
      (WithHead(prim, s, b, cert, b.header.mixHash).(pendingPrevotes := [], pendingPrecommits := []), Ok(b))
  }

  function Rotate(s: EngineState, vs: ValidatorSet, myIndex: nat): (EngineState, Result<(), BftError>) {
    if myIndex >= vs.Size() then (s, Err(ValidatorIndexOutOfBounds(myIndex, vs.Size())))
    else if s.coord.Some? || s.proposal.Some? then (s, Err(ActiveRoundInProgress))
    else (s.(vs := vs, myIndex := myIndex, pendingPrevotes := [], pendingPrecommits := []), Ok(()))
  }

  // ---------------------------------------------------------------------------------------
  // The engine invariant
  // ---------------------------------------------------------------------------------------

  /** An active coordinator works on `head + 1` with the engine's seed and validator set, and a
      stored proposal is the one it accepted (a fast-forward may leave an older one behind). */
  ghost predicate EngineInv(prim: Primitives, s: EngineState) {
    && s.vs.Valid()
    && (s.coord.Some? ==>
      var c := s.coord.value;
      CoordInv(c) && c.height == s.headNumber + 1 && c.vs == s.vs && c.seed == s.seed)
    && (s.proposal.Some? ==>
      && s.coord.Some?
      && var stage := s.coord.value.stage;
         !stage.NoProposal? ==> stage.block == HashOf(prim, s.proposal.value.block))
  }

  lemma ActiveCoordInv(prim: Primitives, s: EngineState)
    requires EngineInv(prim, s)
    ensures CoordInv(ActiveCoord(s)) && ActiveCoord(s).vs == s.vs
    ensures ActiveCoord(s).height == s.headNumber + 1 && ActiveCoord(s).seed == s.seed
    ensures EngineInv(prim, s.(coord := Some(ActiveCoord(s))))
  {
    NewCoordInv(s.headNumber + 1, s.seed, s.vs);
  }

  /** What a run of vote submissions can do to a coordinator. */
  ghost predicate Continues(c: Coord, d: Coord) {
    && CoordInv(d)
    && d.height == c.height && d.round == c.round && d.vs == c.vs && d.seed == c.seed
    && (c.stage.NoProposal? <==> d.stage.NoProposal?)
    && (!c.stage.NoProposal? ==> d.stage.block == c.stage.block)
  }

  lemma VoteContinues(c: Coord, kind: VoteKind, v: Vote)
    requires CoordInv(c) && AfterVote(c, kind, v).Ok?
    ensures Continues(c, AfterVote(c, kind, v).value)
  {
    VoteKeepsInv(c, kind, v);
  }

  lemma {:induction false} FeedContinues(c: Coord, kind: VoteKind, votes: seq<Vote>)
    requires CoordInv(c)
    ensures Continues(c, Feed(c, kind, votes).coord)
  {
    if votes != [] {
      FeedContinues(c, kind, votes[..|votes| - 1]);
      var f := Feed(c, kind, votes[..|votes| - 1]);
      var v := votes[|votes| - 1];
      if AfterVote(f.coord, kind, v).Ok? {
        VoteContinues(f.coord, kind, v);
      }
    }
  }

  lemma {:induction false} DrainContinues(s: EngineState)
    requires s.coord.Some? && CoordInv(s.coord.value)
    ensures Drain(s).coord.Some? && Continues(s.coord.value, Drain(s).coord.value)
    ensures Drain(s) == s.(coord := Drain(s).coord, pendingPrevotes := Drain(s).pendingPrevotes,
                           pendingPrecommits := Drain(s).pendingPrecommits)
    decreases |s.pendingPrevotes| + |s.pendingPrecommits|
  {
    var t := DropStale(s);
    var f := Feed(t.coord.value, Prevote, t.pendingPrevotes);
    FeedContinues(t.coord.value, Prevote, t.pendingPrevotes);
    FeedContinues(f.coord, Precommit, t.pendingPrecommits);
    var (u, applied) := DrainPass(t);
    if applied {
      DrainContinues(u);
    }
  }

  lemma DrainNothing(s: EngineState)
    requires s.pendingPrevotes == [] && s.pendingPrecommits == []
    ensures Drain(s) == s
  {
  }

  lemma DropStaleKeepsInv(prim: Primitives, s: EngineState)
    requires EngineInv(prim, s)
    ensures EngineInv(prim, DropStale(s))
  {
  }

  lemma DrainKeepsInv(prim: Primitives, s: EngineState)
    requires EngineInv(prim, s)
    ensures EngineInv(prim, Drain(s))
  {
    if s.coord.Some? {
      DrainContinues(s);
    }
  }

  /** The states in which `Drain` starts. */
  lemma AcceptedProposalInv(prim: Primitives, s: EngineState, p: Proposal)
    requires EngineInv(prim, s) && CoordInv(ActiveCoord(s))
    ensures var r := AfterProposal(prim, ActiveCoord(s), HashOf(prim, p.block), p.proof);
      r.Ok? ==> EngineInv(prim, s.(coord := Some(r.value), proposal := Some(p)))
  {
    ActiveCoordInv(prim, s);
    if AfterProposal(prim, ActiveCoord(s), HashOf(prim, p.block), p.proof).Ok? {
      ProposalKeepsInv(prim, ActiveCoord(s), HashOf(prim, p.block), p.proof);
    }
  }

  lemma CountedVoteInv(prim: Primitives, s: EngineState, kind: VoteKind, v: Vote)
    requires EngineInv(prim, s)
    ensures var t := Recorded(s, kind, v);
      && EngineInv(prim, t)
      && (t.coord.Some? && AfterVote(t.coord.value, kind, v).Ok? ==>
            EngineInv(prim, t.(coord := Some(AfterVote(t.coord.value, kind, v).value))))
  {
    var t := Recorded(s, kind, v);
    if t.coord.Some? && AfterVote(t.coord.value, kind, v).Ok? {
      VoteContinues(t.coord.value, kind, v);
    }
  }

  lemma TimedOutInv(prim: Primitives, s: EngineState)
    requires EngineInv(prim, s)
    ensures EngineInv(prim, s.(coord := Some(AfterTimeout(ActiveCoord(s))), proposal := None))
  {
    ActiveCoordInv(prim, s);
  }

  lemma RemoteProposalKeepsInv(prim: Primitives, s: EngineState, p: Proposal)
    requires EngineInv(prim, s)
    ensures ActiveCoord(s).vs.Valid() && EngineInv(prim, RemoteProposal(prim, s, p).0)
  {
    ActiveCoordInv(prim, s);
    AcceptedProposalInv(prim, s, p);
    var r := AfterProposal(prim, ActiveCoord(s), HashOf(prim, p.block), p.proof);
    if r.Ok? {
      DrainKeepsInv(prim, s.(coord := Some(r.value), proposal := Some(p)));
    }
  }

  lemma RemoteVoteKeepsInv(prim: Primitives, s: EngineState, kind: VoteKind, v: Vote)
    requires EngineInv(prim, s)
    ensures EngineInv(prim, RemoteVote(s, kind, v).0)
  {
    CountedVoteInv(prim, s, kind, v);
    var t := Recorded(s, kind, v);
    if t.coord.Some? && AfterVote(t.coord.value, kind, v).Ok? {
      DrainKeepsInv(prim, t.(coord := Some(AfterVote(t.coord.value, kind, v).value)));
    }
  }

  lemma CastProposalKeepsInv(cfg: Config, s: EngineState, body: Bytes)
    requires EngineInv(cfg.prim, s)
    ensures ActiveCoord(s).vs.Valid() && EngineInv(cfg.prim, AfterCastProposal(cfg, s, body).0)
  {
    ActiveCoordInv(cfg.prim, s);
    var c := ActiveCoord(s);
    var proof := cfg.prove(c.height, c.round, s.seed);
    var hash := HashOf(cfg.prim, BuildBlock(cfg, s, c.height, proof, cfg.coinbase, body));
    if AfterProposal(cfg.prim, c, hash, proof).Ok? {
      ProposalKeepsInv(cfg.prim, c, hash, proof);
    }
  }

  lemma CastVoteKeepsInv(cfg: Config, s: EngineState, kind: VoteKind)
    requires EngineInv(cfg.prim, s)
    ensures EngineInv(cfg.prim, AfterCastVote(cfg, s, kind).0)
  {
    if AfterCastVote(cfg, s, kind).1.Ok? {
      VoteContinues(s.coord.value, kind, AfterCastVote(cfg, s, kind).1.value);
    }
  }

  lemma TickTimeoutKeepsInv(prim: Primitives, s: EngineState)
    requires EngineInv(prim, s)
    ensures EngineInv(prim, AfterTickTimeout(s))
  {
    ActiveCoordInv(prim, s);
    DrainKeepsInv(prim, s.(coord := Some(AfterTimeout(ActiveCoord(s))), proposal := None));
  }

  lemma FastForwardKeepsInv(prim: Primitives, s: EngineState, target: nat)
    requires EngineInv(prim, s)
    ensures FastForward(s, target).1.Ok? && EngineInv(prim, FastForward(s, target).0)
  {
    NewCoordInv(s.headNumber + 1, s.seed, s.vs);
  }

  lemma DrainPassKeepsInv(prim: Primitives, s: EngineState)
    requires EngineInv(prim, s) && s.coord.Some?
    ensures EngineInv(prim, DrainPass(s).0)
  {
    var f := Feed(s.coord.value, Prevote, s.pendingPrevotes);
    FeedContinues(s.coord.value, Prevote, s.pendingPrevotes);
    FeedContinues(f.coord, Precommit, s.pendingPrecommits);
  }

  lemma HarvestKeepsInv(prim: Primitives, s: EngineState)
    requires EngineInv(prim, s)
    ensures EngineInv(prim, Harvest(prim, s).0)
  {
  }

  lemma AdoptKeepsInv(prim: Primitives, s: EngineState, b: Block, cert: PrecommitCertificate)
    requires EngineInv(prim, s)
    ensures EngineInv(prim, Adopt(prim, s, b, cert).0)
  {
  }

  lemma RotateKeepsInv(prim: Primitives, s: EngineState, vs: ValidatorSet, myIndex: nat)
    requires EngineInv(prim, s) && vs.Valid()
    ensures EngineInv(prim, Rotate(s, vs, myIndex).0)
  {
  }

  lemma TakeEvidenceKeepsInv(prim: Primitives, s: EngineState)
    requires EngineInv(prim, s)
    ensures EngineInv(prim, TakeEvidence(s).0)
  {
  }
}
