/** Runs of the engine: the chain of heads, the cache of recent blocks, and catching up from it. */
module Chain {
  import opened Crypto
  import opened Validators
  import opened Tally
  import opened Coordinator
  import opened Engine

  datatype Op =
    | RemoteProposalOp(p: Proposal)
    | RemoteVoteOp(kind: VoteKind, v: Vote)
    | CastProposalOp(body: Bytes)
    | CastVoteOp(kind: VoteKind)
    | TimeoutOp
    | FastForwardOp(target: nat)
    | HarvestOp
    | AdoptOp(block: Block, cert: PrecommitCertificate)
    | RotateOp(vs: ValidatorSet, myIndex: nat)
    | TakeEvidenceOp

  /** A committed block with its certificate and the validator set in force. */
  datatype Commit = Commit(block: Block, cert: PrecommitCertificate, vs: ValidatorSet)

  /** An engine together with everything it has committed since it started. */
  datatype History = History(engine: EngineState, log: seq<Commit>)

  /** The proposal extends the head and carries its own VRF output.  The engine does not check any of
      the three; the gossip layer builds proposals so, except for the number it reads off the wire. */
  predicate WellBuilt(s: EngineState, p: Proposal) {
    && p.block.header.parentHash == s.headHash
    && p.block.header.number == s.headNumber + 1
    && p.block.header.mixHash == p.proof.vrfOutput
  }

  /** A block that is harvested was well built, and a set rotated in is a validator set. */
  ghost predicate GoodOp(prim: Primitives, s: EngineState, op: Op) {
    match op
    case HarvestOp => Harvest(prim, s).1.Some? ==> WellBuilt(s, s.proposal.value)
    case RotateOp(vs, myIndex) => Rotate(s, vs, myIndex).1.Ok? ==> vs.Valid()
    case _ => true
  }

  function Apply(cfg: Config, h: History, op: Op): History
    requires ActiveCoord(h.engine).vs.Valid()
  {
    var s := h.engine;
    match op
    case RemoteProposalOp(p) => h.(engine := RemoteProposal(cfg.prim, s, p).0)
    case RemoteVoteOp(kind, v) => h.(engine := RemoteVote(s, kind, v).0)
    case CastProposalOp(body) => h.(engine := AfterCastProposal(cfg, s, body).0)
    case CastVoteOp(kind) => h.(engine := AfterCastVote(cfg, s, kind).0)
    case TimeoutOp => h.(engine := AfterTickTimeout(s))
    case FastForwardOp(target) => h.(engine := FastForward(s, target).0)
    case HarvestOp =>
      var (t, c) := Harvest(cfg.prim, s);
      History(t, if c.Some? then h.log + [Commit(c.value.block, c.value.cert, s.vs)] else h.log)
    case AdoptOp(b, cert) =>
      var (t, r) := Adopt(cfg.prim, s, b, cert);
      History(t, if r.Ok? then h.log + [Commit(b, cert, s.vs)] else h.log)
    case RotateOp(vs, myIndex) => h.(engine := Rotate(s, vs, myIndex).0)
    case TakeEvidenceOp => h.(engine := TakeEvidence(s).0)
  }

  // ---------------------------------------------------------------------------------------
  // The chain invariant
  // ---------------------------------------------------------------------------------------

  /** Where the run started. */
  datatype Origin = Origin(hash: Bytes, number: nat, timestamp: nat, seed: Bytes)

  /** Head hash, number, timestamp and seed of an engine. */
  function HeadOf(s: EngineState): Origin {
    Origin(s.headHash, s.headNumber, s.headTimestamp, s.seed)
  }

  function HeadAfter(prim: Primitives, start: Origin, log: seq<Commit>): Origin {
    if log == [] then start
    else
      var h := log[|log| - 1].block.header;
      Origin(prim.headerHash(h), h.number, h.timestamp, h.mixHash)
  }

  /** The certificate verifies under the set in force and names exactly this block. */
  predicate Certified(prim: Primitives, c: Commit) {
    && CertOk(c.vs, c.cert)
    && c.cert.block == HashOf(prim, c.block) && c.cert.height == c.block.header.number
  }

  /** Every commit is certified and extends the head before it. */
  ghost predicate Linked(prim: Primitives, start: Origin, log: seq<Commit>) {
    forall i :: 0 <= i < |log| ==>
      && Certified(prim, log[i])
      && log[i].block.header.number == start.number + 1 + i
      && log[i].block.header.parentHash == HeadAfter(prim, start, log[..i]).hash
  }

  /** Heights of the last `min(64, commits)` commits. */
  function CachedHeights(start: nat, commits: nat): set<nat> {
    Range(if commits <= RECENT_BLOCKS_CAP then start + 1 else start + commits + 1 - RECENT_BLOCKS_CAP,
          start + commits + 1)
  }

  function CacheOf(start: nat, log: seq<Commit>): map<nat, CommittedBlock> {
    map k | k in CachedHeights(start, |log|) :: var c := log[k - start - 1]; CommittedBlock(c.block, c.cert)
  }

  ghost predicate ChainInv(cfg: Config, start: Origin, h: History) {
    && EngineInv(cfg.prim, h.engine)
    && Linked(cfg.prim, start, h.log)
    && HeadOf(h.engine) == HeadAfter(cfg.prim, start, h.log)
    && h.engine.headNumber == start.number + |h.log|
    && h.engine.recent == CacheOf(start.number, h.log)
  }

  /** Caching the next commit slides the window. */
  lemma CacheSlides(start: nat, log: seq<Commit>, c: Commit)
    requires c.block.header.number == start + |log| + 1
    ensures Cached(CacheOf(start, log), c.block, c.cert) == CacheOf(start, log + [c])
  {
    var n := start + |log| + 1;
    var m := CacheOf(start, log)[n := CommittedBlock(c.block, c.cert)];
    var after := CacheOf(start, log + [c]);
    forall k | k in m ensures |HeightsAbove(m, k)| == n - k {
      assert HeightsAbove(m, k) == Range(k + 1, n + 1);
      RangeCardinality(k + 1, n + 1);
    }
    assert KeepHighest(m).Keys == after.Keys;
    assert KeepHighest(m) == after;
  }

  /** Committing a certified block that extends the head keeps the chain. */
  lemma CommitExtends(cfg: Config, start: Origin, h: History, c: Commit, t: EngineState)
    requires ChainInv(cfg, start, h)
    requires Certified(cfg.prim, c) && c.block.header.number == h.engine.headNumber + 1
    requires c.block.header.parentHash == h.engine.headHash
    requires t.(pendingPrevotes := [], pendingPrecommits := [])
          == WithHead(cfg.prim, h.engine, c.block, c.cert, c.block.header.mixHash)
             .(pendingPrevotes := [], pendingPrecommits := [])
    ensures ChainInv(cfg, start, History(t, h.log + [c]))
  {
    var log := h.log + [c];
    assert log[..|h.log|] == h.log;
    forall i | 0 <= i < |log|
      ensures && Certified(cfg.prim, log[i]) && log[i].block.header.number == start.number + 1 + i
              && log[i].block.header.parentHash == HeadAfter(cfg.prim, start, log[..i]).hash
    {
      if i < |h.log| {
        assert log[..i] == h.log[..i];
      }
    }
    CacheSlides(start.number, h.log, c);
  }

  /** Operations within a round leave head and cache alone. */
  predicate SameChain(s: EngineState, t: EngineState) {
    HeadOf(t) == HeadOf(s) && t.recent == s.recent
  }

  lemma RoundOpKeepsChain(cfg: Config, h: History, op: Op)
    requires EngineInv(cfg.prim, h.engine)
    requires !op.HarvestOp? && !op.AdoptOp? && !op.RotateOp?
    ensures ActiveCoord(h.engine).vs.Valid()
    ensures var g := Apply(cfg, h, op);
      EngineInv(cfg.prim, g.engine) && SameChain(h.engine, g.engine) && g.log == h.log
  {
    hide CoordInv, EngineInv;
    var s := h.engine;
    ActiveCoordInv(cfg.prim, s);
    ValidActive(cfg.prim, s);
    match op
    case RemoteProposalOp(p) => RemoteProposalKeepsInv(cfg.prim, s, p); RemoteProposalFrame(cfg.prim, s, p);
    case RemoteVoteOp(kind, v) => RemoteVoteKeepsInv(cfg.prim, s, kind, v); RemoteVoteFrame(cfg.prim, s, kind, v);
    case CastProposalOp(body) => CastProposalKeepsInv(cfg, s, body); CastProposalFrame(cfg, s, body);
    case CastVoteOp(kind) => CastVoteKeepsInv(cfg, s, kind);
    case TimeoutOp => TickTimeoutKeepsInv(cfg.prim, s); TimeoutFrame(cfg.prim, s);
    case FastForwardOp(target) => FastForwardKeepsInv(cfg.prim, s, target);
    case TakeEvidenceOp => TakeEvidenceKeepsInv(cfg.prim, s);
  }

  lemma ValidActive(prim: Primitives, s: EngineState)
    requires EngineInv(prim, s)
    ensures ActiveCoord(s).vs.Valid()
  {
    ActiveCoordInv(prim, s);
  }

  lemma RemoteProposalFrame(prim: Primitives, s: EngineState, p: Proposal)
    requires EngineInv(prim, s) && ActiveCoord(s).vs.Valid()
    ensures var t := RemoteProposal(prim, s, p).0;
      && SameChain(s, t) && t.vs == s.vs && t.myIndex == s.myIndex
      && t.proposal ==
         if AfterProposal(prim, ActiveCoord(s), HashOf(prim, p.block), p.proof).Ok? then Some(p) else s.proposal
  {
    ActiveCoordInv(prim, s);
    AcceptedProposalInv(prim, s, p);
    var r := AfterProposal(prim, ActiveCoord(s), HashOf(prim, p.block), p.proof);
    if r.Ok? {
      DrainContinues(s.(coord := Some(r.value), proposal := Some(p)));
    }
  }

  lemma RemoteVoteFrame(prim: Primitives, s: EngineState, kind: VoteKind, v: Vote)
    requires EngineInv(prim, s)
    ensures var t := RemoteVote(s, kind, v).0;
      SameChain(s, t) && t.vs == s.vs && t.myIndex == s.myIndex && t.proposal == s.proposal
  {
    var r := Recorded(s, kind, v);
    if r.coord.Some? && AfterVote(r.coord.value, kind, v).Ok? {
      VoteContinues(r.coord.value, kind, v);
      DrainContinues(r.(coord := Some(AfterVote(r.coord.value, kind, v).value)));
    }
  }

  lemma CastProposalFrame(cfg: Config, s: EngineState, body: Bytes)
    requires EngineInv(cfg.prim, s) && ActiveCoord(s).vs.Valid()
    ensures var (t, r) := AfterCastProposal(cfg, s, body);
      && SameChain(s, t) && t.vs == s.vs && t.myIndex == s.myIndex
      && (r.Ok? ==> t.proposal == Some(r.value) && WellBuilt(s, r.value))
      && (r.Err? ==> t.proposal == s.proposal)
  {
    ActiveCoordInv(cfg.prim, s);
  }

  lemma TimeoutFrame(prim: Primitives, s: EngineState)
    requires EngineInv(prim, s)
    ensures var t := AfterTickTimeout(s);
      SameChain(s, t) && t.vs == s.vs && t.myIndex == s.myIndex && t.proposal.None?
  {
    ActiveCoordInv(prim, s);
    TimeoutKeepsInv(ActiveCoord(s));
    DrainContinues(s.(coord := Some(AfterTimeout(ActiveCoord(s))), proposal := None));
  }

  /** An operation keeps the chain if and only if it does not harvest a block that is badly built on the head.
      A badly built proposal that is refused, or accepted and never committed, does no harm. */
  lemma ApplyKeepsChain(cfg: Config, start: Origin, h: History, op: Op)
    requires ChainInv(cfg, start, h)
    ensures ActiveCoord(h.engine).vs.Valid()
    ensures ChainInv(cfg, start, Apply(cfg, h, op)) <==> GoodOp(cfg.prim, h.engine, op)
  {
    var s := h.engine;
    ActiveCoordInv(cfg.prim, s);
    match op
    case HarvestOp => HarvestStep(cfg, start, h);
    case AdoptOp(b, cert) => AdoptStep(cfg, start, h, b, cert);
    case RotateOp(vs, myIndex) => RotateStep(cfg, start, h, vs, myIndex);
    case _ =>
      hide Apply, EngineInv, GoodOp;
      RoundOpKeepsChain(cfg, h, op);
  }

  lemma RotateStep(cfg: Config, start: Origin, h: History, vs: ValidatorSet, myIndex: nat)
    requires ChainInv(cfg, start, h) && ActiveCoord(h.engine).vs.Valid()
    ensures ChainInv(cfg, start, Apply(cfg, h, RotateOp(vs, myIndex)))
       <==> GoodOp(cfg.prim, h.engine, RotateOp(vs, myIndex))
  {
  }

  /** Adoption commits the block under the current set. */
  lemma AdoptStep(cfg: Config, start: Origin, h: History, b: Block, cert: PrecommitCertificate)
    requires ChainInv(cfg, start, h) && ActiveCoord(h.engine).vs.Valid()
    ensures ChainInv(cfg, start, Apply(cfg, h, AdoptOp(b, cert)))
  {
    hide ChainInv, CertOk, CertErrorOf, Cached;
    var (t, r) := Adopt(cfg.prim, h.engine, b, cert);
    if r.Ok? {
      CommitExtends(cfg, start, h, Commit(b, cert, h.engine.vs), t);
    }
  }

  lemma HarvestStep(cfg: Config, start: Origin, h: History)
    requires ChainInv(cfg, start, h) && ActiveCoord(h.engine).vs.Valid()
    ensures ChainInv(cfg, start, Apply(cfg, h, HarvestOp)) <==> GoodOp(cfg.prim, h.engine, HarvestOp)
  {
    hide ChainInv, CertOk, Cached;
    var (t, c) := Harvest(cfg.prim, h.engine);
    if c.Some? {
      var commit := Commit(c.value.block, c.value.cert, h.engine.vs);
      HarvestIsCertified(cfg, start, h);
      if WellBuilt(h.engine, h.engine.proposal.value) {
        CommitExtends(cfg, start, h, commit, t);
      } else if ChainInv(cfg, start, History(t, h.log + [commit])) {
        HarvestedIsWellBuilt(cfg, start, h, commit, t);
      }
    }
  }

  lemma HarvestIsCertified(cfg: Config, start: Origin, h: History)
    requires ChainInv(cfg, start, h) && Harvest(cfg.prim, h.engine).1.Some?
    ensures var c := Harvest(cfg.prim, h.engine).1.value;
      && CertOk(h.engine.vs, c.cert)
      && c.cert.block == HashOf(cfg.prim, c.block) && c.cert.height == h.engine.headNumber + 1
  {
    hide CertOk, Linked, CacheOf;
  }

  /** If the chain survives a harvest, the block extended the head and carried the next seed. */
  lemma HarvestedIsWellBuilt(cfg: Config, start: Origin, h: History, c: Commit, t: EngineState)
    requires ChainInv(cfg, start, h) && ChainInv(cfg, start, History(t, h.log + [c]))
    ensures c.block.header.parentHash == h.engine.headHash && c.block.header.number == h.engine.headNumber + 1
    ensures c.block.header.mixHash == t.seed
  {
    hide EngineInv, Certified, CacheOf;
    var log := h.log + [c];
    assert log[|h.log|] == c && log[..|h.log|] == h.log;
  }

  // ---------------------------------------------------------------------------------------
  // Runs
  // ---------------------------------------------------------------------------------------

  ghost predicate GoodRun(cfg: Config, start: Origin, h: History, ops: seq<Op>)
    requires ChainInv(cfg, start, h)
    decreases |ops|
  {
    ops == [] ||
    (ApplyKeepsChain(cfg, start, h, ops[0]);
     GoodOp(cfg.prim, h.engine, ops[0]) && GoodRun(cfg, start, Apply(cfg, h, ops[0]), ops[1..]))
  }

  ghost function RunOps(cfg: Config, start: Origin, h: History, ops: seq<Op>): (g: History)
    requires ChainInv(cfg, start, h) && GoodRun(cfg, start, h, ops)
    ensures ChainInv(cfg, start, g)
    decreases |ops|
  {
    if ops == [] then h
    else
      ApplyKeepsChain(cfg, start, h, ops[0]);
      RunOps(cfg, start, Apply(cfg, h, ops[0]), ops[1..])
  }

  /** A fresh engine satisfies the chain invariant with an empty log. */
  lemma NewEngineChain(cfg: Config, vs: ValidatorSet, myIndex: nat, seed: Bytes, genesis: Block)
    requires vs.Valid()
    ensures var s := NewEngine(cfg.prim, vs, myIndex, seed, genesis); ChainInv(cfg, HeadOf(s), History(s, []))
  {
    var s := NewEngine(cfg.prim, vs, myIndex, seed, genesis);
    assert CacheOf(s.headNumber, []) == map[];
  }

  /** After any run from a fresh engine: an active coordinator is at `head + 1` with the engine's seed
      and set; the committed blocks form a parent-linked, consecutively numbered chain ending at the
      head, each with a verifying certificate naming it; and the cache answers exactly for the last
      `min(64, commits)` heights, with the committed block and certificate. */
  lemma ChainOverRuns(cfg: Config, vs: ValidatorSet, myIndex: nat, seed: Bytes, genesis: Block, ops: seq<Op>)
    requires vs.Valid()
    requires (NewEngineChain(cfg, vs, myIndex, seed, genesis);
      var s := NewEngine(cfg.prim, vs, myIndex, seed, genesis);
      GoodRun(cfg, HeadOf(s), History(s, []), ops))
    ensures (NewEngineChain(cfg, vs, myIndex, seed, genesis);
      var s := NewEngine(cfg.prim, vs, myIndex, seed, genesis);
      var g := RunOps(cfg, HeadOf(s), History(s, []), ops);
      var n := |g.log|;
      && (g.engine.coord.Some? ==>
            var c := g.engine.coord.value;
            c.height == g.engine.headNumber + 1 && c.seed == g.engine.seed && c.vs == g.engine.vs)
      && Linked(cfg.prim, HeadOf(s), g.log)
      && HeadOf(g.engine) == HeadAfter(cfg.prim, HeadOf(s), g.log)
      && (forall k :: k in g.engine.recent <==> s.headNumber < k <= s.headNumber + n && s.headNumber + n - k < 64)
      && (forall k :: k in g.engine.recent ==>
            var c := g.log[k - s.headNumber - 1];
            g.engine.recent[k] == CommittedBlock(c.block, c.cert) && c.block.header.number == k))
  {
    hide RunOps, GoodRun, CoordInv, Certified, CacheOf;
    NewEngineChain(cfg, vs, myIndex, seed, genesis);
    var s := NewEngine(cfg.prim, vs, myIndex, seed, genesis);
    var g := RunOps(cfg, HeadOf(s), History(s, []), ops);
    CacheAnswers(s.headNumber, g.log);
  }

  lemma CacheAnswers(start: nat, log: seq<Commit>)
    ensures forall k :: k in CacheOf(start, log) <==> start < k <= start + |log| && start + |log| - k < 64
    ensures forall k :: k in CacheOf(start, log) ==>
      var c := log[k - start - 1]; CacheOf(start, log)[k] == CommittedBlock(c.block, c.cert)
  {
  }

  // ---------------------------------------------------------------------------------------
  // Catching up
  // ---------------------------------------------------------------------------------------

  /** A peer at the parent head that adopts a freshly harvested block ends with the head hash, number,
      timestamp and seed of the engine that harvested it, exactly when the accepted proposal was well
      built on that head. */
  lemma CatchUpRefinesLiveIff(prim: Primitives, s: EngineState, peer: EngineState)
    requires EngineInv(prim, s) && Harvest(prim, s).1.Some?
    requires peer.vs == s.vs && peer.headHash == s.headHash && peer.headNumber == s.headNumber
    ensures var (live, c) := Harvest(prim, s);
      (Adopt(prim, peer, c.value.block, c.value.cert).1.Ok?
       && HeadOf(Adopt(prim, peer, c.value.block, c.value.cert).0) == HeadOf(live))
      <==> WellBuilt(s, s.proposal.value)
  {
  }

  /** Anything the cache serves, at any point of any run, is adopted by every engine that stands at its
      parent with the validator set that formed it, and gives that engine the head the server had. */
  lemma ServedBlockIsAdopted(cfg: Config, start: Origin, h: History, k: nat, peer: EngineState)
    requires ChainInv(cfg, start, h) && k in h.engine.recent
    requires start.number < k <= start.number + |h.log|
    requires var i := k - start.number - 1;
      && peer.vs == h.log[i].vs && peer.headNumber == k - 1
      && peer.headHash == HeadAfter(cfg.prim, start, h.log[..i]).hash
    ensures var i := k - start.number - 1;
      var served := h.engine.recent[k];
      && Adopt(cfg.prim, peer, served.block, served.cert).1 == Ok(served.block)
      && HeadOf(Adopt(cfg.prim, peer, served.block, served.cert).0) == HeadAfter(cfg.prim, start, h.log[..i + 1])
  {
    hide EngineInv, CertOk, CacheOf, WellBuilt;
    CacheAnswers(start.number, h.log);
    var i := k - start.number - 1;
    assert Certified(cfg.prim, h.log[i]);
  }
}
