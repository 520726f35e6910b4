/** Everything a node holds was signed by someone: signatures enter a node only inside messages, and
    its certificates are made of them. */
module Knowledge {
  import opened Bits
  import opened Crypto
  import opened Validators
  import opened Tally
  import opened Coordinator
  import opened Engine
  import opened Wire
  import opened Chain
  import opened Gossip
  import opened Voting

  /** All (key, statement) pairs ever signed. */
  type Signed = set<(BlsKey, Statement)>

  ghost predicate MadeOf(sig: VoteSignature, signed: Signed) {
    forall p :: p in sig.parts ==> p in signed
  }

  ghost predicate VotersSigned(vs: ValidatorSet, voters: nat, st: Statement, signed: Signed) {
    forall i :: i in Members(voters) ==> i < vs.Size() && (vs.validators[i].blsKey, st) in signed
  }

  ghost predicate CoordKnows(c: Coord, signed: Signed) {
    match c.stage
    case NoProposal => true
    case CollectingPrevotes(_, voters) => VotersSigned(c.vs, voters, VotedOn(c, Prevote), signed)
    case CollectingPrecommits(_, polc, voters) =>
      MadeOf(polc.sig, signed) && VotersSigned(c.vs, voters, VotedOn(c, Precommit), signed)
    case Done(_, polc, cert) => MadeOf(polc.sig, signed) && MadeOf(cert.sig, signed)
  }

  ghost predicate VotesKnown(votes: seq<Vote>, signed: Signed) {
    forall v :: v in votes ==> MadeOf(v.sig, signed)
  }

  ghost predicate EngineKnows(s: EngineState, signed: Signed) {
    && (s.coord.Some? ==> CoordKnows(s.coord.value, signed))
    && VotesKnown(s.pendingPrevotes, signed)
    && VotesKnown(s.pendingPrecommits, signed)
  }

  lemma KnowsMore(s: EngineState, signed: Signed, more: Signed)
    requires EngineKnows(s, signed) && signed <= more
    ensures EngineKnows(s, more)
  {
  }

  /** A certificate made from voters who all signed is made of what they signed. */
  lemma MadeCertIsMadeOf(vs: ValidatorSet, st: Statement, voters: nat, signed: Signed)
    requires VotersSigned(vs, voters, st, signed)
    ensures MadeOf(MakeCert(vs, st, voters).sig, signed)
  {
    forall p | p in Contribution(vs.validators, Members(voters), st) ensures p in signed {
      var i := ContributionOnly(vs.validators, Members(voters), p, st);
    }
  }

  lemma VoteKnown(c: Coord, kind: VoteKind, v: Vote, signed: Signed)
    requires CoordKnows(c, signed) && MadeOf(v.sig, signed) && AfterVote(c, kind, v).Ok?
    ensures CoordKnows(AfterVote(c, kind, v).value, signed)
  {
    var st := VotedOn(c, kind);
    var voters := SetBit(c.stage.voters, v.index);
    SetBitMembers(c.stage.voters, v.index);
    ZeroMembers();
    assert (c.vs.validators[v.index].blsKey, st) in v.sig.parts;
    assert VotersSigned(c.vs, voters, st, signed);
    MadeCertIsMadeOf(c.vs, st, voters, signed);
  }

  lemma {:induction false} FeedKnown(c: Coord, kind: VoteKind, votes: seq<Vote>, signed: Signed)
    requires CoordKnows(c, signed) && VotesKnown(votes, signed)
    ensures CoordKnows(Feed(c, kind, votes).coord, signed) && VotesKnown(Feed(c, kind, votes).leftover, signed)
  {
    if votes != [] {
      var init, last := votes[..|votes| - 1], votes[|votes| - 1];
      FeedKnown(c, kind, init, signed);
      if AfterVote(Feed(c, kind, init).coord, kind, last).Ok? {
        VoteKnown(Feed(c, kind, init).coord, kind, last, signed);
      }
    }
  }

  lemma {:induction false} DrainKnown(s: EngineState, signed: Signed)
    requires EngineKnows(s, signed)
    ensures EngineKnows(Drain(s), signed)
    decreases |s.pendingPrevotes| + |s.pendingPrecommits|
  {
    var t := DropStale(s);
    if t.coord.Some? {
      FeedKnown(t.coord.value, Prevote, t.pendingPrevotes, signed);
      FeedKnown(Feed(t.coord.value, Prevote, t.pendingPrevotes).coord, Precommit, t.pendingPrecommits, signed);
      var (u, applied) := DrainPass(t);
      if applied {
        DrainKnown(u, signed);
      }
    }
  }

  lemma RemoteVoteKnown(s: EngineState, kind: VoteKind, v: Vote, signed: Signed)
    requires EngineKnows(s, signed) && MadeOf(v.sig, signed)
    ensures EngineKnows(RemoteVote(s, kind, v).0, signed)
  {
    var t := Recorded(s, kind, v);
    if t.coord.Some? && AfterVote(t.coord.value, kind, v).Ok? {
      VoteKnown(t.coord.value, kind, v, signed);
      DrainKnown(t.(coord := Some(AfterVote(t.coord.value, kind, v).value)), signed);
    }
  }

  lemma RemoteProposalKnown(prim: Primitives, s: EngineState, p: Proposal, signed: Signed)
    requires EngineKnows(s, signed) && ActiveCoord(s).vs.Valid()
    ensures EngineKnows(RemoteProposal(prim, s, p).0, signed)
  {
    ZeroMembers();
    var r := AfterProposal(prim, ActiveCoord(s), HashOf(prim, p.block), p.proof);
    if r.Ok? {
      DrainKnown(s.(coord := Some(r.value), proposal := Some(p)), signed);
    }
  }

  lemma TimeoutKnown(s: EngineState, signed: Signed)
    requires EngineKnows(s, signed)
    ensures EngineKnows(AfterTickTimeout(s), signed)
  {
    DrainKnown(s.(coord := Some(AfterTimeout(ActiveCoord(s))), proposal := None), signed);
  }

  lemma CastProposalKnown(cfg: Config, s: EngineState, body: Bytes, signed: Signed)
    requires EngineKnows(s, signed) && ActiveCoord(s).vs.Valid()
    ensures EngineKnows(AfterCastProposal(cfg, s, body).0, signed)
  {
    ZeroMembers();
  }

  /** The node's own vote is counted as soon as it is signed. */
  lemma CastVoteKnown(cfg: Config, s: EngineState, kind: VoteKind, signed: Signed)
    requires EngineKnows(s, signed)
    ensures var (t, r) := AfterCastVote(cfg, s, kind);
      && (r.Err? ==> t == s)
      && (r.Ok? ==> EngineKnows(t, signed + {(cfg.blsKey, VoteStatement(kind, r.value))}))
  {
    var (t, r) := AfterCastVote(cfg, s, kind);
    if r.Ok? {
      var more := signed + {(cfg.blsKey, VoteStatement(kind, r.value))};
      KnowsMore(s, signed, more);
      VoteKnown(s.coord.value, kind, r.value, more);
    }
  }

  // ---------------------------------------------------------------------------------------
  // Node steps
  // ---------------------------------------------------------------------------------------

  /** A message the network can carry: its signatures exist. */
  ghost predicate Plausible(m: Message, signed: Signed) {
    match m
    case VoteMsg(_, v) => MadeOf(v.sig, signed)
    case BlockResponse(_, cert) => MadeOf(cert.sig, signed)
    case _ => true
  }

  function SignedBy(key: BlsKey, statements: set<Statement>): Signed {
    set st | st in statements :: (key, st)
  }

  /** A committed block whose certificate verifies, names it and was really signed. */
  ghost predicate CommitOk(prim: Primitives, vs: ValidatorSet, c: CommittedBlock, signed: Signed) {
    CertOk(vs, c.cert) && c.cert.block == HashOf(prim, c.block) && MadeOf(c.cert.sig, signed)
  }

  lemma DispatchKnown(cfg: Config, n: Node, m: Message, signed: Signed)
    requires EngineInv(cfg.prim, n.engine) && EngineKnows(n.engine, signed) && Plausible(m, signed)
    requires n.engine.vs.Valid() && ActiveCoord(n.engine).vs.Valid()
    ensures var o := Dispatch(cfg, n, m);
      && EngineKnows(o.node.engine, signed) && o.node.engine.vs == n.engine.vs
      && forall c :: c in o.commits ==> CommitOk(cfg.prim, n.engine.vs, c, signed)
  {
    match m
    case ProposalMsg(height, round, _, proof, coinbase, body) =>
      if height <= n.engine.headNumber + 1 {
        HandleProposalKnown(cfg, n, m, signed);
      }
    case VoteMsg(kind, v) =>
      RemoteVoteKnown(n.engine, kind, v, signed);
      RemoteVoteFrame(cfg.prim, n.engine, kind, v);
    case BlockRequest(_) =>
    case BlockResponse(_, _) =>
  }

  lemma HandleProposalKnown(cfg: Config, n: Node, m: Message, signed: Signed)
    requires EngineInv(cfg.prim, n.engine) && EngineKnows(n.engine, signed) && m.ProposalMsg?
    requires n.engine.vs.Valid() && ActiveCoord(n.engine).vs.Valid()
    ensures var t := HandleProposal(cfg, n, m).node.engine; EngineKnows(t, signed) && t.vs == n.engine.vs
  {
    var s := if ShouldFastForward(n.engine, m.height, m.round) then FastForward(n.engine, m.round).0 else n.engine;
    if ShouldFastForward(n.engine, m.height, m.round) {
      FastForwardStepsOn(cfg.prim, n.engine, m.height, m.round);
    }
    ActiveCoordInv(cfg.prim, s);
    if cfg.prim.decodeBody(m.body).Some? {
      var p := Proposal(BuildBlock(cfg, s, m.height, m.proof, m.coinbase, cfg.prim.decodeBody(m.body).value), m.proof);
      RemoteProposalKnown(cfg.prim, s, p, signed);
      RemoteProposalFrame(cfg.prim, s, p);
    }
  }

  lemma VoteStepKnown(cfg: Config, n: Node, at: Position, kind: VoteKind, signed: Signed)
    requires EngineKnows(n.engine, signed)
    ensures var o := MaybeVote(cfg, n, at, kind);
      EngineKnows(o.node.engine, signed + SignedBy(cfg.blsKey, Released(o.out))) && o.node.engine.vs == n.engine.vs
  {
    var o := MaybeVote(cfg, n, at, kind);
    CastVoteKnown(cfg, n.engine, kind, signed);
    var (t, r) := AfterCastVote(cfg, n.engine, kind);
    if VotedAt(n.flags, kind) != Some(at) && r.Ok? {
      var st := VoteStatement(kind, r.value);
      assert VoteMsg(kind, r.value) in o.out;
      assert st in Released(o.out);
      KnowsMore(t, signed + {(cfg.blsKey, st)}, signed + SignedBy(cfg.blsKey, Released(o.out)));
    } else {
      KnowsMore(n.engine, signed, signed + SignedBy(cfg.blsKey, Released(o.out)));
    }
  }

  lemma DriveKnown(cfg: Config, n: Node, body: Bytes, signed: Signed)
    requires EngineInv(cfg.prim, n.engine) && EngineKnows(n.engine, signed)
    requires n.engine.vs.Valid() && ActiveCoord(n.engine).vs.Valid()
    ensures var o := Drive(cfg, n, body);
      EngineKnows(o.node.engine, signed + SignedBy(cfg.blsKey, Released(o.out))) && o.node.engine.vs == n.engine.vs
  {
    hide MaybeVote, Released;
    var o := Drive(cfg, n, body);
    var all := signed + SignedBy(cfg.blsKey, Released(o.out));
    CastProposalKnown(cfg, n.engine, body, signed);
    CastProposalFrame(cfg, n.engine, body);
    KnowsMore(n.engine, signed, all);
    KnowsMore(AfterCastProposal(cfg, n.engine, body).0, signed, all);
    if n.engine.coord.Some?
      && (n.engine.coord.value.stage.CollectingPrevotes? || n.engine.coord.value.stage.CollectingPrecommits?) {
      var kind := if n.engine.coord.value.stage.CollectingPrevotes? then Prevote else Precommit;
      var p := MaybeVote(cfg, n, Here(n.engine), kind);
      VoteStepKnown(cfg, n, Here(n.engine), kind, signed);
      DriveOutIncludesVote(cfg, n, body, kind);
      KnowsMore(p.node.engine, signed + SignedBy(cfg.blsKey, Released(p.out)), all);
    }
  }

  lemma DriveOutIncludesVote(cfg: Config, n: Node, body: Bytes, kind: VoteKind)
    requires n.engine.coord.Some? && n.engine.coord.value.vs.Valid() && n.engine.vs.Valid()
    requires match kind
             case Prevote => n.engine.coord.value.stage.CollectingPrevotes?
             case Precommit => n.engine.coord.value.stage.CollectingPrecommits?
    ensures var p := MaybeVote(cfg, n, Here(n.engine), kind);
      && Drive(cfg, n, body).node == p.node
      && Released(p.out) <= Released(Drive(cfg, n, body).out)
  {
    hide MaybeVote, Released;
    var p := MaybeVote(cfg, n, Here(n.engine), kind);
    match kind
    case Prevote =>
      ReleasedAppend(p.out, Repeat(p.node.flags.lastProposal));
      ReleasedAppend(p.out + Repeat(p.node.flags.lastProposal), Repeat(p.node.flags.lastPrevote));
    case Precommit =>
      ReleasedAppend(p.out, Repeat(p.node.flags.lastPrevote));
      ReleasedAppend(p.out + Repeat(p.node.flags.lastPrevote), Repeat(p.node.flags.lastPrecommit));
  }

  lemma AutoHarvestKnown(cfg: Config, o: Outcome, signed: Signed)
    requires EngineInv(cfg.prim, o.node.engine) && EngineKnows(o.node.engine, signed)
    ensures var t := AutoHarvest(cfg.prim, o);
      && EngineKnows(t.node.engine, signed) && t.node.engine.vs == o.node.engine.vs
      && forall c :: c in t.commits ==> c in o.commits || CommitOk(cfg.prim, o.node.engine.vs, c, signed)
  {
  }
}
