/** The round-change coordinator: one height through proposal, PRE-VOTE and PRE-COMMIT, with
    timeouts that start the next round and a lock that outlives them. */
module Coordinator {
  import opened Bits
  import opened Crypto
  import opened Validators
  import opened Tally

  /** The most recent PRE-VOTE certificate observed at this height. */
  datatype Lock = Lock(block: Bytes, round: nat, polc: Certificate)

  /** What each phase knows.  Voters of an open tally are a bitmap. */
  datatype Stage =
    | NoProposal
    | CollectingPrevotes(block: Bytes, voters: nat)
    | CollectingPrecommits(block: Bytes, polc: Certificate, voters: nat)
    | Done(block: Bytes, polc: Certificate, cert: PrecommitCertificate)

  datatype Coord =
    Coord(height: nat, round: nat, vs: ValidatorSet, seed: Bytes, stage: Stage, locked: Option<Lock>)

  function PhaseOf(s: Stage): Phase {
    match s
    case NoProposal => Phase.AwaitingProposal
    case CollectingPrevotes(_, _) => Phase.Prevoting
    case CollectingPrecommits(_, _, _) => Phase.Precommitting
    case Done(_, _, _) => Phase.Committed
  }

  function NewCoord(height: nat, seed: Bytes, vs: ValidatorSet): Coord {
    Coord(height, 0, vs, seed, NoProposal, None)
  }

  /** `saturating_add(1)` on a `u32`. */
  function NextRound(r: nat): nat {
    if r < U32_MAX then r + 1 else r
  }

  /** The proof is the elected leader's genuine VRF proof for this height, round and seed. */
  predicate ProofOk(prim: Primitives, c: Coord, proof: LeaderProof)
    requires c.vs.Valid()
  {
    var leader := c.vs.validators[LeaderIndex(prim, c.vs, c.height, c.round, c.seed)];
    prim.vrfVerify(leader.vrfKey, c.height, c.round, c.seed, proof.preOutput, proof.proof) == Some(proof.vrfOutput)
  }

  function AfterProposal(prim: Primitives, c: Coord, block: Bytes, proof: LeaderProof): Result<Coord, BftError>
    requires c.vs.Valid()
  {
    if !c.stage.NoProposal? then Err(WrongPhase(Phase.AwaitingProposal, PhaseOf(c.stage)))
    else if !ProofOk(prim, c, proof) then Err(InvalidVrfProof)
    else Ok(c.(stage := CollectingPrevotes(block, 0)))
  }

  function VotedOn(c: Coord, kind: VoteKind): Statement
    requires !c.stage.NoProposal?
  {
    Statement(kind, c.stage.block, c.height, c.round)
  }

  function AfterPrevote(c: Coord, v: Vote): Result<Coord, BftError> {
    if !c.stage.CollectingPrevotes? then Err(WrongPhase(Phase.Prevoting, PhaseOf(c.stage)))
    else
      var st := VotedOn(c, Prevote);
      match VoteError(c.vs, st, c.stage.voters, v)
      case Some(e) => Err(e)
      case None =>
        var voters := SetBit(c.stage.voters, v.index);
        if IsQuorum(c.vs, Members(voters)) then
          var polc := MakeCert(c.vs, st, voters);
          var locked := if c.locked.None? || c.round >= c.locked.value.round
                        then Some(Lock(c.stage.block, c.round, polc)) else c.locked;
          Ok(c.(stage := CollectingPrecommits(c.stage.block, polc, 0), locked := locked))
        else Ok(c.(stage := CollectingPrevotes(c.stage.block, voters)))
  }

  function AfterPrecommit(c: Coord, v: Vote): Result<Coord, BftError> {
    if !c.stage.CollectingPrecommits? then Err(WrongPhase(Phase.Precommitting, PhaseOf(c.stage)))
    else
      var st := VotedOn(c, Precommit);
      match VoteError(c.vs, st, c.stage.voters, v)
      case Some(e) => Err(e)
      case None =>
        var voters := SetBit(c.stage.voters, v.index);
        if IsQuorum(c.vs, Members(voters))
        then Ok(c.(stage := Done(c.stage.block, c.stage.polc, MakeCert(c.vs, st, voters))))
        else Ok(c.(stage := CollectingPrecommits(c.stage.block, c.stage.polc, voters)))
  }

  function AfterVote(c: Coord, kind: VoteKind, v: Vote): Result<Coord, BftError> {
    match kind
    case Prevote => AfterPrevote(c, v)
    case Precommit => AfterPrecommit(c, v)
  }

  function AfterTimeout(c: Coord): Coord {
    if c.stage.Done? then c else c.(round := NextRound(c.round), stage := NoProposal)
  }

  /** The proof is a genuine VRF output, for this height, round and seed, of the validator that holds the draw. */
  predicate ProvesDraw(prim: Primitives, c: Coord, proof: LeaderProof, i: nat)
    requires c.vs.Valid()
  {
    && HoldsDraw(prim, c.vs, c.height, c.round, c.seed, i)
    && prim.vrfVerify(c.vs.validators[i].vrfKey, c.height, c.round, c.seed, proof.preOutput, proof.proof)
       == Some(proof.vrfOutput)
  }

  /** A proposal is accepted if and only if none is held and its proof is that of the validator drawn for exactly
      this height, round and seed; nothing but the proposed block changes. */
  lemma ProposalAcceptedIff(prim: Primitives, c: Coord, block: Bytes, proof: LeaderProof)
    requires c.vs.Valid()
    ensures AfterProposal(prim, c, block, proof).Ok?
       <==> c.stage.NoProposal? && exists i: nat :: ProvesDraw(prim, c, proof, i)
    ensures AfterProposal(prim, c, block, proof).Ok? ==>
      AfterProposal(prim, c, block, proof).value == c.(stage := CollectingPrevotes(block, 0))
  {
    var leader := LeaderIndex(prim, c.vs, c.height, c.round, c.seed);
    LeaderHoldsDraw(prim, c.vs, c.height, c.round, c.seed, leader);
    if ProofOk(prim, c, proof) {
      assert ProvesDraw(prim, c, proof, leader);
    }
    forall i: nat | ProvesDraw(prim, c, proof, i) ensures ProofOk(prim, c, proof) {
      LeaderHoldsDraw(prim, c.vs, c.height, c.round, c.seed, i);
    }
  }

  /** A timeout before the commit opens the next round afresh, whatever the phase; only the lock is carried over. */
  lemma TimeoutOpensNextRound(c: Coord)
    ensures c.stage.Done? ==> AfterTimeout(c) == c
    ensures !c.stage.Done? ==>
      var next := if c.round < U32_MAX then c.round + 1 else c.round;
      AfterTimeout(c) == Coord(c.height, next, c.vs, c.seed, NoProposal, c.locked)
  {
  }

  // ---------------------------------------------------------------------------------------
  // The inductive invariant
  // ---------------------------------------------------------------------------------------

  /** `c` is a verifying certificate for exactly `st`. */
  ghost predicate Certifies(vs: ValidatorSet, c: Certificate, st: Statement) {
    CertOk(vs, c) && StatementOf(c) == st
  }

  ghost predicate OpenTally(vs: ValidatorSet, voters: nat) {
    && (forall i :: i in Members(voters) ==> i < vs.Size())
    && !IsQuorum(vs, Members(voters))
  }

  /** Open tallies are below quorum, every held certificate verifies for its own statement, the
      lock comes from an earlier round until this round forms its own, and from then on is that one
      (the exception is the last representable round, which a timeout restarts). */
  ghost predicate CoordInv(c: Coord) {
    && c.vs.Valid()
    && (c.locked.Some? ==>
      var l := c.locked.value;
      && l.round <= c.round
      && (c.stage.NoProposal? || c.stage.CollectingPrevotes? ==> l.round < c.round || c.round >= U32_MAX)
      && Certifies(c.vs, l.polc, Statement(Prevote, l.block, c.height, l.round)))
    && match c.stage
       case NoProposal => true
       case CollectingPrevotes(block, voters) => OpenTally(c.vs, voters)
       case CollectingPrecommits(block, polc, voters) =>
         && OpenTally(c.vs, voters)
         && Certifies(c.vs, polc, VotedOn(c, Prevote))
         && c.locked == Some(Lock(block, c.round, polc))
       case Done(block, polc, cert) =>
         && Certifies(c.vs, polc, VotedOn(c, Prevote))
         && Certifies(c.vs, cert, VotedOn(c, Precommit))
         && c.locked == Some(Lock(block, c.round, polc))
  }

  lemma EmptyTallyIsOpen(vs: ValidatorSet)
    requires vs.Valid()
    ensures OpenTally(vs, 0)
  {
    ZeroMembers();
    StakeOfNone(vs.validators, {});
  }

  lemma NewCoordInv(height: nat, seed: Bytes, vs: ValidatorSet)
    requires vs.Valid()
    ensures CoordInv(NewCoord(height, seed, vs))
  {
  }

  lemma ProposalKeepsInv(prim: Primitives, c: Coord, block: Bytes, proof: LeaderProof)
    requires CoordInv(c) && AfterProposal(prim, c, block, proof).Ok?
    ensures CoordInv(AfterProposal(prim, c, block, proof).value)
  {
    EmptyTallyIsOpen(c.vs);
  }

  lemma VoteKeepsInv(c: Coord, kind: VoteKind, v: Vote)
    requires CoordInv(c) && AfterVote(c, kind, v).Ok?
    ensures CoordInv(AfterVote(c, kind, v).value)
  {
    SetBitMembers(c.stage.voters, v.index);
    EmptyTallyIsOpen(c.vs);
    var voters := SetBit(c.stage.voters, v.index);
    if IsQuorum(c.vs, Members(voters)) {
      MadeCertVerifies(c.vs, VotedOn(c, kind), voters);
    }
  }

  lemma TimeoutKeepsInv(c: Coord)
    requires CoordInv(c)
    ensures CoordInv(AfterTimeout(c))
  {
  }

  // ---------------------------------------------------------------------------------------
  // Runs
  // ---------------------------------------------------------------------------------------

  datatype Event =
    | Proposed(block: Bytes, proof: LeaderProof)
    | Voted(kind: VoteKind, vote: Vote)
    | TimedOut

  function OrElse(r: Result<Coord, BftError>, c: Coord): Coord {
    if r.Ok? then r.value else c
  }

  function Step(prim: Primitives, c: Coord, e: Event): Coord
    requires c.vs.Valid()
  {
    match e
    case Proposed(block, proof) => OrElse(AfterProposal(prim, c, block, proof), c)
    case Voted(kind, vote) => OrElse(AfterVote(c, kind, vote), c)
    case TimedOut => AfterTimeout(c)
  }

  function Run(prim: Primitives, c: Coord, es: seq<Event>): (d: Coord)
    requires c.vs.Valid()
    ensures d.vs == c.vs && d.height == c.height && d.seed == c.seed
    decreases |es|
  {
    if es == [] then c else Run(prim, Step(prim, c, es[0]), es[1..])
  }

  lemma StepKeepsInv(prim: Primitives, c: Coord, e: Event)
    requires CoordInv(c)
    ensures CoordInv(Step(prim, c, e))
  {
    match e
    case Proposed(block, proof) =>
      if AfterProposal(prim, c, block, proof).Ok? {
        ProposalKeepsInv(prim, c, block, proof);
      }
    case Voted(kind, vote) =>
      if AfterVote(c, kind, vote).Ok? {
        VoteKeepsInv(c, kind, vote);
      }
    case TimedOut =>
  }

  /** The invariant holds after every event sequence. */
  lemma {:induction false} RunKeepsInv(prim: Primitives, c: Coord, es: seq<Event>)
    requires CoordInv(c)
    ensures CoordInv(Run(prim, c, es))
    decreases |es|
  {
    if es != [] {
      StepKeepsInv(prim, c, es[0]);
      RunKeepsInv(prim, Step(prim, c, es[0]), es[1..]);
    }
  }

  /** Once committed, no event changes anything: the certificate is final. */
  lemma {:induction false} CommittedIsAbsorbing(prim: Primitives, c: Coord, es: seq<Event>)
    requires c.vs.Valid() && c.stage.Done?
    ensures Run(prim, c, es) == c
  {
    if es != [] {
      CommittedIsAbsorbing(prim, c, es[1..]);
    }
  }

  /** The round never goes back; a lock, once taken, is kept or replaced by one from a strictly
      later round. */
  lemma {:induction false} RunAdvances(prim: Primitives, c: Coord, es: seq<Event>)
    requires CoordInv(c)
    ensures var d := Run(prim, c, es);
      && c.round <= d.round
      && (c.locked.Some? ==> d.locked.Some? && c.locked.value.round <= d.locked.value.round)
      && (c.locked.Some? && d.round < U32_MAX ==> d.locked == c.locked || c.locked.value.round < d.locked.value.round)
    decreases |es|
  {
    if es != [] {
      StepKeepsInv(prim, c, es[0]);
      RunAdvances(prim, Step(prim, c, es[0]), es[1..]);
    }
  }

  /** However a height was driven, a commit certificate verifies, and the block it finalises is the
      one the surviving lock names, locked in the same round by a verifying PRE-VOTE certificate. */
  lemma CommitMatchesLock(prim: Primitives, height: nat, seed: Bytes, vs: ValidatorSet, es: seq<Event>)
    requires vs.Valid()
    requires Run(prim, NewCoord(height, seed, vs), es).stage.Done?
    ensures var d := Run(prim, NewCoord(height, seed, vs), es);
      var cert := d.stage.cert;
      && CertOk(vs, cert) && cert.kind == Precommit && cert.height == height && cert.round == d.round
      && d.locked.Some?
      && d.locked.value.block == cert.block && d.locked.value.round == cert.round
      && Certifies(vs, d.locked.value.polc, Statement(Prevote, cert.block, height, cert.round))
  {
    NewCoordInv(height, seed, vs);
    RunKeepsInv(prim, NewCoord(height, seed, vs), es);
  }

  // ---------------------------------------------------------------------------------------
  // The coordinator object
  // ---------------------------------------------------------------------------------------

  /** `phase` and the optional fields, as the source stores them.  `Valid` says that the phase fixes
      which of them are set, and that `view` is the abstract state they stand for. */
  class RoundCoordinator {
    const prim: Primitives
    const height: nat
    const vs: ValidatorSet
    const seed: Bytes
    var round: nat
    var phase: Phase
    var proposedBlock: Option<Bytes>
    var prevoteTally: Tallier?
    var precommitTally: Tallier?
    var polc: Option<Certificate>
    var locked: Option<Lock>
    var finalCert: Option<PrecommitCertificate>

    ghost var view: Coord
    ghost var Repr: set<object>

    ghost predicate TallyFor(t: Tallier?, kind: VoteKind)
      reads this, t
    {
      && t != null && proposedBlock.Some?
      && t.Valid() && t.vs == vs && t.statement == Statement(kind, proposedBlock.value, height, round)
    }

    ghost predicate Valid()
      reads this, Repr
      ensures Valid() ==> this in Repr && CoordInv(view)
      ensures Valid() ==> view == Coord(height, round, vs, seed, view.stage, locked) && phase == PhaseOf(view.stage)
      ensures Valid() ==> proposedBlock == (if view.stage.NoProposal? then None else Some(view.stage.block))
      ensures Valid() ==> finalCert == (if view.stage.Done? then Some(view.stage.cert) else None)
    {
      && vs.Valid()
      && this in Repr
      && (prevoteTally != null ==> prevoteTally in Repr)
      && (precommitTally != null ==> precommitTally in Repr)
      && (prevoteTally != null && precommitTally != null ==> prevoteTally != precommitTally)
      && (proposedBlock.None? <==> phase == Phase.AwaitingProposal)
      && (prevoteTally == null <==> phase == Phase.AwaitingProposal)
      && (precommitTally == null <==> phase == Phase.AwaitingProposal || phase == Phase.Prevoting)
      && (polc.None? <==> precommitTally == null)
      && (finalCert.Some? <==> phase == Phase.Committed)
      && (prevoteTally != null ==> TallyFor(prevoteTally, Prevote))
      && (precommitTally != null ==> TallyFor(precommitTally, Precommit))
      && view == Abstraction()
      && CoordInv(view)
    }

    ghost function Abstraction(): Coord
      reads this, prevoteTally, precommitTally
    {
      Coord(height, round, vs, seed,
            if proposedBlock.None? || prevoteTally == null then NoProposal
            else if precommitTally == null || polc.None?
            then CollectingPrevotes(proposedBlock.value, prevoteTally.signerBitmap)
            else if finalCert.None?
            then CollectingPrecommits(proposedBlock.value, polc.value, precommitTally.signerBitmap)
            else Done(proposedBlock.value, polc.value, finalCert.value),
            locked)
    }

    constructor (prim: Primitives, height: nat, seed: Bytes, vs: ValidatorSet)
      requires vs.Valid()
      ensures Valid() && fresh(Repr) && this.prim == prim
      ensures view == NewCoord(height, seed, vs)
    {
      this.prim, this.height, this.seed, this.vs := prim, height, seed, vs;
      round, phase := 0, Phase.AwaitingProposal;
      proposedBlock, prevoteTally, precommitTally := None, null, null;
      polc, locked, finalCert := None, None, None;
      view := NewCoord(height, seed, vs);
      Repr := {this};
    }

    method LeaderIndexNow() returns (i: nat)
      requires Valid()
      ensures i == LeaderIndex(prim, vs, height, round, seed) && HoldsDraw(prim, vs, height, round, seed, i)
    {
      i := SelectLeader(vs, prim.leaderWord(height, round, seed));
      LeaderHoldsDraw(prim, vs, height, round, seed, i);
    }

    method SubmitProposal(block: Bytes, proof: LeaderProof) returns (r: Result<(), BftError>)
      requires Valid()
      modifies Repr
      ensures Valid() && fresh(Repr - old(Repr))
      ensures match AfterProposal(prim, old(view), block, proof)
              case Ok(c) => r == Ok(()) && view == c
              case Err(e) => r == Err(e) && view == old(view)
    {
      hide CoordInv, Tallier.Valid, LeaderIndex, ValidatorSet.Valid;
      if phase != Phase.AwaitingProposal {
        return Err(WrongPhase(Phase.AwaitingProposal, phase));
      }
      var leader := LeaderIndexNow();
      var leaderKey := vs.validators[leader].vrfKey;
      if prim.vrfVerify(leaderKey, height, round, seed, proof.preOutput, proof.proof) != Some(proof.vrfOutput) {
        return Err(InvalidVrfProof);
      }
      OpenPrevotes(block, proof);
      return Ok(());
    }

    /** Hold the block and arm the PRE-VOTE tally. */
    method OpenPrevotes(block: Bytes, ghost proof: LeaderProof)
      requires Valid() && AfterProposal(prim, view, block, proof).Ok?
      modifies this
      ensures Valid() && fresh(Repr - old(Repr))
      ensures view == AfterProposal(prim, old(view), block, proof).value
    {
      hide CoordInv, Tallier.Valid, ProofOk, ValidatorSet.Valid;
      ProposalKeepsInv(prim, view, block, proof);
      proposedBlock := Some(block);
      prevoteTally := new Tallier(Statement(Prevote, block, height, round), vs);
      Repr := Repr + {prevoteTally};
      phase := Phase.Prevoting;
      view := view.(stage := CollectingPrevotes(block, 0));
    }

    method SubmitPrevote(v: Vote) returns (r: Result<(), BftError>)
      requires Valid()
      modifies Repr
      ensures Valid() && fresh(Repr - old(Repr))
      ensures match AfterVote(old(view), Prevote, v)
              case Ok(c) => r == Ok(()) && view == c
              case Err(e) => r == Err(e) && view == old(view)
    {
      hide CoordInv, Tallier.Valid;
      if phase != Phase.Prevoting {
        return Err(WrongPhase(Phase.Prevoting, phase));
      }
      ghost var c := view;
      var state := prevoteTally.Submit(v);
      if state.Err? {
        return Err(state.error);
      }
      if state.value == ReachedQuorum {
        var cert := prevoteTally.TryFinalize();
        EnterPrecommit(cert.value, c, v);
      } else {
        view := AfterVote(c, Prevote, v).value;
        VoteKeepsInv(c, Prevote, v);
      }
      return Ok(());
    }

    /** PRE-VOTE quorum: arm the PRE-COMMIT tally, take the lock, change phase. */
    method EnterPrecommit(cert: Certificate, ghost c: Coord, ghost v: Vote)
      requires phase == Phase.Prevoting && vs.Valid()
      requires precommitTally == null && polc.None? && finalCert.None?
      requires TallyFor(prevoteTally, Prevote) && {this, prevoteTally} <= Repr
      requires CoordInv(c) && c.stage.CollectingPrevotes? && AfterVote(c, Prevote, v).Ok?
      requires c == Coord(height, round, vs, seed, CollectingPrevotes(proposedBlock.value, c.stage.voters), locked)
      requires prevoteTally.signerBitmap == SetBit(c.stage.voters, v.index)
      requires IsQuorum(vs, Members(prevoteTally.signerBitmap))
      requires cert == MakeCert(vs, Statement(Prevote, proposedBlock.value, height, round), prevoteTally.signerBitmap)
      modifies this
      ensures Valid() && fresh(Repr - old(Repr)) && prevoteTally == old(prevoteTally)
      ensures view == AfterVote(c, Prevote, v).value
    {
      hide CoordInv, Tallier.Valid, CertOk, IsQuorum, VoteError, MakeCert;
      VoteKeepsInv(c, Prevote, v);
      var block := proposedBlock.value;
      precommitTally := new Tallier(Statement(Precommit, block, height, round), vs);
      Repr := Repr + {precommitTally};
      if locked.None? || round >= locked.value.round {
        locked := Some(Lock(block, round, cert));
      }
      polc := Some(cert);
      phase := Phase.Precommitting;
      view := AfterVote(c, Prevote, v).value;
    }

    method SubmitPrecommit(v: Vote) returns (r: Result<(), BftError>)
      requires Valid()
      modifies Repr
      ensures Valid() && fresh(Repr - old(Repr))
      ensures match AfterVote(old(view), Precommit, v)
              case Ok(c) => r == Ok(()) && view == c
              case Err(e) => r == Err(e) && view == old(view)
    {
      hide CoordInv, Tallier.Valid;
      if phase != Phase.Precommitting {
        return Err(WrongPhase(Phase.Precommitting, phase));
      }
      ghost var c := view;
      var state := precommitTally.Submit(v);
      if state.Err? {
        return Err(state.error);
      }
      if state.value == ReachedQuorum {
        var cert := precommitTally.TryFinalize();
        Finalize(cert.value, c, v);
      } else {
        view := AfterVote(c, Precommit, v).value;
        VoteKeepsInv(c, Precommit, v);
      }
      return Ok(());
    }

    /** PRE-COMMIT quorum: keep the certificate, change phase. */
    method Finalize(cert: PrecommitCertificate, ghost c: Coord, ghost v: Vote)
      requires phase == Phase.Precommitting && vs.Valid()
      requires prevoteTally != precommitTally && polc.Some? && finalCert.None?
      requires TallyFor(prevoteTally, Prevote) && TallyFor(precommitTally, Precommit)
      requires {this, prevoteTally, precommitTally} <= Repr
      requires CoordInv(c) && c.stage.CollectingPrecommits? && AfterVote(c, Precommit, v).Ok?
      requires c == Coord(height, round, vs, seed,
                          CollectingPrecommits(proposedBlock.value, polc.value, c.stage.voters), locked)
      requires precommitTally.signerBitmap == SetBit(c.stage.voters, v.index)
      requires IsQuorum(vs, Members(precommitTally.signerBitmap))
      requires cert == MakeCert(vs, Statement(Precommit, proposedBlock.value, height, round),
                                precommitTally.signerBitmap)
      modifies this
      ensures Valid() && Repr == old(Repr)
      ensures view == AfterVote(c, Precommit, v).value
    {
      hide CoordInv, Tallier.Valid, CertOk;
      VoteKeepsInv(c, Precommit, v);
      finalCert := Some(cert);
      phase := Phase.Committed;
      view := AfterVote(c, Precommit, v).value;
    }

    method FireTimeout()
      requires Valid()
      modifies this
      ensures Valid() && Repr == old(Repr)
      ensures view == AfterTimeout(old(view))
      ensures old(phase) == Phase.Committed ==> unchanged(this)
      ensures old(phase) != Phase.Committed ==>
        && phase == Phase.AwaitingProposal && round == (if old(round) < U32_MAX then old(round) + 1 else old(round))
        && proposedBlock.None? && prevoteTally == null && precommitTally == null && polc.None? && finalCert.None?
        && locked == old(locked)
    {
      hide CoordInv, Tallier.Valid;
      TimeoutKeepsInv(view);
      if phase == Phase.Committed {
        return;
      }
      round := if round < U32_MAX then round + 1 else round;
      phase := Phase.AwaitingProposal;
      proposedBlock, prevoteTally, precommitTally, polc := None, null, null, None;
      view := AfterTimeout(view);
    }
  }
}
