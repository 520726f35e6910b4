/** What becomes of remote votes: the drain loop stops at a fixpoint and loses nothing silently, and
    the phase reached does not depend on the order in which messages arrive. */
module Delivery {
  import opened Bits
  import opened Crypto
  import opened Validators
  import opened Tally
  import opened Coordinator
  import opened Slashing
  import opened Engine

  function Pending(s: EngineState, kind: VoteKind): seq<Vote> {
    match kind
    case Prevote => s.pendingPrevotes
    case Precommit => s.pendingPrecommits
  }

  /** The validators counted so far in a phase of the current round. */
  function VotersOf(c: Coord, kind: VoteKind): nat {
    match (kind, c.stage)
    case (_, NoProposal) => 0
    case (Prevote, CollectingPrevotes(_, voters)) => voters
    case (Prevote, CollectingPrecommits(_, polc, _)) => polc.signers
    case (Prevote, Done(_, polc, _)) => polc.signers
    case (Precommit, CollectingPrevotes(_, _)) => 0
    case (Precommit, CollectingPrecommits(_, _, voters)) => voters
    case (Precommit, Done(_, _, cert)) => cert.signers
  }

  // ---------------------------------------------------------------------------------------
  // The drain loop stops at a fixpoint
  // ---------------------------------------------------------------------------------------

  /** The coordinator rejects the vote for phase, round or height. */
  predicate Waits(c: Coord, kind: VoteKind, v: Vote) {
    var r := AfterVote(c, kind, v);
    r.Err? && (r.error.WrongPhase? || r.error == WrongRound || r.error == WrongHeight)
  }

  /** A vote waits exactly while the coordinator does not collect votes of its kind, or is for the block held but
      at another height or round. */
  lemma WaitsMeans(c: Coord, kind: VoteKind, v: Vote)
    ensures Waits(c, kind, v) <==>
      var collecting := if kind.Prevote? then c.stage.CollectingPrevotes? else c.stage.CollectingPrecommits?;
      !collecting || (v.block == c.stage.block && (v.height != c.height || v.round != c.round))
  {
  }

  /** Nothing buffered is stale, and nothing buffered can be counted or refused yet. */
  ghost predicate AtFixpoint(s: EngineState) {
    && s.coord.Some?
    && forall kind, v :: v in Pending(s, kind) ==> v.height > s.headNumber && Waits(s.coord.value, kind, v)
  }

  lemma {:induction false} IdleFeed(c: Coord, kind: VoteKind, votes: seq<Vote>)
    requires !Feed(c, kind, votes).applied
    ensures Feed(c, kind, votes).coord == c
    ensures forall v :: v in Feed(c, kind, votes).leftover ==> v in votes && Waits(c, kind, v)
  {
    if votes != [] {
      IdleFeed(c, kind, votes[..|votes| - 1]);
    }
  }

  lemma {:induction false} DrainReachesFixpoint(s: EngineState)
    requires s.coord.Some?
    ensures AtFixpoint(Drain(s))
    decreases |s.pendingPrevotes| + |s.pendingPrecommits|
  {
    var t := DropStale(s);
    var (u, applied) := DrainPass(t);
    if applied {
      DrainReachesFixpoint(u);
    } else {
      IdleFeed(t.coord.value, Prevote, t.pendingPrevotes);
      IdleFeed(t.coord.value, Precommit, t.pendingPrecommits);
      forall kind, v | v in Pending(u, kind) ensures v.height > u.headNumber && Waits(u.coord.value, kind, v) {
        match kind
        case Prevote =>
        case Precommit =>
      }
    }
  }

  // ---------------------------------------------------------------------------------------
  // ... and every vote is accounted for
  // ---------------------------------------------------------------------------------------

  /** The vote's validator is in the tally for the vote's own block, height and round. */
  predicate Counted(c: Coord, kind: VoteKind, v: Vote) {
    && !c.stage.NoProposal?
    && v.block == c.stage.block && v.height == c.height && v.round == c.round
    && Bit(VotersOf(c, kind), v.index)
  }

  /** The vote is for another block than the proposed one, or not a genuine vote at all. */
  predicate Refused(c: Coord, kind: VoteKind, v: Vote) {
    && !c.stage.NoProposal?
    && !Supports(c.vs, Statement(kind, c.stage.block, v.height, v.round), v)
  }

  /** Counting more votes keeps the round and its block, and only adds voters. */
  ghost predicate Grows(c: Coord, d: Coord) {
    && Continues(c, d)
    && forall kind :: Members(VotersOf(c, kind)) <= Members(VotersOf(d, kind))
  }

  lemma VoteGrows(c: Coord, kind: VoteKind, v: Vote)
    requires CoordInv(c) && AfterVote(c, kind, v).Ok?
    ensures Grows(c, AfterVote(c, kind, v).value)
    ensures Counted(AfterVote(c, kind, v).value, kind, v)
    ensures Members(VotersOf(AfterVote(c, kind, v).value, kind)) == Members(VotersOf(c, kind)) + {v.index}
  {
    var d := AfterVote(c, kind, v).value;
    VoteContinues(c, kind, v);
    SetBitMembers(c.stage.voters, v.index);
    ZeroMembers();
    assert v.index in Members(VotersOf(d, kind));
    forall k ensures Members(VotersOf(c, k)) <= Members(VotersOf(d, k)) {
      match k
      case Prevote =>
      case Precommit =>
    }
  }

  lemma GrowsKeepsVerdict(c: Coord, d: Coord, kind: VoteKind, v: Vote)
    requires Grows(c, d)
    ensures Counted(c, kind, v) ==> Counted(d, kind, v)
    ensures Refused(c, kind, v) ==> Refused(d, kind, v)
  {
    if Counted(c, kind, v) {
      assert v.index in Members(VotersOf(c, kind));
      assert v.index in Members(VotersOf(d, kind));
    }
  }

  lemma GrowsTransitive(a: Coord, b: Coord, c: Coord)
    requires Grows(a, b) && Grows(b, c)
    ensures Grows(a, c)
  {
  }

  /** A rejection for any other reason than phase, round or height means the vote was counted
      before or is refused for good. */
  lemma RejectionVerdict(c: Coord, kind: VoteKind, v: Vote)
    requires AfterVote(c, kind, v).Err? && !Retriable(AfterVote(c, kind, v).error)
    ensures Counted(c, kind, v) || Refused(c, kind, v)
  {
  }

  lemma {:induction false} FeedAccounts(c: Coord, kind: VoteKind, votes: seq<Vote>)
    requires CoordInv(c)
    ensures var f := Feed(c, kind, votes);
      && Grows(c, f.coord)
      && forall v :: v in votes ==> v in f.leftover || Counted(f.coord, kind, v) || Refused(f.coord, kind, v)
  {
    if votes != [] {
      var init, last := votes[..|votes| - 1], votes[|votes| - 1];
      FeedAccounts(c, kind, init);
      var e, f := Feed(c, kind, init), Feed(c, kind, votes);
      if AfterVote(e.coord, kind, last).Ok? {
        VoteGrows(e.coord, kind, last);
        GrowsTransitive(c, e.coord, f.coord);
      } else if !Waits(e.coord, kind, last) {
        RejectionVerdict(e.coord, kind, last);
      }
      forall v | v in votes ensures v in f.leftover || Counted(f.coord, kind, v) || Refused(f.coord, kind, v) {
        if v in init && v !in e.leftover {
          if AfterVote(e.coord, kind, last).Ok? {
            GrowsKeepsVerdict(e.coord, f.coord, kind, v);
          }
        }
      }
    }
  }

  /** Every buffered vote is still buffered, or its height is committed, or it is counted, or it can
      never be counted in this round. */
  lemma {:induction false} DrainAccounts(s: EngineState, kind: VoteKind, v: Vote)
    requires s.coord.Some? && CoordInv(s.coord.value) && v in Pending(s, kind)
    ensures Drain(s).coord.Some? && Grows(s.coord.value, Drain(s).coord.value)
    ensures v in Pending(Drain(s), kind) || v.height <= s.headNumber
      || Counted(Drain(s).coord.value, kind, v) || Refused(Drain(s).coord.value, kind, v)
    decreases |s.pendingPrevotes| + |s.pendingPrecommits|
  {
    DrainGrows(s);
    var t := DropStale(s);
    if v.height > s.headNumber {
      var f := Feed(t.coord.value, Prevote, t.pendingPrevotes);
      FeedAccounts(t.coord.value, Prevote, t.pendingPrevotes);
      FeedAccounts(f.coord, Precommit, t.pendingPrecommits);
      var (u, applied) := DrainPass(t);
      GrowsKeepsVerdict(f.coord, u.coord.value, kind, v);
      if applied {
        DrainGrows(u);
        GrowsKeepsVerdict(u.coord.value, Drain(u).coord.value, kind, v);
        if v in Pending(u, kind) {
          DrainAccounts(u, kind, v);
        }
      }
    }
  }

  lemma {:induction false} DrainGrows(s: EngineState)
    requires s.coord.Some? && CoordInv(s.coord.value)
    ensures Drain(s).coord.Some? && Grows(s.coord.value, Drain(s).coord.value)
    decreases |s.pendingPrevotes| + |s.pendingPrecommits|
  {
    var t := DropStale(s);
    var f := Feed(t.coord.value, Prevote, t.pendingPrevotes);
    FeedAccounts(t.coord.value, Prevote, t.pendingPrevotes);
    FeedAccounts(f.coord, Precommit, t.pendingPrecommits);
    var (u, applied) := DrainPass(t);
    GrowsTransitive(s.coord.value, f.coord, u.coord.value);
    if applied {
      DrainGrows(u);
      GrowsTransitive(s.coord.value, u.coord.value, Drain(u).coord.value);
    }
  }

  /** The account of one vote after a step. */
  ghost predicate Accounted(t: EngineState, head: nat, kind: VoteKind, v: Vote) {
    || v in Pending(t, kind)
    || v.height <= head
    || (t.coord.Some? && (Counted(t.coord.value, kind, v) || Refused(t.coord.value, kind, v)))
  }

  /** A vote that arrives, and every vote that was waiting when it did, is afterwards still waiting, or its
      height is committed, or it is counted, or it can never be counted in this round. */
  lemma RemoteVoteAccounts(prim: Primitives, s: EngineState, kind: VoteKind, v: Vote, k: VoteKind, w: Vote)
    requires EngineInv(prim, s) && ((k == kind && w == v) || w in Pending(s, k))
    ensures Accounted(RemoteVote(s, kind, v).0, s.headNumber, k, w)
  {
    hide Drain, Counted, Refused, Grows, CoordInv, Record;
    var t := Recorded(s, kind, v);
    if v.height > s.headNumber && t.coord.Some? {
      var r := AfterVote(t.coord.value, kind, v);
      if r.Ok? {
        VoteGrows(t.coord.value, kind, v);
        VoteKeepsInv(t.coord.value, kind, v);
        var u := t.(coord := Some(r.value));
        DrainGrows(u);
        GrowsKeepsVerdict(r.value, Drain(u).coord.value, kind, v);
        if w in Pending(u, k) {
          DrainAccounts(u, k, w);
        }
      } else if !Retriable(r.error) {
        RejectionVerdict(t.coord.value, kind, v);
      }
    }
  }

  // ---------------------------------------------------------------------------------------
  // Delivery order does not matter
  // ---------------------------------------------------------------------------------------

  /** The phase that two sets of voters call for. */
  function PhaseFor(vs: ValidatorSet, prevoters: set<nat>, precommitters: set<nat>): Phase {
    if !IsQuorum(vs, prevoters) then Phase.Prevoting
    else if !IsQuorum(vs, precommitters) then Phase.Precommitting
    else Phase.Committed
  }

  /** Votes of this kind can still be counted in this round, now or later. */
  predicate Open(c: Coord, kind: VoteKind) {
    match kind
    case Prevote => c.stage.CollectingPrevotes?
    case Precommit => !c.stage.Done?
  }

  /** Counted and buffered supporters together are exactly `heard`; after the tally closed, those
      counted are among them. */
  ghost predicate Covers(c: Coord, kind: VoteKind, votes: seq<Vote>, heard: set<nat>)
    requires !c.stage.NoProposal?
  {
    if Open(c, kind) then Members(VotersOf(c, kind)) + Supporters(c.vs, VotedOn(c, kind), votes) == heard
    else Members(VotersOf(c, kind)) <= heard
  }

  lemma SupportersAppend(vs: ValidatorSet, st: Statement, votes: seq<Vote>, more: seq<Vote>)
    ensures Supporters(vs, st, votes + more) == Supporters(vs, st, votes) + Supporters(vs, st, more)
  {
    forall i | i in Supporters(vs, st, votes + more) ensures i in Supporters(vs, st, votes) + Supporters(vs, st, more) {
      var v :| v in votes + more && Supports(vs, st, v) && v.index == i;
      assert v in votes || v in more;
    }
    forall i | i in Supporters(vs, st, votes) + Supporters(vs, st, more) ensures i in Supporters(vs, st, votes + more) {
      var v :| (v in votes || v in more) && Supports(vs, st, v) && v.index == i;
      assert v in votes + more;
    }
  }

  lemma SupportersNone(vs: ValidatorSet, st: Statement)
    ensures Supporters(vs, st, []) == {}
  {
  }

  lemma SupportersOne(vs: ValidatorSet, st: Statement, v: Vote)
    ensures Supporters(vs, st, [v]) == if Supports(vs, st, v) then {v.index} else {}
  {
  }

  /** One submission: a supporter is counted, waits, or was already counted. */
  lemma SubmitCovers(c: Coord, kind: VoteKind, votes: seq<Vote>, heard: set<nat>, v: Vote)
    requires CoordInv(c) && !c.stage.NoProposal? && Covers(c, kind, votes, heard)
    ensures var all := heard + Supporters(c.vs, VotedOn(c, kind), [v]);
      var r := AfterVote(c, kind, v);
      if r.Ok? then !r.value.stage.NoProposal? && Covers(r.value, kind, votes, all)
      else Covers(c, kind, if Retriable(r.error) then votes + [v] else votes, all)
  {
    var st := VotedOn(c, kind);
    var r := AfterVote(c, kind, v);
    SupportersOne(c.vs, st, v);
    if r.Ok? {
      CountedVoteCovers(c, kind, votes, heard, v);
    } else {
      hide Supporters, AfterVote;
      if Retriable(r.error) {
        SupportersAppend(c.vs, st, votes, [v]);
      } else {
        RejectionVerdict(c, kind, v);
        if Supports(c.vs, st, v) {
          assert v.index in Members(VotersOf(c, kind));
        }
      }
    }
  }

  lemma CountedVoteCovers(c: Coord, kind: VoteKind, votes: seq<Vote>, heard: set<nat>, v: Vote)
    requires CoordInv(c) && !c.stage.NoProposal? && Covers(c, kind, votes, heard)
    requires AfterVote(c, kind, v).Ok?
    ensures Supports(c.vs, VotedOn(c, kind), v)
    ensures !AfterVote(c, kind, v).value.stage.NoProposal?
    ensures Covers(AfterVote(c, kind, v).value, kind, votes, heard + {v.index})
  {
    hide Supporters, CoordInv, CertOk;
    VoteGrows(c, kind, v);
  }

  /** Votes of one kind do not disturb the account of the other. */
  lemma SubmitCoversOther(c: Coord, kind: VoteKind, other: VoteKind, votes: seq<Vote>, heard: set<nat>, v: Vote)
    requires CoordInv(c) && !c.stage.NoProposal? && kind != other
    requires Covers(c, other, votes, heard) && AfterVote(c, kind, v).Ok?
    ensures !AfterVote(c, kind, v).value.stage.NoProposal? && Covers(AfterVote(c, kind, v).value, other, votes, heard)
  {
    VoteContinues(c, kind, v);
    ZeroMembers();
    match kind
    case Prevote =>
    case Precommit =>
  }

  lemma {:induction false} FeedCovers(c: Coord, kind: VoteKind, votes: seq<Vote>, heard: set<nat>)
    requires CoordInv(c) && !c.stage.NoProposal? && Covers(c, kind, [], heard)
    ensures var f := Feed(c, kind, votes);
      && CoordInv(f.coord) && Continues(c, f.coord)
      && Covers(f.coord, kind, f.leftover, heard + Supporters(c.vs, VotedOn(c, kind), votes))
  {
    hide CoordInv, Covers, Supporters;
    var st := VotedOn(c, kind);
    if votes == [] {
      SupportersNone(c.vs, st);
      assert heard + {} == heard;
    } else {
      var init, last := votes[..|votes| - 1], votes[|votes| - 1];
      FeedCovers(c, kind, init, heard);
      FeedContinues(c, kind, votes);
      var e := Feed(c, kind, init);
      var sofar := heard + Supporters(c.vs, st, init);
      SubmitCovers(e.coord, kind, e.leftover, sofar, last);
      SupportersAppend(c.vs, st, init, [last]);
      assert init + [last] == votes;
      assert sofar + Supporters(c.vs, st, [last]) == heard + Supporters(c.vs, st, votes);
    }
  }

  lemma {:induction false} FeedCoversOther(c: Coord, kind: VoteKind, other: VoteKind, votes: seq<Vote>,
                                           rest: seq<Vote>, heard: set<nat>)
    requires CoordInv(c) && !c.stage.NoProposal? && kind != other && Covers(c, other, rest, heard)
    ensures Continues(c, Feed(c, kind, votes).coord) && Covers(Feed(c, kind, votes).coord, other, rest, heard)
  {
    FeedContinues(c, kind, votes);
    if votes != [] {
      var init, last := votes[..|votes| - 1], votes[|votes| - 1];
      FeedContinues(c, kind, init);
      FeedCoversOther(c, kind, other, init, rest, heard);
      if AfterVote(Feed(c, kind, init).coord, kind, last).Ok? {
        SubmitCoversOther(Feed(c, kind, init).coord, kind, other, rest, heard, last);
      }
    }
  }

  /** Feeding the whole buffer keeps the account of its own kind. */
  lemma FeedBufferCovers(c: Coord, kind: VoteKind, votes: seq<Vote>, heard: set<nat>)
    requires CoordInv(c) && !c.stage.NoProposal? && Covers(c, kind, votes, heard)
    ensures var f := Feed(c, kind, votes); Continues(c, f.coord) && Covers(f.coord, kind, f.leftover, heard)
  {
    var st := VotedOn(c, kind);
    assert Supporters(c.vs, st, []) == {};
    var counted := Members(VotersOf(c, kind));
    FeedCovers(c, kind, votes, counted);
    if !Open(c, kind) {
      FeedClosed(c, kind, votes);
    }
  }

  /** Once the phase is past, every late vote of that kind just waits. */
  lemma {:induction false} FeedClosed(c: Coord, kind: VoteKind, votes: seq<Vote>)
    requires !c.stage.NoProposal? && !Open(c, kind)
    ensures Feed(c, kind, votes).coord == c
  {
    if votes != [] {
      FeedClosed(c, kind, votes[..|votes| - 1]);
    }
  }

  /** The state accounts for everything heard for its current block. */
  ghost predicate Tracks(s: EngineState, prevoters: set<nat>, precommitters: set<nat>) {
    && s.coord.Some? && CoordInv(s.coord.value) && !s.coord.value.stage.NoProposal?
    && s.coord.value.height > s.headNumber
    && Covers(s.coord.value, Prevote, s.pendingPrevotes, prevoters)
    && Covers(s.coord.value, Precommit, s.pendingPrecommits, precommitters)
  }

  lemma NotStaleSupporters(vs: ValidatorSet, st: Statement, votes: seq<Vote>, head: nat)
    requires st.height > head
    ensures Supporters(vs, st, NotStale(votes, head)) == Supporters(vs, st, votes)
  {
  }

  lemma {:induction false} DrainTracks(s: EngineState, prevoters: set<nat>, precommitters: set<nat>)
    requires Tracks(s, prevoters, precommitters)
    ensures Tracks(Drain(s), prevoters, precommitters)
    decreases |s.pendingPrevotes| + |s.pendingPrecommits|
  {
    var t := DropStale(s);
    var c := s.coord.value;
    NotStaleSupporters(c.vs, VotedOn(c, Prevote), s.pendingPrevotes, s.headNumber);
    NotStaleSupporters(c.vs, VotedOn(c, Precommit), s.pendingPrecommits, s.headNumber);
    var f := Feed(c, Prevote, t.pendingPrevotes);
    FeedBufferCovers(c, Prevote, t.pendingPrevotes, prevoters);
    FeedCoversOther(c, Prevote, Precommit, t.pendingPrevotes, t.pendingPrecommits, precommitters);
    FeedBufferCovers(f.coord, Precommit, t.pendingPrecommits, precommitters);
    FeedCoversOther(f.coord, Precommit, Prevote, t.pendingPrecommits, f.leftover, prevoters);
    var (u, applied) := DrainPass(t);
    if applied {
      DrainTracks(u, prevoters, precommitters);
    }
  }

  /** At a fixpoint, no supporter of the phase in progress is left waiting. */
  lemma NoSupporterWaits(s: EngineState, kind: VoteKind)
    requires AtFixpoint(s) && !s.coord.value.stage.NoProposal?
    requires match kind
             case Prevote => s.coord.value.stage.CollectingPrevotes?
             case Precommit => s.coord.value.stage.CollectingPrecommits?
    ensures Supporters(s.coord.value.vs, VotedOn(s.coord.value, kind), Pending(s, kind)) == {}
  {
    var c := s.coord.value;
    forall v | v in Pending(s, kind) ensures !Supports(c.vs, VotedOn(c, kind), v) {
      assert Waits(c, kind, v);
    }
  }

  /** Where accounting and fixpoint meet, the phase is the one the two stake sums call for. */
  lemma TracksDecidesPhase(s: EngineState, prevoters: set<nat>, precommitters: set<nat>)
    requires Tracks(s, prevoters, precommitters) && AtFixpoint(s)
    ensures PhaseOf(s.coord.value.stage) == PhaseFor(s.coord.value.vs, prevoters, precommitters)
  {
    var c := s.coord.value;
    match c.stage
    case CollectingPrevotes(_, voters) =>
      NoSupporterWaits(s, Prevote);
      assert Members(voters) == prevoters;
    case CollectingPrecommits(_, polc, voters) =>
      NoSupporterWaits(s, Precommit);
      assert Members(voters) == precommitters;
      StakeMonotone(c.vs.validators, Members(polc.signers), prevoters);
    case Done(_, polc, cert) =>
      StakeMonotone(c.vs.validators, Members(polc.signers), prevoters);
      StakeMonotone(c.vs.validators, Members(cert.signers), precommitters);
  }

  // Deliveries of one round: any interleaving of remote proposals and votes.

  datatype Delivery =
    | DeliverProposal(proposal: Proposal)
    | DeliverVote(kind: VoteKind, vote: Vote)

  function Deliver(prim: Primitives, s: EngineState, d: Delivery): EngineState
    requires ActiveCoord(s).vs.Valid()
  {
    match d
    case DeliverProposal(p) => RemoteProposal(prim, s, p).0
    case DeliverVote(kind, v) => RemoteVote(s, kind, v).0
  }

  lemma DeliverKeepsInv(prim: Primitives, s: EngineState, d: Delivery)
    requires EngineInv(prim, s)
    ensures ActiveCoord(s).vs.Valid() && EngineInv(prim, Deliver(prim, s, d))
  {
    match d
    case DeliverProposal(p) => RemoteProposalKeepsInv(prim, s, p);
    case DeliverVote(kind, v) => ActiveCoordInv(prim, s); RemoteVoteKeepsInv(prim, s, kind, v);
  }

  ghost function DeliverAll(prim: Primitives, s: EngineState, ds: seq<Delivery>): (t: EngineState)
    requires EngineInv(prim, s)
    ensures EngineInv(prim, t)
  {
    if ds == [] then s
    else
      var t := DeliverAll(prim, s, ds[..|ds| - 1]);
      DeliverKeepsInv(prim, t, ds[|ds| - 1]);
      Deliver(prim, t, ds[|ds| - 1])
  }

  function VotesIn(ds: seq<Delivery>, kind: VoteKind): seq<Vote> {
    if ds == [] then []
    else
      var rest := VotesIn(ds[..|ds| - 1], kind);
      var d := ds[|ds| - 1];
      if d.DeliverVote? && d.kind == kind then rest + [d.vote] else rest
  }

  /** Everything the engine has been told, buffered before or delivered now. */
  function Heard(s: EngineState, ds: seq<Delivery>, kind: VoteKind): seq<Vote> {
    Pending(s, kind) + VotesIn(ds, kind)
  }

  /** Hash of the first proposal carrying the elected leader's proof. */
  function FirstValid(prim: Primitives, c: Coord, ds: seq<Delivery>): Option<Bytes>
    requires c.vs.Valid()
  {
    if ds == [] then None
    else
      var before := FirstValid(prim, c, ds[..|ds| - 1]);
      var d := ds[|ds| - 1];
      if before.None? && d.DeliverProposal? && ProofOk(prim, c, d.proposal.proof)
      then Some(HashOf(prim, d.proposal.block)) else before
  }

  /** No proposal has been accepted in the round the engine is in. */
  predicate AwaitsProposal(s: EngineState) {
    s.coord.None? || s.coord.value.stage.NoProposal?
  }

  /** The invariant along a delivery sequence that started from `s`. */
  ghost predicate DeliveryInv(prim: Primitives, s: EngineState, ds: seq<Delivery>, t: EngineState, b: Bytes)
    requires ActiveCoord(s).vs.Valid()
  {
    var c := ActiveCoord(s);
    match FirstValid(prim, c, ds)
    case None =>
      && AwaitsProposal(t) && ActiveCoord(t) == c && t.headNumber == s.headNumber
      && forall kind ::
           Supporters(c.vs, Statement(kind, b, c.height, c.round), Pending(t, kind))
           == Supporters(c.vs, Statement(kind, b, c.height, c.round), Heard(s, ds, kind))
    case Some(hash) =>
      hash == b ==>
        && t.coord.Some? && t.headNumber == s.headNumber
        && var d := t.coord.value;
           && d.vs == c.vs && d.height == c.height && d.round == c.round
           && !d.stage.NoProposal? && d.stage.block == b
           && AtFixpoint(t)
           && Tracks(t, Supporters(c.vs, Statement(Prevote, b, c.height, c.round), Heard(s, ds, Prevote)),
                        Supporters(c.vs, Statement(Precommit, b, c.height, c.round), Heard(s, ds, Precommit)))
  }

  function Plus(s: set<nat>, chosen: bool, more: set<nat>): set<nat> {
    if chosen then s + more else s
  }

  /** Before a proposal is accepted every vote that is not stale is buffered. */
  lemma EarlyVoteIsBuffered(prim: Primitives, s: EngineState, kind: VoteKind, v: Vote)
    requires EngineInv(prim, s) && AwaitsProposal(s)
    ensures var t := RemoteVote(s, kind, v).0;
      && t == s.(detector := t.detector, evidence := t.evidence,
                 pendingPrevotes := t.pendingPrevotes, pendingPrecommits := t.pendingPrecommits)
      && forall k :: Pending(t, k) == Pending(s, k) + (if k == kind && v.height > s.headNumber then [v] else [])
  {
    forall k ensures Pending(RemoteVote(s, kind, v).0, k)
                  == Pending(s, k) + (if k == kind && v.height > s.headNumber then [v] else []) {
      match kind
      case Prevote =>
      case Precommit =>
    }
  }

  /** A vote arriving after the proposal keeps account and fixpoint. */
  lemma LateVoteTracks(s: EngineState, prevoters: set<nat>, precommitters: set<nat>, kind: VoteKind, v: Vote)
    requires Tracks(s, prevoters, precommitters) && AtFixpoint(s)
    ensures var one := Supporters(s.coord.value.vs, VotedOn(s.coord.value, kind), [v]);
      var t := RemoteVote(s, kind, v).0;
      && AtFixpoint(t) && t.headNumber == s.headNumber && Continues(s.coord.value, t.coord.value)
      && Tracks(t, Plus(prevoters, kind.Prevote?, one), Plus(precommitters, kind.Precommit?, one))
  {
    var c := s.coord.value;
    var one := Supporters(c.vs, VotedOn(c, kind), [v]);
    SupportersOne(c.vs, VotedOn(c, kind), v);
    var r := Recorded(s, kind, v);
    var p, q := Plus(prevoters, kind.Prevote?, one), Plus(precommitters, kind.Precommit?, one);
    var t := RemoteVote(s, kind, v).0;
    if v.height <= s.headNumber {
      assert one == {};
      assert forall k :: Pending(t, k) == Pending(s, k);
    } else {
      SubmitCovers(c, kind, Pending(s, kind), if kind.Prevote? then prevoters else precommitters, v);
      if AfterVote(c, kind, v).Ok? {
        CountedVoteTracks(r, prevoters, precommitters, kind, v);
      } else {
        WaitingVoteFixpoint(s, t, kind, v);
      }
    }
  }

  lemma CountedVoteTracks(s: EngineState, prevoters: set<nat>, precommitters: set<nat>, kind: VoteKind, v: Vote)
    requires Tracks(s, prevoters, precommitters) && AfterVote(s.coord.value, kind, v).Ok?
    ensures var one := Supporters(s.coord.value.vs, VotedOn(s.coord.value, kind), [v]);
      var t := Drain(s.(coord := Some(AfterVote(s.coord.value, kind, v).value)));
      && AtFixpoint(t) && t.headNumber == s.headNumber && Continues(s.coord.value, t.coord.value)
      && Tracks(t, Plus(prevoters, kind.Prevote?, one), Plus(precommitters, kind.Precommit?, one))
  {
    var c := s.coord.value;
    var one := Supporters(c.vs, VotedOn(c, kind), [v]);
    var u := s.(coord := Some(AfterVote(c, kind, v).value));
    VoteContinues(c, kind, v);
    match kind {
      case Prevote =>
        SubmitCovers(c, Prevote, s.pendingPrevotes, prevoters, v);
        SubmitCoversOther(c, Prevote, Precommit, s.pendingPrecommits, precommitters, v);
      case Precommit =>
        SubmitCovers(c, Precommit, s.pendingPrecommits, precommitters, v);
        SubmitCoversOther(c, Precommit, Prevote, s.pendingPrevotes, prevoters, v);
    }
    DrainTracks(u, Plus(prevoters, kind.Prevote?, one), Plus(precommitters, kind.Precommit?, one));
    DrainReachesFixpoint(u);
    DrainContinues(u);
  }

  lemma WaitingVoteFixpoint(s: EngineState, t: EngineState, kind: VoteKind, v: Vote)
    requires AtFixpoint(s) && AfterVote(s.coord.value, kind, v).Err? && v.height > s.headNumber
    requires t == RemoteVote(s, kind, v).0
    ensures AtFixpoint(t) && t.coord == s.coord && t.headNumber == s.headNumber
    ensures forall k ::
      Pending(t, k) == Pending(s, k)
        + (if k == kind && Retriable(AfterVote(s.coord.value, kind, v).error) then [v] else [])
  {
    hide AfterVote;
    var c := s.coord.value;
    forall k ensures Pending(t, k) == Pending(s, k)
                  + (if k == kind && Retriable(AfterVote(c, kind, v).error) then [v] else []) {
      match kind
      case Prevote =>
      case Precommit =>
    }
    forall k, w | w in Pending(t, k) ensures w.height > t.headNumber && Waits(c, k, w) {
      assert w in Pending(s, k) || (w == v && k == kind && Waits(c, kind, v));
    }
  }

  /** Accepting the proposal counts everything buffered for its block. */
  lemma ProposalStartsTracking(prim: Primitives, s: EngineState, p: Proposal)
    requires EngineInv(prim, s) && AwaitsProposal(s) && ActiveCoord(s).vs.Valid()
    requires ProofOk(prim, ActiveCoord(s), p.proof)
    ensures var c := ActiveCoord(s);
      var b := HashOf(prim, p.block);
      var t := RemoteProposal(prim, s, p).0;
      && AtFixpoint(t) && t.headNumber == s.headNumber
      && t.coord.value.vs == c.vs && t.coord.value.height == c.height && t.coord.value.round == c.round
      && !t.coord.value.stage.NoProposal? && t.coord.value.stage.block == b
      && Tracks(t, Supporters(c.vs, Statement(Prevote, b, c.height, c.round), s.pendingPrevotes),
                   Supporters(c.vs, Statement(Precommit, b, c.height, c.round), s.pendingPrecommits))
  {
    var c := ActiveCoord(s);
    var b := HashOf(prim, p.block);
    ActiveCoordInv(prim, s);
    ProposalKeepsInv(prim, c, b, p.proof);
    ZeroMembers();
    var u := s.(coord := Some(AfterProposal(prim, c, b, p.proof).value), proposal := Some(p));
    DrainTracks(u, Supporters(c.vs, Statement(Prevote, b, c.height, c.round), s.pendingPrevotes),
                   Supporters(c.vs, Statement(Precommit, b, c.height, c.round), s.pendingPrecommits));
    DrainReachesFixpoint(u);
    DrainContinues(u);
  }

  /** What one more delivery adds to the supporters heard. */
  lemma HeardSnoc(s: EngineState, ds: seq<Delivery>, vs: ValidatorSet, st: Statement)
    requires ds != []
    ensures var d := ds[|ds| - 1];
      Supporters(vs, st, Heard(s, ds, st.kind)) ==
      Plus(Supporters(vs, st, Heard(s, ds[..|ds| - 1], st.kind)), d.DeliverVote? && d.kind == st.kind,
           if d.DeliverVote? then Supporters(vs, st, [d.vote]) else {})
  {
    var init, d := ds[..|ds| - 1], ds[|ds| - 1];
    if d.DeliverVote? && d.kind == st.kind {
      assert Heard(s, ds, st.kind) == Heard(s, init, st.kind) + [d.vote];
      SupportersAppend(vs, st, Heard(s, init, st.kind), [d.vote]);
    }
  }

  lemma {:induction false} DeliveryInvHolds(prim: Primitives, s: EngineState, ds: seq<Delivery>, b: Bytes)
    requires EngineInv(prim, s) && AwaitsProposal(s) && ActiveCoord(s).vs.Valid()
    ensures DeliveryInv(prim, s, ds, DeliverAll(prim, s, ds), b)
  {
    var c := ActiveCoord(s);
    ActiveCoordInv(prim, s);
    if ds == [] {
      assert forall kind :: Heard(s, ds, kind) == Pending(s, kind);
    } else {
      var init, d := ds[..|ds| - 1], ds[|ds| - 1];
      DeliveryInvHolds(prim, s, init, b);
      var t := DeliverAll(prim, s, init);
      HeardSnoc(s, ds, c.vs, Statement(Prevote, b, c.height, c.round));
      HeardSnoc(s, ds, c.vs, Statement(Precommit, b, c.height, c.round));
      match FirstValid(prim, c, init)
      case None => FirstDelivery(prim, s, ds, t, b);
      case Some(hash) =>
        if hash == b && d.DeliverVote? {
          LateVoteTracks(t, Supporters(c.vs, Statement(Prevote, b, c.height, c.round), Heard(s, init, Prevote)),
                            Supporters(c.vs, Statement(Precommit, b, c.height, c.round), Heard(s, init, Precommit)),
                         d.kind, d.vote);
        }
    }
  }

  /** The step while no proposal has been accepted. */
  lemma FirstDelivery(prim: Primitives, s: EngineState, ds: seq<Delivery>, t: EngineState, b: Bytes)
    requires EngineInv(prim, s) && AwaitsProposal(s) && ActiveCoord(s).vs.Valid() && ds != []
    requires EngineInv(prim, t) && ActiveCoord(s).height == s.headNumber + 1
    requires FirstValid(prim, ActiveCoord(s), ds[..|ds| - 1]).None? && DeliveryInv(prim, s, ds[..|ds| - 1], t, b)
    ensures ActiveCoord(t).vs.Valid() && DeliveryInv(prim, s, ds, Deliver(prim, t, ds[|ds| - 1]), b)
  {
    hide DeliveryInv, Deliver, FirstValid;
    match ds[|ds| - 1]
    case DeliverProposal(p) => FirstProposal(prim, s, ds, t, b, p);
    case DeliverVote(kind, v) => EarlyVote(prim, s, ds, t, b, kind, v);
  }

  lemma FirstProposal(prim: Primitives, s: EngineState, ds: seq<Delivery>, t: EngineState, b: Bytes, p: Proposal)
    requires EngineInv(prim, s) && AwaitsProposal(s) && ActiveCoord(s).vs.Valid()
    requires EngineInv(prim, t) && ActiveCoord(s).height == s.headNumber + 1
    requires ds != [] && ds[|ds| - 1] == DeliverProposal(p)
    requires FirstValid(prim, ActiveCoord(s), ds[..|ds| - 1]).None? && DeliveryInv(prim, s, ds[..|ds| - 1], t, b)
    ensures ActiveCoord(t).vs.Valid() && DeliveryInv(prim, s, ds, Deliver(prim, t, DeliverProposal(p)), b)
  {
    hide Drain, Supporters, ProofOk;
    var c := ActiveCoord(s);
    HeardSnoc(s, ds, c.vs, Statement(Prevote, b, c.height, c.round));
    HeardSnoc(s, ds, c.vs, Statement(Precommit, b, c.height, c.round));
    if ProofOk(prim, c, p.proof) {
      ProposalStartsTracking(prim, t, p);
    }
  }

  lemma EarlyVote(prim: Primitives, s: EngineState, ds: seq<Delivery>, t: EngineState, b: Bytes, kind: VoteKind,
                  v: Vote)
    requires EngineInv(prim, s) && AwaitsProposal(s) && ActiveCoord(s).vs.Valid()
    requires EngineInv(prim, t) && ActiveCoord(s).height == s.headNumber + 1
    requires ds != [] && ds[|ds| - 1] == DeliverVote(kind, v)
    requires FirstValid(prim, ActiveCoord(s), ds[..|ds| - 1]).None? && DeliveryInv(prim, s, ds[..|ds| - 1], t, b)
    ensures ActiveCoord(t).vs.Valid() && DeliveryInv(prim, s, ds, Deliver(prim, t, DeliverVote(kind, v)), b)
  {
    hide RemoteVote, Supporters, ProofOk;
    var c := ActiveCoord(s);
    HeardSnoc(s, ds, c.vs, Statement(Prevote, b, c.height, c.round));
    HeardSnoc(s, ds, c.vs, Statement(Precommit, b, c.height, c.round));
    EarlyVoteIsBuffered(prim, t, kind, v);
    forall k ensures Supporters(c.vs, Statement(k, b, c.height, c.round), Pending(RemoteVote(t, kind, v).0, k))
                  == Supporters(c.vs, Statement(k, b, c.height, c.round), Heard(s, ds, k)) {
      EarlyVoteHeard(t, RemoteVote(t, kind, v).0, c, Statement(k, b, c.height, c.round), kind, v);
    }
  }

  lemma EarlyVoteHeard(t: EngineState, u: EngineState, c: Coord, st: Statement, kind: VoteKind, v: Vote)
    requires st.height > t.headNumber
    requires Pending(u, st.kind) == Pending(t, st.kind)
          + (if st.kind == kind && v.height > t.headNumber then [v] else [])
    ensures Supporters(c.vs, st, Pending(u, st.kind))
         == Plus(Supporters(c.vs, st, Pending(t, st.kind)), kind == st.kind, Supporters(c.vs, st, [v]))
  {
    SupportersOne(c.vs, st, v);
    if st.kind == kind && v.height > t.headNumber {
      SupportersAppend(c.vs, st, Pending(t, st.kind), [v]);
    } else {
      assert Pending(u, st.kind) == Pending(t, st.kind);
    }
  }

  /** For every interleaving of remote proposals and votes, valid or not, repeated or not, votes for
      other blocks included: once some proposal is valid the first such one is the round's block, and
      the phase reached is decided by who genuinely pre-voted and who genuinely pre-committed it. */
  lemma PhaseAfterDeliveries(prim: Primitives, s: EngineState, ds: seq<Delivery>)
    requires EngineInv(prim, s) && AwaitsProposal(s) && ActiveCoord(s).vs.Valid()
    requires FirstValid(prim, ActiveCoord(s), ds).Some?
    ensures var c := ActiveCoord(s);
      var b := FirstValid(prim, c, ds).value;
      var t := DeliverAll(prim, s, ds);
      && t.coord.Some? && !t.coord.value.stage.NoProposal? && t.coord.value.stage.block == b
      && PhaseOf(t.coord.value.stage) ==
         PhaseFor(c.vs, Supporters(c.vs, Statement(Prevote, b, c.height, c.round), Heard(s, ds, Prevote)),
                        Supporters(c.vs, Statement(Precommit, b, c.height, c.round), Heard(s, ds, Precommit)))
  {
    var c := ActiveCoord(s);
    var b := FirstValid(prim, c, ds).value;
    DeliveryInvHolds(prim, s, ds, b);
    TracksDecidesPhase(DeliverAll(prim, s, ds),
                       Supporters(c.vs, Statement(Prevote, b, c.height, c.round), Heard(s, ds, Prevote)),
                       Supporters(c.vs, Statement(Precommit, b, c.height, c.round), Heard(s, ds, Precommit)));
  }

  lemma {:induction false} VotesInMembers(ds: seq<Delivery>, kind: VoteKind, v: Vote)
    ensures v in VotesIn(ds, kind) <==> DeliverVote(kind, v) in ds
  {
    if ds != [] {
      VotesInMembers(ds[..|ds| - 1], kind, v);
      assert ds == ds[..|ds| - 1] + [ds[|ds| - 1]];
    }
  }

  lemma {:induction false} FirstValidIsDelivered(prim: Primitives, c: Coord, ds: seq<Delivery>)
    requires c.vs.Valid()
    ensures FirstValid(prim, c, ds).Some? <==> exists p :: DeliverProposal(p) in ds && ProofOk(prim, c, p.proof)
    ensures FirstValid(prim, c, ds).Some? ==>
      exists p ::
        DeliverProposal(p) in ds && ProofOk(prim, c, p.proof) && FirstValid(prim, c, ds).value == HashOf(prim, p.block)
  {
    if ds != [] {
      var init, d := ds[..|ds| - 1], ds[|ds| - 1];
      FirstValidIsDelivered(prim, c, init);
      assert ds == init + [d];
      if d.DeliverProposal? {
        assert DeliverProposal(d.proposal) in ds;
      }
    }
  }

  /** Two sequences with the same messages, in any order and multiplicity, whose valid proposals agree
      on one block, reach the same phase for that block. */
  lemma DeliveryOrderIrrelevant(prim: Primitives, s: EngineState, ds: seq<Delivery>, es: seq<Delivery>, b: Bytes)
    requires EngineInv(prim, s) && AwaitsProposal(s) && ActiveCoord(s).vs.Valid()
    requires forall d :: d in ds <==> d in es
    requires exists p :: DeliverProposal(p) in ds && ProofOk(prim, ActiveCoord(s), p.proof)
    requires forall p ::
      DeliverProposal(p) in ds && ProofOk(prim, ActiveCoord(s), p.proof) ==> HashOf(prim, p.block) == b
    ensures var t, u := DeliverAll(prim, s, ds), DeliverAll(prim, s, es);
      && t.coord.Some? && u.coord.Some?
      && !t.coord.value.stage.NoProposal? && !u.coord.value.stage.NoProposal?
      && t.coord.value.stage.block == u.coord.value.stage.block == b
      && PhaseOf(t.coord.value.stage) == PhaseOf(u.coord.value.stage)
  {
    var c := ActiveCoord(s);
    FirstValidIsDelivered(prim, c, ds);
    FirstValidIsDelivered(prim, c, es);
    PhaseAfterDeliveries(prim, s, ds);
    PhaseAfterDeliveries(prim, s, es);
    forall kind ensures Supporters(c.vs, Statement(kind, b, c.height, c.round), Heard(s, ds, kind))
                     == Supporters(c.vs, Statement(kind, b, c.height, c.round), Heard(s, es, kind)) {
      forall v ensures v in Heard(s, ds, kind) <==> v in Heard(s, es, kind) {
        VotesInMembers(ds, kind, v);
        VotesInMembers(es, kind, v);
      }
    }
  }
}
