/** Equivocation detection, and the accountability it gives when two certificates conflict. */
module Slashing {
  import opened Bits
  import opened Crypto
  import opened Validators
  import opened Tally

  /** Votes are deduplicated by validator, height and round, separately for each phase. */
  datatype Slot = Slot(index: nat, height: nat, round: nat)

  /** First vote seen in each slot. */
  datatype Detector = Detector(prevotes: map<Slot, Vote>, precommits: map<Slot, Vote>)

  datatype Evidence = Evidence(kind: VoteKind, first: Vote, second: Vote)

  datatype SlashingError =
    | SameBlock
    | MismatchedIndex
    | MismatchedHeight
    | MismatchedRound
    | UnknownValidator(index: nat)
    | InvalidSignature

  function SlotOf(v: Vote): Slot {
    Slot(v.index, v.height, v.round)
  }

  function Seen(d: Detector, kind: VoteKind): map<Slot, Vote> {
    match kind
    case Prevote => d.prevotes
    case Precommit => d.precommits
  }

  function Remember(d: Detector, kind: VoteKind, v: Vote): Detector {
    match kind
    case Prevote => d.(prevotes := d.prevotes[SlotOf(v) := v])
    case Precommit => d.(precommits := d.precommits[SlotOf(v) := v])
  }

  /** Detector after recording a vote, and the evidence returned. */
  function Record(d: Detector, kind: VoteKind, v: Vote): (Detector, Option<Evidence>) {
    var seen := Seen(d, kind);
    if SlotOf(v) !in seen then (Remember(d, kind, v), None)
    else if seen[SlotOf(v)].block != v.block then (d, Some(Evidence(kind, seen[SlotOf(v)], v)))
    else (d, None)
  }

  function SlashingErrorOf(vs: ValidatorSet, e: Evidence): Option<SlashingError> {
    var a, b := e.first, e.second;
    if a.index != b.index then Some(MismatchedIndex)
    else if a.height != b.height then Some(MismatchedHeight)
    else if a.round != b.round then Some(MismatchedRound)
    else if a.block == b.block then Some(SameBlock)
    else if a.index >= vs.Size() then Some(UnknownValidator(a.index))
    else
      var key := vs.validators[a.index].blsKey;
      if Verifies(a.sig, Statement(e.kind, a.block, a.height, a.round), key)
         && Verifies(b.sig, Statement(e.kind, b.block, b.height, b.round), key)
      then None else Some(InvalidSignature)
  }

  predicate Slashable(vs: ValidatorSet, e: Evidence) {
    SlashingErrorOf(vs, e) == None
  }

  // ---------------------------------------------------------------------------------------
  // Recording runs
  // ---------------------------------------------------------------------------------------

  const EMPTY_DETECTOR := Detector(map[], map[])

  datatype Recording = Recording(kind: VoteKind, vote: Vote)

  function RecordAll(d: Detector, rs: seq<Recording>): (Detector, seq<Evidence>) {
    if rs == [] then (d, [])
    else
      var (before, reports) := RecordAll(d, rs[..|rs| - 1]);
      var r := rs[|rs| - 1];
      var (after, report) := Record(before, r.kind, r.vote);
      (after, if report.Some? then reports + [report.value] else reports)
  }

  predicate Conflict(r: Recording, s: Recording) {
    r.kind == s.kind && SlotOf(r.vote) == SlotOf(s.vote) && r.vote.block != s.vote.block
  }

  predicate Fills(r: Recording, kind: VoteKind, slot: Slot) {
    r.kind == kind && SlotOf(r.vote) == slot
  }

  /** Recording `i` is the first for its slot. */
  ghost predicate FirstFor(rs: seq<Recording>, i: nat, kind: VoteKind, slot: Slot) {
    && i < |rs| && Fills(rs[i], kind, slot)
    && forall j :: 0 <= j < i ==> !Fills(rs[j], kind, slot)
  }

  /** After any recordings the detector holds, per slot, the vote that was recorded first. */
  lemma {:induction false} FirstVoteIsKept(rs: seq<Recording>, kind: VoteKind, slot: Slot)
    ensures var seen := Seen(RecordAll(EMPTY_DETECTOR, rs).0, kind);
      && (slot in seen ==> exists i: nat :: FirstFor(rs, i, kind, slot) && rs[i].vote == seen[slot])
      && (forall r :: r in rs && Fills(r, kind, slot) ==> slot in seen)
  {
    if rs != [] {
      var init := rs[..|rs| - 1];
      FirstVoteIsKept(init, kind, slot);
      assert rs == init + [rs[|rs| - 1]];
      var before := Seen(RecordAll(EMPTY_DETECTOR, init).0, kind);
      if slot in before {
        var i: nat :| FirstFor(init, i, kind, slot) && init[i].vote == before[slot];
        assert FirstFor(rs, i, kind, slot);
      } else if Fills(rs[|rs| - 1], kind, slot) {
        assert forall j :: 0 <= j < |init| ==> init[j] in init;
        assert FirstFor(rs, |rs| - 1, kind, slot);
      }
    }
  }

  lemma SeenIsRecorded(rs: seq<Recording>, kind: VoteKind, slot: Slot)
    ensures var seen := Seen(RecordAll(EMPTY_DETECTOR, rs).0, kind);
      && (slot in seen ==> SlotOf(seen[slot]) == slot && Recording(kind, seen[slot]) in rs)
      && (forall r :: r in rs && r.kind == kind && SlotOf(r.vote) == slot ==> slot in seen)
  {
    hide RecordAll;
    FirstVoteIsKept(rs, kind, slot);
    var seen := Seen(RecordAll(EMPTY_DETECTOR, rs).0, kind);
    forall r | r in rs && r.kind == kind && SlotOf(r.vote) == slot ensures slot in seen {
      assert Fills(r, kind, slot);
    }
  }

  /** Every report names two recorded votes of one slot that differ in their block, and conversely
      any two such recordings, however far apart, cause a report for their slot. */
  lemma {:induction false} DetectorIsExact(rs: seq<Recording>)
    ensures var reports := RecordAll(EMPTY_DETECTOR, rs).1;
      && (forall e :: e in reports ==>
           && Recording(e.kind, e.first) in rs && Recording(e.kind, e.second) in rs
           && Conflict(Recording(e.kind, e.first), Recording(e.kind, e.second)))
      && (forall r, s :: r in rs && s in rs && Conflict(r, s) ==>
           exists e :: e in reports && e.kind == r.kind && SlotOf(e.first) == SlotOf(r.vote))
  {
    if rs != [] {
      var init, last := rs[..|rs| - 1], rs[|rs| - 1];
      assert rs == init + [last];
      DetectorIsExact(init);
      SeenIsRecorded(init, last.kind, SlotOf(last.vote));
      forall r, s | r in rs && s in rs && Conflict(r, s)
        ensures exists e ::
          e in RecordAll(EMPTY_DETECTOR, rs).1 && e.kind == r.kind && SlotOf(e.first) == SlotOf(r.vote)
      {
        LastConflict(rs, r, s);
      }
    }
  }

  /** The step of `DetectorIsExact` for one conflicting pair. */
  lemma LastConflict(rs: seq<Recording>, r: Recording, s: Recording)
    requires rs != [] && r in rs && s in rs && Conflict(r, s)
    requires forall p, q :: p in rs[..|rs| - 1] && q in rs[..|rs| - 1] && Conflict(p, q) ==>
      exists e ::
        && e in RecordAll(EMPTY_DETECTOR, rs[..|rs| - 1]).1
        && e.kind == p.kind && SlotOf(e.first) == SlotOf(p.vote)
    ensures exists e :: e in RecordAll(EMPTY_DETECTOR, rs).1 && e.kind == r.kind && SlotOf(e.first) == SlotOf(r.vote)
  {
    var init, last := rs[..|rs| - 1], rs[|rs| - 1];
    assert rs == init + [last];
    var (before, reports) := RecordAll(EMPTY_DETECTOR, init);
    if r in init && s in init {
      var e :| e in reports && e.kind == r.kind && SlotOf(e.first) == SlotOf(r.vote);
      assert e in RecordAll(EMPTY_DETECTOR, rs).1;
    } else {
      var other := if r == last then s else r;
      assert other in init && Conflict(other, last);
      var slot := SlotOf(last.vote);
      SeenIsRecorded(init, last.kind, slot);
      var first := Seen(before, last.kind)[slot];
      if first.block == last.vote.block {
        assert Conflict(other, Recording(last.kind, first));
        var e :| e in reports && e.kind == other.kind && SlotOf(e.first) == SlotOf(other.vote);
        assert e in RecordAll(EMPTY_DETECTOR, rs).1;
      } else {
        assert Evidence(last.kind, first, last.vote) in RecordAll(EMPTY_DETECTOR, rs).1;
      }
    }
  }

  /** The recording is a genuine vote of a validator in the set. */
  predicate Genuine(vs: ValidatorSet, r: Recording) {
    Supports(vs, Statement(r.kind, r.vote.block, r.vote.height, r.vote.round), r.vote)
  }

  /** Evidence passes verification exactly if it is two genuine votes of one validator, in one phase, for one height
      and round, that name different blocks. */
  lemma SlashableIff(vs: ValidatorSet, e: Evidence)
    ensures Slashable(vs, e) <==>
      var r, s := Recording(e.kind, e.first), Recording(e.kind, e.second);
      Genuine(vs, r) && Genuine(vs, s) && Conflict(r, s)
  {
  }

  /** Recording `j` conflicts with recording `i`, the first of its slot. */
  ghost predicate Breaks(rs: seq<Recording>, i: nat, j: nat, kind: VoteKind, slot: Slot) {
    && FirstFor(rs, i, kind, slot)
    && i < j < |rs| && Conflict(rs[i], rs[j])
  }

  ghost predicate Reports(rs: seq<Recording>, i: nat, j: nat, e: Evidence) {
    && Breaks(rs, i, j, e.kind, SlotOf(e.first))
    && rs[i].vote == e.first && rs[j].vote == e.second
  }

  /** The reports are exactly the pairs of a slot's first recording and a later one that conflicts with it. */
  lemma {:induction false} ReportsAreBreaks(rs: seq<Recording>, e: Evidence)
    ensures e in RecordAll(EMPTY_DETECTOR, rs).1 <==> exists i: nat, j: nat :: Reports(rs, i, j, e)
  {
    if rs != [] {
      var init, last := rs[..|rs| - 1], rs[|rs| - 1];
      ReportsAreBreaks(init, e);
      LastReport(rs);
      if exists i: nat, j: nat :: Reports(init, i, j, e) {
        var i: nat, j: nat :| Reports(init, i, j, e);
        assert Reports(rs, i, j, e);
      }
      if exists i: nat, j: nat :: Reports(rs, i, j, e) {
        var i: nat, j: nat :| Reports(rs, i, j, e);
        if j < |init| {
          assert Reports(init, i, j, e);
        } else {
          assert FirstFor(init, i, last.kind, SlotOf(last.vote));
        }
      }
    }
  }

  /** What the last recording adds. */
  lemma LastReport(rs: seq<Recording>)
    requires rs != []
    ensures var init, last := rs[..|rs| - 1], rs[|rs| - 1];
      var before, after := RecordAll(EMPTY_DETECTOR, init).1, RecordAll(EMPTY_DETECTOR, rs).1;
      && (after == before || exists i: nat ::
            && i < |rs| && Reports(rs, i, |rs| - 1, Evidence(last.kind, rs[i].vote, last.vote))
            && after == before + [Evidence(last.kind, rs[i].vote, last.vote)])
      && (forall i: nat :: FirstFor(init, i, last.kind, SlotOf(last.vote)) && init[i].vote.block != last.vote.block
            ==> after == before + [Evidence(last.kind, init[i].vote, last.vote)])
  {
    var init, last := rs[..|rs| - 1], rs[|rs| - 1];
    var slot := SlotOf(last.vote);
    FirstVoteIsKept(init, last.kind, slot);
    var seen := Seen(RecordAll(EMPTY_DETECTOR, init).0, last.kind);
    forall i: nat | FirstFor(init, i, last.kind, slot) ensures slot in seen && seen[slot] == init[i].vote {
      assert init[i] in init;
      var k: nat :| FirstFor(init, k, last.kind, slot) && init[k].vote == seen[slot];
      assert k == i;
    }
    if slot in seen && seen[slot].block != last.vote.block {
      var i: nat :| FirstFor(init, i, last.kind, slot) && init[i].vote == seen[slot];
      assert FirstFor(rs, i, last.kind, slot);
      assert Reports(rs, i, |rs| - 1, Evidence(last.kind, rs[i].vote, last.vote));
    }
  }

  ghost predicate Convicted(vs: ValidatorSet, rs: seq<Recording>, kind: VoteKind, slot: Slot) {
    exists e :: e in RecordAll(EMPTY_DETECTOR, rs).1 && e.kind == kind && SlotOf(e.first) == slot && Slashable(vs, e)
  }

  /** The first recording for a slot and a later conflicting one are both genuine. */
  ghost predicate Proves(vs: ValidatorSet, rs: seq<Recording>, i: nat, j: nat, kind: VoteKind, slot: Slot) {
    Breaks(rs, i, j, kind, slot) && Genuine(vs, rs[i]) && Genuine(vs, rs[j])
  }

  /** Recorded votes convict a validator for a slot if and only if the vote recorded first for that slot is
      genuine and a later genuine one names another block. */
  lemma ConvictedIff(vs: ValidatorSet, rs: seq<Recording>, kind: VoteKind, slot: Slot)
    ensures Convicted(vs, rs, kind, slot) <==> exists i: nat, j: nat :: Proves(vs, rs, i, j, kind, slot)
  {
    hide RecordAll;
    if Convicted(vs, rs, kind, slot) {
      var e :| e in RecordAll(EMPTY_DETECTOR, rs).1 && e.kind == kind && SlotOf(e.first) == slot && Slashable(vs, e);
      ReportsAreBreaks(rs, e);
      var i: nat, j: nat :| Reports(rs, i, j, e);
      assert Proves(vs, rs, i, j, kind, slot);
    }
    if exists i: nat, j: nat :: Proves(vs, rs, i, j, kind, slot) {
      var i: nat, j: nat :| Proves(vs, rs, i, j, kind, slot);
      var e := Evidence(kind, rs[i].vote, rs[j].vote);
      assert Reports(rs, i, j, e);
      ReportsAreBreaks(rs, e);
      assert Slashable(vs, e);
    }
  }

  /** A forged vote recorded first masks a real equivocation: the two genuine votes after it would convict
      their validator, but no report does. */
  lemma ForgedFirstVoteMasks(vs: ValidatorSet, kind: VoteKind, forged: Vote, a: Vote, b: Vote)
    requires !Genuine(vs, Recording(kind, forged)) && Genuine(vs, Recording(kind, a)) && Genuine(vs, Recording(kind, b))
    requires SlotOf(forged) == SlotOf(a) == SlotOf(b) && a.block != b.block
    ensures Slashable(vs, Evidence(kind, a, b))
    ensures !Convicted(vs, [Recording(kind, forged), Recording(kind, a), Recording(kind, b)], kind, SlotOf(a))
  {
    hide Convicted;
    var rs := [Recording(kind, forged), Recording(kind, a), Recording(kind, b)];
    ConvictedIff(vs, rs, kind, SlotOf(a));
    assert Fills(rs[0], kind, SlotOf(a));
  }

  /** A vote that its validator never signed is reported all the same, and convicts nobody. */
  lemma UnsignedVotesAreReported(vs: ValidatorSet, kind: VoteKind, forged: Vote, v: Vote)
    requires !Genuine(vs, Recording(kind, forged)) && SlotOf(forged) == SlotOf(v) && forged.block != v.block
    ensures var reports := RecordAll(EMPTY_DETECTOR, [Recording(kind, forged), Recording(kind, v)]).1;
      reports == [Evidence(kind, forged, v)] && !Slashable(vs, reports[0])
  {
    var rs := [Recording(kind, forged), Recording(kind, v)];
    assert rs[..1] == [Recording(kind, forged)] && rs[..1][..0] == [];
    assert RecordAll(EMPTY_DETECTOR, rs[..1]) == (Remember(EMPTY_DETECTOR, kind, forged), []);
  }

  // ---------------------------------------------------------------------------------------
  // Accountable safety
  // ---------------------------------------------------------------------------------------

  /** The statements conflict: same phase, height and round, different blocks. */
  predicate Opposed(st: Statement, tt: Statement) {
    st.kind == tt.kind && st.height == tt.height && st.round == tt.round && st.block != tt.block
  }

  /** Two verifying certificates for opposed statements name common signers with more than a third of the
      stake.  Each of them signed both, and any two of its votes for the two statements are slashable.
      No assumption on who is faulty is needed. */
  lemma AccountableSafety(vs: ValidatorSet, c: Certificate, d: Certificate)
    requires vs.Valid() && DoublingFits(vs)
    requires CertOk(vs, c) && CertOk(vs, d) && Opposed(StatementOf(c), StatementOf(d))
    ensures var guilty := Members(c.signers) * Members(d.signers);
      && 3 * StakeOf(vs.validators, guilty) > vs.totalStake
      && forall i :: i in guilty ==>
           && i < vs.Size()
           && (vs.validators[i].blsKey, StatementOf(c)) in c.sig.parts
           && (vs.validators[i].blsKey, StatementOf(d)) in d.sig.parts
    ensures forall a, b ::
      Supports(vs, StatementOf(c), a) && Supports(vs, StatementOf(d), b) && a.index == b.index
      ==> Slashable(vs, Evidence(c.kind, a, b))
  {
    var guilty := Members(c.signers) * Members(d.signers);
    QuorumIntersection(vs, Members(c.signers), Members(d.signers));
    forall i | i in guilty
      ensures i < vs.Size()
      ensures (vs.validators[i].blsKey, StatementOf(c)) in c.sig.parts
      ensures (vs.validators[i].blsKey, StatementOf(d)) in d.sig.parts
    {
      CertSignersSigned(vs, c, i);
      CertSignersSigned(vs, d, i);
    }
  }

  predicate VotesAgainst(vs: ValidatorSet, kind: VoteKind, a: Vote, b: Vote, i: nat) {
    a.index == b.index == i && Slashable(vs, Evidence(kind, a, b))
  }

  /** The evidence exists: if two tallies of any submitted votes reach quorums for opposed statements, more than a
      third of the stake belongs to validators with a submitted vote in each tally that together are slashable. */
  lemma TalliedVotesConvict(vs: ValidatorSet, st: Statement, votes: seq<Vote>, tt: Statement, votes': seq<Vote>)
    requires vs.Valid() && DoublingFits(vs) && Opposed(st, tt)
    requires CertOk(vs, MakeCert(vs, st, TallyAll(vs, st, votes)))
    requires CertOk(vs, MakeCert(vs, tt, TallyAll(vs, tt, votes')))
    ensures var guilty := Supporters(vs, st, votes) * Supporters(vs, tt, votes');
      && 3 * StakeOf(vs.validators, guilty) > vs.totalStake
      && forall i :: i in guilty ==> exists a, b :: a in votes && b in votes' && VotesAgainst(vs, st.kind, a, b, i)
  {
    var c, d := MakeCert(vs, st, TallyAll(vs, st, votes)), MakeCert(vs, tt, TallyAll(vs, tt, votes'));
    TallyCountsSupporters(vs, st, votes);
    TallyCountsSupporters(vs, tt, votes');
    AccountableSafety(vs, c, d);
    forall i | i in Supporters(vs, st, votes) * Supporters(vs, tt, votes')
      ensures exists a, b :: a in votes && b in votes' && VotesAgainst(vs, st.kind, a, b, i)
    {
      var a :| a in votes && Supports(vs, st, a) && a.index == i;
      var b :| b in votes' && Supports(vs, tt, b) && b.index == i;
      assert VotesAgainst(vs, st.kind, a, b, i);
    }
  }

  /** An observer that recorded both tallies' votes, and whose first recording for each slot is genuine,
      convicts every one of those validators. */
  lemma ObserverConvicts(vs: ValidatorSet, st: Statement, votes: seq<Vote>, tt: Statement, votes': seq<Vote>,
                         rs: seq<Recording>, index: nat)
    requires Opposed(st, tt)
    requires index in Supporters(vs, st, votes) * Supporters(vs, tt, votes')
    requires forall v :: v in votes ==> Recording(st.kind, v) in rs
    requires forall v :: v in votes' ==> Recording(tt.kind, v) in rs
    requires forall i: nat :: FirstFor(rs, i, st.kind, Slot(index, st.height, st.round)) ==> Genuine(vs, rs[i])
    ensures Convicted(vs, rs, st.kind, Slot(index, st.height, st.round))
  {
    hide Convicted, Slashable, FirstFor;
    var a :| a in votes && Supports(vs, st, a) && a.index == index;
    var b :| b in votes' && Supports(vs, tt, b) && b.index == index;
    var i := PositionOf(rs, Recording(st.kind, a));
    var j := PositionOf(rs, Recording(tt.kind, b));
    TwoGenuineVotesConvict(vs, rs, i, j, st.kind, Slot(index, st.height, st.round));
  }

  lemma TwoGenuineVotesConvict(vs: ValidatorSet, rs: seq<Recording>, i: nat, j: nat, kind: VoteKind, slot: Slot)
    requires i < |rs| && Fills(rs[i], kind, slot) && Genuine(vs, rs[i])
    requires j < |rs| && Fills(rs[j], kind, slot) && Genuine(vs, rs[j])
    requires rs[i].vote.block != rs[j].vote.block
    requires forall k: nat :: FirstFor(rs, k, kind, slot) ==> Genuine(vs, rs[k])
    ensures Convicted(vs, rs, kind, slot)
  {
    hide Convicted, Genuine;
    var k := EarliestFor(rs, i, kind, slot);
    var later := if rs[k].vote.block == rs[i].vote.block then j else i;
    assert later >= k;
    assert Proves(vs, rs, k, later, kind, slot);
    ConvictedIff(vs, rs, kind, slot);
  }

  lemma PositionOf(rs: seq<Recording>, r: Recording) returns (i: nat)
    requires r in rs
    ensures i < |rs| && rs[i] == r
  {
    i :| i < |rs| && rs[i] == r;
  }

  lemma {:induction false} EarliestFor(rs: seq<Recording>, i: nat, kind: VoteKind, slot: Slot) returns (k: nat)
    requires i < |rs| && Fills(rs[i], kind, slot)
    ensures k <= i && FirstFor(rs, k, kind, slot)
  {
    k := 0;
    while !Fills(rs[k], kind, slot)
      invariant k <= i && forall j :: 0 <= j < k ==> !Fills(rs[j], kind, slot)
      decreases i - k
    {
      k := k + 1;
    }
  }

  // ---------------------------------------------------------------------------------------
  // The detector object
  // ---------------------------------------------------------------------------------------

  class EquivocationDetector {
    var seenPrevote: map<Slot, Vote>
    var seenPrecommit: map<Slot, Vote>

    ghost function View(): Detector
      reads this
    {
      Detector(seenPrevote, seenPrecommit)
    }

    constructor ()
      ensures View() == EMPTY_DETECTOR
    {
      seenPrevote, seenPrecommit := map[], map[];
    }

    method RecordPrevote(v: Vote) returns (r: Option<Evidence>)
      modifies this
      ensures (View(), r) == Record(old(View()), Prevote, v)
    {
      var key := SlotOf(v);
      if key in seenPrevote {
        var prior := seenPrevote[key];
        if prior.block != v.block {
          return Some(Evidence(Prevote, prior, v));
        }
        return None;
      }
      seenPrevote := seenPrevote[key := v];
      return None;
    }

    method RecordPrecommit(v: Vote) returns (r: Option<Evidence>)
      modifies this
      ensures (View(), r) == Record(old(View()), Precommit, v)
    {
      var key := SlotOf(v);
      if key in seenPrecommit {
        var prior := seenPrecommit[key];
        if prior.block != v.block {
          return Some(Evidence(Precommit, prior, v));
        }
        return None;
      }
      seenPrecommit := seenPrecommit[key := v];
      return None;
    }
  }
}
