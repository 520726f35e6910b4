/** The engine as the mutable object of the source. */
module EngineObject {
  import opened Bits
  import opened Crypto
  import opened Validators
  import opened Tally
  import opened Coordinator
  import opened Slashing
  import opened Engine

  /** Replay buffered votes into a coordinator, in order. */
  method FeedVotes(coord: RoundCoordinator, kind: VoteKind, votes: seq<Vote>)
    returns (leftover: seq<Vote>, applied: bool)
    requires coord.Valid()
    modifies coord.Repr
    ensures coord.Valid() && fresh(coord.Repr - old(coord.Repr))
    ensures Fed(coord.view, leftover, applied) == Feed(old(coord.view), kind, votes)
  {
    hide RoundCoordinator.Valid, AfterVote;
    leftover, applied := [], false;
    assert votes[..|votes|] == votes;
    for i := 0 to |votes|
      invariant coord.Valid() && fresh(coord.Repr - old(coord.Repr))
      invariant Fed(coord.view, leftover, applied) == Feed(old(coord.view), kind, votes[..i])
    {
      assert votes[..i + 1][..i] == votes[..i];
      var r: Result<(), BftError>;
      match kind {
        case Prevote => r := coord.SubmitPrevote(votes[i]);
        case Precommit => r := coord.SubmitPrecommit(votes[i]);
      }
      if r.Ok? {
        applied := true;
      } else if Retriable(r.error) {
        leftover := leftover + [votes[i]];
      }
    }
  }

  /** Insert, then evict the lowest height while there are too many. */
  method CacheRecentBlock(m: map<nat, CommittedBlock>, b: Block, cert: PrecommitCertificate)
    returns (r: map<nat, CommittedBlock>)
    ensures r == Cached(m, b, cert)
  {
    r := m[b.header.number := CommittedBlock(b, cert)];
    while |r| > RECENT_BLOCKS_CAP
      invariant KeepHighest(r) == Cached(m, b, cert)
      decreases |r|
    {
      var oldest := LowestHeight(r);
      EvictionKeepsHighest(r, oldest);
      r := map k | k in r && k != oldest :: r[k];
    }
    SmallMapIsKept(r);
  }

  method LowestHeight<T>(m: map<nat, T>) returns (low: nat)
    requires m != map[]
    ensures low in m && forall k :: k in m ==> low <= k
  {
    low :| low in m;
    var rest := m.Keys - {low};
    while rest != {}
      invariant low in m && rest <= m.Keys
      invariant forall k :: k in m && k !in rest ==> low <= k
      decreases |rest|
    {
      var k :| k in rest;
      if k < low {
        low := k;
      }
      rest := rest - {k};
    }
  }

  /** Fewer entries than the cap are all kept. */
  lemma SmallMapIsKept<T>(m: map<nat, T>)
    requires |m| <= RECENT_BLOCKS_CAP
    ensures KeepHighest(m) == m
  {
    forall k | k in m ensures |HeightsAbove(m, k)| < RECENT_BLOCKS_CAP {
      SubsetSize(HeightsAbove(m, k) + {k}, m.Keys);
    }
  }

  lemma SubsetSize(s: set<nat>, t: set<nat>)
    requires s <= t
    ensures |s| <= |t|
  {
    assert |t - s| == |t| - |s| by {
      assert t == s + (t - s);
    }
  }

  /** Dropping the lowest height of an oversized map does not change which entries are highest. */
  lemma EvictionKeepsHighest<T>(m: map<nat, T>, low: nat)
    requires |m| > RECENT_BLOCKS_CAP && low in m && forall k :: k in m ==> low <= k
    ensures var n := map k | k in m && k != low :: m[k];
      KeepHighest(n) == KeepHighest(m) && |n| == |m| - 1
  {
    var n := map k | k in m && k != low :: m[k];
    assert n.Keys == m.Keys - {low};
    assert HeightsAbove(m, low) == m.Keys - {low};
    forall k | k in n ensures HeightsAbove(n, k) == HeightsAbove(m, k) {
    }
  }

  class BftEngine {
    const cfg: Config
    const detector: EquivocationDetector
    var vs: ValidatorSet
    var myIndex: nat
    var headHash: Bytes
    var headNumber: nat
    var headTimestamp: nat
    var seed: Bytes
    var coordinator: RoundCoordinator?
    var proposal: Option<Proposal>
    var pendingEvidence: seq<Evidence>
    var pendingPrevotes: seq<Vote>
    var pendingPrecommits: seq<Vote>
    var recentBlocks: map<nat, CommittedBlock>
    ghost var Repr: set<object>

    ghost predicate Shape()
      reads this, Repr
    {
      && this in Repr && detector in Repr
      && (coordinator != null ==>
        && coordinator in Repr && coordinator.Repr <= Repr
        && {this, detector} !! coordinator.Repr
        && coordinator.Valid() && coordinator.prim == cfg.prim)
    }

    ghost predicate Valid()
      reads this, Repr
      ensures Valid() ==> this in Repr && Shape() && EngineInv(cfg.prim, View())
    {
      Shape() && EngineInv(cfg.prim, View())
    }

    ghost function View(): (s: EngineState)
      reads this, Repr
      requires Shape()
      ensures s.headNumber == headNumber && s.recent == recentBlocks && s.myIndex == myIndex
    {
      EngineState(vs, myIndex, headHash, headNumber, headTimestamp, seed,
                  if coordinator == null then None else Some(coordinator.view),
                  proposal, detector.View(), pendingEvidence, pendingPrevotes, pendingPrecommits, recentBlocks)
    }

    constructor (cfg: Config, vs: ValidatorSet, myIndex: nat, initialSeed: Bytes, genesis: Block)
      requires vs.Valid()
      ensures Valid() && fresh(Repr) && this.cfg == cfg
      ensures View() == NewEngine(cfg.prim, vs, myIndex, initialSeed, genesis)
    {
      this.cfg, this.vs, this.myIndex, seed := cfg, vs, myIndex, initialSeed;
      headHash, headNumber, headTimestamp := HashOf(cfg.prim, genesis), genesis.header.number, genesis.header.timestamp;
      coordinator, proposal := null, None;
      detector := new EquivocationDetector();
      pendingEvidence, pendingPrevotes, pendingPrecommits, recentBlocks := [], [], [], map[];
      Repr := {this, detector};
    }

    method CurrentRoundState() returns (r: Option<(nat, nat, Phase)>)
      requires Valid()
      ensures match View().coord
              case None => r == None
              case Some(c) => r == Some((c.height, c.round, PhaseOf(c.stage)))
    {
      hide RoundCoordinator.Valid, EngineInv;
      if coordinator == null {
        return None;
      }
      return Some((coordinator.height, coordinator.round, coordinator.phase));
    }

    /** Whether this node leads the active round, or round 0 of the next height when there is none. */
    method LeadsNow() returns (b: bool)
      requires Valid()
      ensures ActiveCoord(View()).vs.Valid()
      ensures var c := ActiveCoord(View());
        && b == (LeaderIndex(cfg.prim, c.vs, c.height, c.round, c.seed) == myIndex)
        && b == HoldsDraw(cfg.prim, c.vs, c.height, c.round, c.seed, myIndex)
    {
      hide RoundCoordinator.Valid, HoldsDraw, CoordInv, EngineInv;
      ActiveCoordInv(cfg.prim, View());
      var leader: nat;
      if coordinator == null {
        leader := SelectLeader(vs, cfg.prim.leaderWord(headNumber + 1, 0, seed));
        LeaderHoldsDraw(cfg.prim, vs, headNumber + 1, 0, seed, myIndex);
      } else {
        leader := coordinator.LeaderIndexNow();
        LeaderHoldsDraw(cfg.prim, coordinator.vs, coordinator.height, coordinator.round, coordinator.seed, myIndex);
      }
      return leader == myIndex;
    }

    method EnsureCoordinator()
      requires Valid()
      modifies this
      ensures Valid() && fresh(Repr - old(Repr)) && coordinator != null
      ensures View() == old(View()).(coord := Some(ActiveCoord(old(View()))))
    {
      hide RoundCoordinator.Valid;
      ActiveCoordInv(cfg.prim, View());
      if coordinator == null {
        coordinator := new RoundCoordinator(cfg.prim, headNumber + 1, seed, vs);
        Repr := Repr + coordinator.Repr;
      }
    }

    /** Replays both buffers until a pass counts no vote. */
    method DrainPendingVotes()
      requires Valid()
      modifies Repr
      ensures Valid() && fresh(Repr - old(Repr))
      ensures View() == Drain(old(View()))
    {
      hide RoundCoordinator.Valid, EngineInv, DrainPass, NotStale;
      ghost var s := View();
      while true
        invariant Valid() && fresh(Repr - old(Repr))
        invariant Drain(View()) == Drain(s)
        decreases |pendingPrevotes| + |pendingPrecommits|
      {
        ghost var before := View();
        DropStaleKeepsInv(cfg.prim, before);
        pendingPrevotes := NotStale(pendingPrevotes, headNumber);
        pendingPrecommits := NotStale(pendingPrecommits, headNumber);
        assert View() == DropStale(before);
        if coordinator == null {
          return;
        }
        var applied := DrainOnce();
        if !applied {
          return;
        }
      }
    }

    method DrainOnce() returns (applied: bool)
      requires Valid() && coordinator != null
      modifies Repr
      ensures Valid() && fresh(Repr - old(Repr))
      ensures (View(), applied) == DrainPass(old(View()))
    {
      hide EngineInv, RoundCoordinator.Valid, CoordInv, Feed;
      ghost var s := View();
      DrainPassKeepsInv(cfg.prim, s);
      var prevotes, precommits := pendingPrevotes, pendingPrecommits;
      var leftover, any := FeedVotes(coordinator, Prevote, prevotes);
      pendingPrevotes := leftover;
      var leftover', any' := FeedVotes(coordinator, Precommit, precommits);
      pendingPrecommits := leftover';
      Repr := Repr + coordinator.Repr;
      applied := any || any';
    }

    /** Offer a proposal to the active coordinator, and hold it if accepted. */
    method OfferProposal(p: Proposal) returns (r: Result<(), BftError>)
      requires Valid() && coordinator != null
      modifies Repr
      ensures Valid() && fresh(Repr - old(Repr))
      ensures var s := old(View());
        match AfterProposal(cfg.prim, s.coord.value, HashOf(cfg.prim, p.block), p.proof)
        case Ok(c) => r == Ok(()) && View() == s.(coord := Some(c), proposal := Some(p))
        case Err(e) => r == Err(e) && View() == s
    {
      hide RoundCoordinator.Valid, EngineInv, AfterProposal, CoordInv;
      ghost var s := View();
      ActiveCoordInv(cfg.prim, s);
      AcceptedProposalInv(cfg.prim, s, p);
      r := coordinator.SubmitProposal(HashOf(cfg.prim, p.block), p.proof);
      Repr := Repr + coordinator.Repr;
      if r.Ok? {
        proposal := Some(p);
        assert View() == s.(coord := View().coord, proposal := Some(p));
      }
    }

    method SubmitRemoteProposal(p: Proposal) returns (r: Result<(), BftError>)
      requires Valid()
      modifies Repr
      ensures Valid() && fresh(Repr - old(Repr))
      ensures (View(), r) == RemoteProposal(cfg.prim, old(View()), p)
    {
      hide RoundCoordinator.Valid, EngineInv, Drain, AfterProposal, CoordInv;
      EnsureCoordinator();
      r := OfferProposal(p);
      if r.Ok? {
        DrainPendingVotes();
      }
    }

    method SubmitRemoteVote(kind: VoteKind, v: Vote) returns (r: Result<(), BftError>)
      requires Valid()
      modifies Repr
      ensures Valid() && fresh(Repr - old(Repr))
      ensures (View(), r) == RemoteVote(old(View()), kind, v)
    {
      hide RoundCoordinator.Valid, EngineInv, Drain, AfterVote, CoordInv, Record;
      ghost var s := View();
      RemoteVoteKeepsInv(cfg.prim, s, kind, v);
      CountedVoteInv(cfg.prim, s, kind, v);
      ObserveVote(kind, v);
      if v.height <= headNumber {
        return Ok(());
      }
      if coordinator == null {
        BufferVote(kind, v);
        return Ok(());
      }
      match kind {
        case Prevote => r := coordinator.SubmitPrevote(v);
        case Precommit => r := coordinator.SubmitPrecommit(v);
      }
      Repr := Repr + coordinator.Repr;
      assert View() == Recorded(s, kind, v).(coord := View().coord);
      if r.Ok? {
        DrainPendingVotes();
      } else if Retriable(r.error) {
        BufferVote(kind, v);
        r := Ok(());
      }
    }

    /** Feed the equivocation detector and park what it reports. */
    method ObserveVote(kind: VoteKind, v: Vote)
      requires Valid()
      modifies this`pendingEvidence, detector
      ensures Valid() && View() == Recorded(old(View()), kind, v)
    {
      hide RoundCoordinator.Valid, Record;
      var report: Option<Evidence>;
      match kind {
        case Prevote => report := detector.RecordPrevote(v);
        case Precommit => report := detector.RecordPrecommit(v);
      }
      if report.Some? {
        pendingEvidence := pendingEvidence + [report.value];
      }
    }

    /** Hand over the parked evidence and forget it. */
    method DrainEvidence() returns (es: seq<Evidence>)
      requires Valid()
      modifies this`pendingEvidence
      ensures Valid() && (View(), es) == TakeEvidence(old(View()))
    {
      hide RoundCoordinator.Valid;
      es := pendingEvidence;
      pendingEvidence := [];
    }

    method BufferVote(kind: VoteKind, v: Vote)
      requires Valid()
      modifies this`pendingPrevotes, this`pendingPrecommits
      ensures Valid() && View() == Buffered(old(View()), kind, v)
    {
      hide RoundCoordinator.Valid;
      match kind {
        case Prevote => pendingPrevotes := pendingPrevotes + [v];
        case Precommit => pendingPrecommits := pendingPrecommits + [v];
      }
    }

    method CastProposal(body: Bytes) returns (r: Result<Proposal, BftError>)
      requires Valid()
      modifies Repr
      ensures Valid() && fresh(Repr - old(Repr))
      ensures (View(), r) == AfterCastProposal(cfg, old(View()), body)
    {
      hide RoundCoordinator.Valid, EngineInv, AfterProposal, CoordInv, LeaderIndex;
      ActiveCoordInv(cfg.prim, View());
      EnsureCoordinator();
      var leader := coordinator.LeaderIndexNow();
      if leader != myIndex {
        return Err(NotLeader(coordinator.round, leader));
      }
      var proof := cfg.prove(coordinator.height, coordinator.round, seed);
      var block := BuildBlockOnHead(coordinator.height, proof, cfg.coinbase, body);
      var ok := OfferProposal(Proposal(block, proof));
      if ok.Err? {
        return Err(ok.error);
      }
      return Ok(Proposal(block, proof));
    }

    method BuildBlockOnHead(height: nat, proof: LeaderProof, coinbase: Bytes, body: Bytes) returns (b: Block)
      requires Valid()
      ensures b == BuildBlock(cfg, View(), height, proof, coinbase, body)
    {
      b := Block(Header(headHash, height, headTimestamp + cfg.slotSeconds, proof.vrfOutput, coinbase,
                        cfg.prim.transactionsRoot(body)), body);
    }

    method CastVote(kind: VoteKind) returns (r: Result<Vote, BftError>)
      requires Valid()
      modifies Repr
      ensures Valid() && fresh(Repr - old(Repr))
      ensures (View(), r) == AfterCastVote(cfg, old(View()), kind)
    {
      hide EngineInv, AfterVote, CoordInv, RoundCoordinator.Valid;
      ghost var s := View();
      CastVoteKeepsInv(cfg, s, kind);
      if coordinator == null {
        return Err(NoActiveCoordinator);
      }
      if kind.Prevote? && coordinator.proposedBlock.None? {
        return Err(WrongPhase(Phase.Prevoting, coordinator.phase));
      }
      if kind.Precommit? && coordinator.phase != Phase.Precommitting {
        return Err(WrongPhase(Phase.Precommitting, coordinator.phase));
      }
      var st := Statement(kind, coordinator.proposedBlock.value, coordinator.height, coordinator.round);
      var v := SignVote(cfg.blsKey, st, myIndex);
      var ok: Result<(), BftError>;
      match kind {
        case Prevote => ok := coordinator.SubmitPrevote(v);
        case Precommit => ok := coordinator.SubmitPrecommit(v);
      }
      Repr := Repr + coordinator.Repr;
      if ok.Err? {
        return Err(ok.error);
      }
      return Ok(v);
    }

    method TickTimeout()
      requires Valid()
      modifies Repr
      ensures Valid() && fresh(Repr - old(Repr))
      ensures View() == AfterTickTimeout(old(View()))
    {
      hide RoundCoordinator.Valid, EngineInv, Drain, AfterTimeout, CoordInv;
      ghost var s := View();
      ActiveCoordInv(cfg.prim, s);
      TimedOutInv(cfg.prim, s);
      EnsureCoordinator();
      coordinator.FireTimeout();
      proposal := None;
      DrainPendingVotes();
    }

    method FastForwardToRound(target: nat) returns (r: Result<(), BftError>)
      requires Valid() && target <= U32_MAX
      modifies this
      ensures Valid() && fresh(Repr - old(Repr))
      ensures (View(), r) == FastForward(old(View()), target)
    {
      hide RoundCoordinator.Valid, EngineInv, CoordInv;
      ghost var s := View();
      FastForwardKeepsInv(cfg.prim, s, target);
      if coordinator != null && coordinator.height != headNumber + 1 {
        return Err(WrongHeight);
      }
      var coord := FreshCoordinatorAt(target);
      coordinator := coord;
      Repr := Repr + coord.Repr;
      return Ok(());
    }

    /** A new coordinator timed out `target` times. */
    method FreshCoordinatorAt(target: nat) returns (coord: RoundCoordinator)
      requires vs.Valid() && target <= U32_MAX
      ensures fresh(coord.Repr) && coord.Valid() && coord.prim == cfg.prim
      ensures coord.view == NewCoord(headNumber + 1, seed, vs).(round := target)
    {
      hide RoundCoordinator.Valid, CoordInv;
      coord := new RoundCoordinator(cfg.prim, headNumber + 1, seed, vs);
      for k := 0 to target
        invariant fresh(coord.Repr) && coord.Valid()
        invariant coord.view == NewCoord(headNumber + 1, seed, vs).(round := k)
      {
        coord.FireTimeout();
      }
    }

    method TryHarvestCommitted() returns (r: Option<CommittedBlock>)
      requires Valid()
      modifies this
      ensures Valid() && Repr == old(Repr)
      ensures (View(), r) == Harvest(cfg.prim, old(View()))
    {
      hide EngineInv, CoordInv, Cached, RoundCoordinator.Valid;
      ghost var s := View();
      HarvestKeepsInv(cfg.prim, s);
      if coordinator == null || coordinator.phase != Phase.Committed || proposal.None? {
        return None;
      }
      var p := proposal.value;
      var cert := coordinator.finalCert.value;
      CommitHead(p.block, cert, p.proof.vrfOutput);
      return Some(CommittedBlock(p.block, cert));
    }

    method AdoptSyncedBlock(b: Block, cert: PrecommitCertificate) returns (r: Result<Block, BftError>)
      requires Valid()
      modifies this
      ensures Valid() && Repr == old(Repr)
      ensures (View(), r) == Adopt(cfg.prim, old(View()), b, cert)
    {
      hide EngineInv, RoundCoordinator.Valid, CoordInv, Cached, CertOk, CertErrorOf;
      ghost var s := View();
      AdoptKeepsInv(cfg.prim, s, b, cert);
      var hash := HashOf(cfg.prim, b);
      if b.header.number != headNumber + 1 || cert.height != b.header.number {
        return Err(WrongHeight);
      }
      if b.header.parentHash != headHash || cert.block != hash {
        return Err(ProposalHashMismatch);
      }
      var verdict := VerifyCertificate(vs, cert);
      if verdict.Err? {
        return Err(verdict.error);
      }
      pendingPrevotes, pendingPrecommits := [], [];
      CommitHead(b, cert, b.header.mixHash);
      return Ok(b);
    }

    /** Move the head to `b`, roll the seed, drop the finished round and cache the block. */
    method CommitHead(b: Block, cert: PrecommitCertificate, nextSeed: Bytes)
      requires Shape()
      modifies this
      ensures Shape() && Repr == old(Repr) && View() == WithHead(cfg.prim, old(View()), b, cert, nextSeed)
    {
      hide RoundCoordinator.Valid, CoordInv, Cached;
      FinishRound();
      MoveHead(b, nextSeed);
      var cache := CacheRecentBlock(recentBlocks, b, cert);
      recentBlocks := cache;
    }

    method FinishRound()
      requires Shape()
      modifies this`coordinator, this`proposal
      ensures Shape() && coordinator == null && View() == old(View()).(coord := None, proposal := None)
    {
      hide RoundCoordinator.Valid, CoordInv;
      coordinator := null;
      proposal := None;
    }

    method MoveHead(b: Block, nextSeed: Bytes)
      requires Shape() && coordinator == null
      modifies this`headHash, this`headNumber, this`headTimestamp, this`seed
      ensures Shape()
      ensures View() == old(View()).(headHash := HashOf(cfg.prim, b), headNumber := b.header.number,
                                     headTimestamp := b.header.timestamp, seed := nextSeed)
    {
      headHash := HashOf(cfg.prim, b);
      headNumber := b.header.number;
      headTimestamp := b.header.timestamp;
      seed := nextSeed;
    }

    method RotateValidatorSet(set': ValidatorSet, index: nat) returns (r: Result<(), BftError>)
      requires Valid() && set'.Valid()
      modifies this
      ensures Valid() && Repr == old(Repr)
      ensures (View(), r) == Rotate(old(View()), set', index)
    {
      hide RoundCoordinator.Valid, CoordInv;
      if index >= set'.Size() {
        return Err(ValidatorIndexOutOfBounds(index, set'.Size()));
      }
      if coordinator != null || proposal.Some? {
        return Err(ActiveRoundInProgress);
      }
      pendingPrevotes, pendingPrecommits := [], [];
      vs, myIndex := set', index;
      return Ok(());
    }
  }
}
