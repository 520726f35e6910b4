/** N nodes on a network that may delay, drop, repeat and reorder messages, with validators outside
    the set of nodes signing whatever they like.

    A message can be delivered to anyone at any time as long as every signature in it exists; the only
    signatures nobody can invent are those of the nodes themselves.  Nothing is assumed about proposals; what
    is assumed is that no node harvests a block numbered below a height it has voted at.  The last section
    shows that only a proposal made up by someone other than a node can bring that about.
  */
module Network {
  import opened Bits
  import opened Crypto
  import opened Validators
  import opened Tally
  import opened Coordinator
  import opened Engine
  import opened Chain
  import opened Wire
  import opened Gossip
  import opened Voting
  import opened Knowledge
  import opened Offers
  import opened Slashing

  /** A node with its history: statements released, PRE-VOTE certificates held, blocks committed. */
  datatype Peer =
    Peer(cfg: Config, node: Node, released: set<Statement>, held: set<Certificate>, log: seq<CommittedBlock>)

  /** `offered` holds every proposal a node has sent. */
  datatype Net = Net(peers: seq<Peer>, signed: Signed, offered: set<Message>)

  datatype NetEvent =
    | PeerActs(i: nat, e: NodeEvent)
    | OutsiderSigns(key: BlsKey, st: Statement)

  ghost predicate IsPeerKey(net: Net, key: BlsKey) {
    exists i :: 0 <= i < |net.peers| && net.peers[i].cfg.blsKey == key
  }

  /** Validators whose key no node runs. */
  ghost function FaultyIndices(vs: ValidatorSet, net: Net): set<nat> {
    set i: nat | i < vs.Size() && !IsPeerKey(net, vs.validators[i].blsKey)
  }

  function PolcsOf(s: EngineState): set<Certificate> {
    if s.coord.Some? && s.coord.value.stage.CollectingPrecommits? then {s.coord.value.stage.polc} else {}
  }

  function PeerStep(p: Peer, e: NodeEvent): Peer
    requires p.node.engine.vs.Valid() && ActiveCoord(p.node.engine).vs.Valid()
  {
    var o := NodeStep(p.cfg, p.node, e);
    Peer(p.cfg, o.node, p.released + Released(o.out), p.held + PolcsOf(p.node.engine), p.log + o.commits)
  }

  // ---------------------------------------------------------------------------------------
  // One peer
  // ---------------------------------------------------------------------------------------

  /** The node held a verifying PRE-VOTE certificate for the block it pre-commits. */
  ghost predicate LockedFor(vs: ValidatorSet, held: set<Certificate>, st: Statement, signed: Signed) {
    exists polc ::
      && polc in held && Certifies(vs, polc, Statement(Prevote, st.block, st.height, st.round))
      && MadeOf(polc.sig, signed)
  }

  ghost predicate PeerInv(prim: Primitives, vs: ValidatorSet, p: Peer, signed: Signed) {
    && p.cfg.prim == prim && p.node.engine.vs == vs
    && NodeInv(p.cfg, p.node, p.released)
    && EngineKnows(p.node.engine, signed)
    && (forall st :: st in p.released <==> (p.cfg.blsKey, st) in signed)
    && (forall st :: st in p.released && st.kind == Precommit ==> LockedFor(vs, p.held, st, signed))
    && (forall c :: c in p.log ==> CommitOk(prim, vs, c, signed))
  }

  lemma NodeStepKnown(cfg: Config, n: Node, e: NodeEvent, released: set<Statement>, signed: Signed)
    requires n.engine.vs.Valid() && ActiveCoord(n.engine).vs.Valid()
    requires NodeInv(cfg, n, released) && EngineKnows(n.engine, signed)
    requires e.Receive? ==> Plausible(e.m, signed)
    ensures var o := NodeStep(cfg, n, e);
      var all := signed + SignedBy(cfg.blsKey, Released(o.out));
      && EngineKnows(o.node.engine, all) && o.node.engine.vs == n.engine.vs
      && forall c :: c in o.commits ==> CommitOk(cfg.prim, n.engine.vs, c, all)
  {
    hide NodeInv, Dispatch, Drive, AutoHarvest, EngineKnows, Released;
    NodeHasEngineInv(cfg, n, released);
    ActiveCoordInv(cfg.prim, n.engine);
    match e
    case Receive(m) =>
      var d := Dispatch(cfg, n, m);
      DispatchKnown(cfg, n, m, signed);
      DispatchStep(cfg, n, m, released);
      NodeHasEngineInv(cfg, d.node, released);
      AutoHarvestStep(cfg, d, released);
      AutoHarvestKnown(cfg, d, signed);
      assert SignedBy(cfg.blsKey, {}) == {} && signed + {} == signed;
    case Advance(body) =>
      var d := Drive(cfg, n, body);
      var all := signed + SignedBy(cfg.blsKey, Released(d.out));
      DriveKnown(cfg, n, body, signed);
      DriveStep(cfg, n, body, released);
      NodeHasEngineInv(cfg, d.node, released + Released(d.out));
      AutoHarvestStep(cfg, d, released + Released(d.out));
      AutoHarvestKnown(cfg, d, all);
    case ClockFired =>
      TimeoutKnown(n.engine, signed);
      TimeoutFrame(cfg.prim, n.engine);
      ReleasedNothing();
      assert SignedBy(cfg.blsKey, {}) == {} && signed + {} == signed;
  }

  /** What a step newly releases is the vote its coordinator calls for. */
  lemma StepReleases(cfg: Config, n: Node, e: NodeEvent, released: set<Statement>)
    requires n.engine.vs.Valid() && ActiveCoord(n.engine).vs.Valid()
    requires NodeInv(cfg, n, released)
    ensures forall st :: st in Released(NodeStep(cfg, n, e).out) && st !in released && st.kind == Precommit ==>
      && n.engine.coord.Some? && n.engine.coord.value.stage.CollectingPrecommits?
      && st == VotedOn(n.engine.coord.value, Precommit)
  {
    NodeHasEngineInv(cfg, n, released);
    ActiveCoordInv(cfg.prim, n.engine);
    match e
    case Receive(m) =>
      DispatchStep(cfg, n, m, released);
      AutoHarvestStep(cfg, Dispatch(cfg, n, m), released);
    case Advance(body) =>
      DriveReleases(cfg, n, body, released);
      DriveStep(cfg, n, body, released);
      AutoHarvestStep(cfg, Drive(cfg, n, body), released + Released(Drive(cfg, n, body).out));
    case ClockFired => ReleasedNothing();
  }

  lemma DriveReleases(cfg: Config, n: Node, body: Bytes, released: set<Statement>)
    requires NodeInv(cfg, n, released) && n.engine.vs.Valid() && ActiveCoord(n.engine).vs.Valid()
    ensures forall st :: st in Released(Drive(cfg, n, body).out) && st !in released && st.kind == Precommit ==>
      && n.engine.coord.Some? && n.engine.coord.value.stage.CollectingPrecommits?
      && st == VotedOn(n.engine.coord.value, Precommit)
  {
    hide NodeInv, MaybeVote, Propose, Released;
    ProposeStep(cfg, n, body, released);
    ReleasedNothing();
    if n.engine.coord.Some? {
      match PhaseOf(n.engine.coord.value.stage)
      case AwaitingProposal =>
        var p := MaybePropose(cfg, n, Here(n.engine), body);
        RepeatReleasesNothingNew(cfg, p.node, released);
        ReleasedAppend(p.out, Repeat(p.node.flags.lastProposal));
      case Prevoting =>
        var p := MaybeVote(cfg, n, Here(n.engine), Prevote);
        VoteStep(cfg, n, Prevote, released);
        RepeatReleasesNothingNew(cfg, p.node, released + Released(p.out));
        ReleasedAppend(p.out, Repeat(p.node.flags.lastProposal));
        ReleasedAppend(p.out + Repeat(p.node.flags.lastProposal), Repeat(p.node.flags.lastPrevote));
      case Precommitting =>
        var p := MaybeVote(cfg, n, Here(n.engine), Precommit);
        VoteStep(cfg, n, Precommit, released);
        MaybeVoteReleases(cfg, n, Here(n.engine));
        RepeatReleasesNothingNew(cfg, p.node, released + Released(p.out));
        ReleasedAppend(p.out, Repeat(p.node.flags.lastPrevote));
        ReleasedAppend(p.out + Repeat(p.node.flags.lastPrevote), Repeat(p.node.flags.lastPrecommit));
      case Committed =>
    }
  }

  lemma MaybeVoteReleases(cfg: Config, n: Node, at: Position)
    requires n.engine.coord.Some? && n.engine.coord.value.stage.CollectingPrecommits?
    ensures forall st ::
      st in Released(MaybeVote(cfg, n, at, Precommit).out) ==> st == VotedOn(n.engine.coord.value, Precommit)
  {
  }

  lemma PeerStepKeepsInv(prim: Primitives, vs: ValidatorSet, p: Peer, e: NodeEvent, signed: Signed)
    requires p.node.engine.vs.Valid() && ActiveCoord(p.node.engine).vs.Valid()
    requires PeerInv(prim, vs, p, signed) && HarvestClears(prim, BeforeHarvest(p.cfg, p.node, e).node)
    requires e.Receive? ==> Plausible(e.m, signed)
    ensures PeerInv(prim, vs, PeerStep(p, e), signed + SignedBy(p.cfg.blsKey, Released(NodeStep(p.cfg, p.node, e).out)))
  {
    hide NodeInv, NodeStep, EngineKnows, Released, CommitOk, BeforeHarvest, HarvestClears;
    NodeStepKnown(p.cfg, p.node, e, p.released, signed);
    NodeStepKeepsInv(p.cfg, p.node, e, p.released);
    StepReleases(p.cfg, p.node, e, p.released);
    var o := NodeStep(p.cfg, p.node, e);
    var q := PeerStep(p, e);
    var all := signed + SignedBy(p.cfg.blsKey, Released(o.out));
    forall st ensures st in q.released <==> (p.cfg.blsKey, st) in all {
    }
    forall st | st in q.released && st.kind == Precommit ensures LockedFor(vs, q.held, st, all) {
      if st in p.released {
        LockedForMore(vs, p.held, q.held, st, signed, all);
      } else {
        CurrentLock(p.cfg, p.node, p.released, signed);
        LockedForMore(vs, PolcsOf(p.node.engine), q.held, st, signed, all);
      }
    }
    forall c | c in q.log ensures CommitOk(prim, vs, c, all) {
      if c in p.log {
        CommitOkMore(prim, vs, c, signed, all);
      }
    }
  }

  lemma LockedForMore(vs: ValidatorSet, held: set<Certificate>, more: set<Certificate>, st: Statement,
                      signed: Signed, all: Signed)
    requires LockedFor(vs, held, st, signed) && held <= more && signed <= all
    ensures LockedFor(vs, more, st, all)
  {
    var polc :|
      && polc in held && Certifies(vs, polc, Statement(Prevote, st.block, st.height, st.round))
      && MadeOf(polc.sig, signed);
    assert polc in more && MadeOf(polc.sig, all);
  }

  lemma CommitOkMore(prim: Primitives, vs: ValidatorSet, c: CommittedBlock, signed: Signed, all: Signed)
    requires CommitOk(prim, vs, c, signed) && signed <= all
    ensures CommitOk(prim, vs, c, all)
  {
  }

  /** A coordinator collecting PRE-COMMITS holds the certificate that locks its block. */
  lemma CurrentLock(cfg: Config, n: Node, released: set<Statement>, signed: Signed)
    requires NodeInv(cfg, n, released) && EngineKnows(n.engine, signed)
    requires n.engine.coord.Some? && n.engine.coord.value.stage.CollectingPrecommits?
    ensures LockedFor(n.engine.vs, PolcsOf(n.engine), VotedOn(n.engine.coord.value, Precommit), signed)
  {
    var polc := n.engine.coord.value.stage.polc;
    assert polc in PolcsOf(n.engine);
  }

  // ---------------------------------------------------------------------------------------
  // The network
  // ---------------------------------------------------------------------------------------

  ghost predicate NetInv(prim: Primitives, vs: ValidatorSet, net: Net) {
    && (forall i, j :: 0 <= i < j < |net.peers| ==> net.peers[i].cfg.blsKey != net.peers[j].cfg.blsKey)
    && (forall i :: 0 <= i < |net.peers| ==> PeerInv(prim, vs, net.peers[i], net.signed))
  }

  lemma CanStep(prim: Primitives, vs: ValidatorSet, p: Peer, signed: Signed)
    requires PeerInv(prim, vs, p, signed)
    ensures p.node.engine.vs.Valid() && ActiveCoord(p.node.engine).vs.Valid()
  {
    ActiveCoordInv(p.cfg.prim, p.node.engine);
  }

  /** Signatures in a delivered message exist; a harvest does not fall behind the node's own votes; only
      validators that no node runs sign freely. */
  ghost predicate Enabled(prim: Primitives, vs: ValidatorSet, net: Net, ev: NetEvent)
    requires NetInv(prim, vs, net)
  {
    match ev
    case PeerActs(i, e) =>
      && i < |net.peers|
      && (e.Receive? ==> Plausible(e.m, net.signed))
      && (CanStep(prim, vs, net.peers[i], net.signed);
          HarvestClears(prim, BeforeHarvest(net.peers[i].cfg, net.peers[i].node, e).node))
    case OutsiderSigns(key, _) => !IsPeerKey(net, key)
  }

  ghost function Next(prim: Primitives, vs: ValidatorSet, net: Net, ev: NetEvent): Net
    requires NetInv(prim, vs, net) && Enabled(prim, vs, net, ev)
  {
    match ev
    case PeerActs(i, e) =>
      var p := net.peers[i];
      CanStep(prim, vs, p, net.signed);
      var out := NodeStep(p.cfg, p.node, e).out;
      Net(net.peers[i := PeerStep(p, e)], net.signed + SignedBy(p.cfg.blsKey, Released(out)),
          net.offered + ProposalsIn(out))
    case OutsiderSigns(key, st) => net.(signed := net.signed + {(key, st)})
  }

  /** Other peers' signatures do not disturb a peer. */
  lemma PeerInvMore(prim: Primitives, vs: ValidatorSet, p: Peer, signed: Signed, all: Signed)
    requires PeerInv(prim, vs, p, signed) && signed <= all
    requires forall x :: x in all && x !in signed ==> x.0 != p.cfg.blsKey
    ensures PeerInv(prim, vs, p, all)
  {
    KnowsMore(p.node.engine, signed, all);
    forall st ensures st in p.released <==> (p.cfg.blsKey, st) in all {
    }
    forall st | st in p.released && st.kind == Precommit ensures LockedFor(vs, p.held, st, all) {
      LockedForMore(vs, p.held, p.held, st, signed, all);
    }
    forall c | c in p.log ensures CommitOk(prim, vs, c, all) {
      CommitOkMore(prim, vs, c, signed, all);
    }
  }

  lemma NextKeepsInv(prim: Primitives, vs: ValidatorSet, net: Net, ev: NetEvent)
    requires NetInv(prim, vs, net) && Enabled(prim, vs, net, ev)
    ensures NetInv(prim, vs, Next(prim, vs, net, ev))
    ensures FaultyIndices(vs, Next(prim, vs, net, ev)) == FaultyIndices(vs, net)
  {
    hide PeerInv, PeerStep, NodeStep, Released, HarvestClears, BeforeHarvest;
    var after := Next(prim, vs, net, ev);
    forall i | 0 <= i < |after.peers| ensures PeerInv(prim, vs, after.peers[i], after.signed) {
      if ev.PeerActs? && i == ev.i {
        CanStep(prim, vs, net.peers[i], net.signed);
        PeerStepKeepsInv(prim, vs, net.peers[i], ev.e, net.signed);
      } else {
        if ev.OutsiderSigns? {
          assert net.peers[i].cfg.blsKey != ev.key;
        }
        PeerInvMore(prim, vs, net.peers[i], net.signed, after.signed);
      }
    }
    StepKeepsKeys(prim, vs, net, ev);
  }

  lemma StepKeepsKeys(prim: Primitives, vs: ValidatorSet, net: Net, ev: NetEvent)
    requires NetInv(prim, vs, net) && Enabled(prim, vs, net, ev)
    ensures var after := Next(prim, vs, net, ev);
      && |after.peers| == |net.peers|
      && (forall i :: 0 <= i < |net.peers| ==> after.peers[i].cfg.blsKey == net.peers[i].cfg.blsKey)
      && FaultyIndices(vs, after) == FaultyIndices(vs, net)
  {
    hide PeerInv, NodeStep, Released;
    var after := Next(prim, vs, net, ev);
    forall key ensures IsPeerKey(after, key) <==> IsPeerKey(net, key) {
      if IsPeerKey(net, key) {
        var i :| 0 <= i < |net.peers| && net.peers[i].cfg.blsKey == key;
        assert after.peers[i].cfg.blsKey == key;
      }
    }
  }

  // ---------------------------------------------------------------------------------------
  // Safety
  // ---------------------------------------------------------------------------------------

  /** The faulty validators hold at most a third of the stake, and the threshold arithmetic fits. */
  ghost predicate FaultBound(vs: ValidatorSet, net: Net) {
    && vs.Valid() && DoublingFits(vs)
    && 3 * StakeOf(vs.validators, FaultyIndices(vs, net)) <= vs.totalStake
  }

  /** Two certificates name a common validator run by a node, and that node released both statements. */
  lemma CommonHonestSigner(prim: Primitives, vs: ValidatorSet, net: Net, c: Certificate, d: Certificate)
    returns (j: nat)
    requires NetInv(prim, vs, net) && FaultBound(vs, net)
    requires CertOk(vs, c) && CertOk(vs, d) && MadeOf(c.sig, net.signed) && MadeOf(d.sig, net.signed)
    ensures j < |net.peers| && StatementOf(c) in net.peers[j].released && StatementOf(d) in net.peers[j].released
  {
    hide PeerInv, CertOk;
    CertHasQuorum(vs, c);
    CertHasQuorum(vs, d);
    var i := QuorumsShareAnHonestIndex(vs, Members(c.signers), Members(d.signers), FaultyIndices(vs, net));
    var key := vs.validators[i].blsKey;
    CertSignersSigned(vs, c, i);
    CertSignersSigned(vs, d, i);
    j :| 0 <= j < |net.peers| && net.peers[j].cfg.blsKey == key;
    ReleasedWhatItSigned(prim, vs, net.peers[j], net.signed, StatementOf(c));
    ReleasedWhatItSigned(prim, vs, net.peers[j], net.signed, StatementOf(d));
  }

  lemma CertHasQuorum(vs: ValidatorSet, c: Certificate)
    requires CertOk(vs, c)
    ensures IsQuorum(vs, Members(c.signers))
  {
  }

  lemma ReleasedWhatItSigned(prim: Primitives, vs: ValidatorSet, p: Peer, signed: Signed, st: Statement)
    requires PeerInv(prim, vs, p, signed) && (p.cfg.blsKey, st) in signed
    ensures st in p.released && NoDoubleSign(p.released)
  {
  }

  /** Same-round agreement: any two verifying certificates of one phase, height and round that exist in
      the network are for the same block. */
  lemma CertificatesAgree(prim: Primitives, vs: ValidatorSet, net: Net, c: Certificate, d: Certificate)
    requires NetInv(prim, vs, net) && FaultBound(vs, net)
    requires CertOk(vs, c) && CertOk(vs, d) && MadeOf(c.sig, net.signed) && MadeOf(d.sig, net.signed)
    requires c.kind == d.kind && c.height == d.height && c.round == d.round
    ensures c.block == d.block
  {
    var j := CommonHonestSigner(prim, vs, net, c, d);
    assert NoDoubleSign(net.peers[j].released);
  }

  /** Two nodes that commit at the same height and round commit the same block hash. */
  ghost predicate NodesAgree(prim: Primitives, net: Net) {
    forall i, j, a, b ::
      0 <= i < |net.peers| && 0 <= j < |net.peers| && a in net.peers[i].log && b in net.peers[j].log
      && a.cert.height == b.cert.height && a.cert.round == b.cert.round
      ==> a.cert.block == b.cert.block && HashOf(prim, a.block) == HashOf(prim, b.block)
  }

  /** Every existing commit certificate is backed by a lock held by some node, and no PRE-VOTE
      certificate for another block exists at that height and round. */
  ghost predicate FinalityIsLocked(vs: ValidatorSet, net: Net) {
    forall c :: CertOk(vs, c) && c.kind == Precommit && MadeOf(c.sig, net.signed) ==>
      && (exists j :: 0 <= j < |net.peers| && LockedFor(vs, net.peers[j].held, StatementOf(c), net.signed))
      && (forall q ::
            && CertOk(vs, q) && MadeOf(q.sig, net.signed)
            && q.kind == Prevote && q.height == c.height && q.round == c.round
            ==> q.block == c.block)
  }

  lemma NodesAgreeHolds(prim: Primitives, vs: ValidatorSet, net: Net)
    requires NetInv(prim, vs, net) && FaultBound(vs, net)
    ensures NodesAgree(prim, net)
  {
    hide PeerInv, CertOk;
    forall i, j, a, b |
      0 <= i < |net.peers| && 0 <= j < |net.peers| && a in net.peers[i].log && b in net.peers[j].log
      && a.cert.height == b.cert.height && a.cert.round == b.cert.round
      ensures a.cert.block == b.cert.block && HashOf(prim, a.block) == HashOf(prim, b.block)
    {
      LogEntryOk(prim, vs, net.peers[i], net.signed, a);
      LogEntryOk(prim, vs, net.peers[j], net.signed, b);
      CertificatesAgree(prim, vs, net, a.cert, b.cert);
    }
  }

  lemma LogEntryOk(prim: Primitives, vs: ValidatorSet, p: Peer, signed: Signed, c: CommittedBlock)
    requires PeerInv(prim, vs, p, signed) && c in p.log
    ensures CommitOk(prim, vs, c, signed)
  {
  }

  lemma FinalityIsLockedHolds(prim: Primitives, vs: ValidatorSet, net: Net)
    requires NetInv(prim, vs, net) && FaultBound(vs, net)
    ensures FinalityIsLocked(vs, net)
  {
    hide PeerInv, CertOk;
    forall c | CertOk(vs, c) && c.kind == Precommit && MadeOf(c.sig, net.signed)
      ensures exists j :: 0 <= j < |net.peers| && LockedFor(vs, net.peers[j].held, StatementOf(c), net.signed)
      ensures forall q ::
        CertOk(vs, q) && q.kind == Prevote && q.height == c.height && q.round == c.round && MadeOf(q.sig, net.signed)
        ==> q.block == c.block
    {
      var j := CommonHonestSigner(prim, vs, net, c, c);
      PrecommitIsLocked(prim, vs, net.peers[j], net.signed, StatementOf(c));
      var polc :|
        && polc in net.peers[j].held && Certifies(vs, polc, Statement(Prevote, c.block, c.height, c.round))
        && MadeOf(polc.sig, net.signed);
      forall q |
        CertOk(vs, q) && q.kind == Prevote && q.height == c.height && q.round == c.round && MadeOf(q.sig, net.signed)
        ensures q.block == c.block
      {
        CertificatesAgree(prim, vs, net, polc, q);
      }
    }
  }

  lemma PrecommitIsLocked(prim: Primitives, vs: ValidatorSet, p: Peer, signed: Signed, st: Statement)
    requires PeerInv(prim, vs, p, signed) && st in p.released && st.kind == Precommit
    ensures LockedFor(vs, p.held, st, signed)
  {
  }

  /** Evidence made of existing signatures that passes verification names a faulty validator. */
  ghost predicate EvidenceIsSound(vs: ValidatorSet, net: Net) {
    forall e :: Slashable(vs, e) && MadeOf(e.first.sig, net.signed) && MadeOf(e.second.sig, net.signed)
      ==> e.first.index in FaultyIndices(vs, net)
  }

  lemma EvidenceIsSoundHolds(prim: Primitives, vs: ValidatorSet, net: Net)
    requires NetInv(prim, vs, net)
    ensures EvidenceIsSound(vs, net)
  {
    hide PeerInv;
    forall e | Slashable(vs, e) && MadeOf(e.first.sig, net.signed) && MadeOf(e.second.sig, net.signed)
      ensures e.first.index in FaultyIndices(vs, net)
    {
      var key := vs.validators[e.first.index].blsKey;
      var st := Statement(e.kind, e.first.block, e.first.height, e.first.round);
      var tt := Statement(e.kind, e.second.block, e.second.height, e.second.round);
      assert (key, st) in e.first.sig.parts && (key, tt) in e.second.sig.parts;
      if IsPeerKey(net, key) {
        var j :| 0 <= j < |net.peers| && net.peers[j].cfg.blsKey == key;
        ReleasedWhatItSigned(prim, vs, net.peers[j], net.signed, st);
        ReleasedWhatItSigned(prim, vs, net.peers[j], net.signed, tt);
      }
    }
  }

  // ---------------------------------------------------------------------------------------
  // Runs
  // ---------------------------------------------------------------------------------------

  /** Nodes with distinct keys, freshly started with one validator set; outsiders may already have
      signed anything, the nodes nothing. */
  ghost predicate Initial(prim: Primitives, vs: ValidatorSet, net: Net) {
    && vs.Valid()
    && (forall i, j :: 0 <= i < j < |net.peers| ==> net.peers[i].cfg.blsKey != net.peers[j].cfg.blsKey)
    && (forall x :: x in net.signed ==> !IsPeerKey(net, x.0))
    && forall i :: 0 <= i < |net.peers| ==>
         var p := net.peers[i];
         && p.cfg.prim == prim
         && p.node.flags == NO_FLAGS && p.released == {} && p.held == {} && p.log == []
         && p.node.engine.vs == vs && p.node.engine.coord.None? && p.node.engine.proposal.None?
         && p.node.engine.pendingPrevotes == [] && p.node.engine.pendingPrecommits == []
  }

  lemma InitialInv(prim: Primitives, vs: ValidatorSet, net: Net)
    requires Initial(prim, vs, net)
    ensures NetInv(prim, vs, net)
  {
    forall i | 0 <= i < |net.peers| ensures PeerInv(prim, vs, net.peers[i], net.signed) {
      var p := net.peers[i];
      FreshNodeInv(p.cfg, p.node.engine);
      assert IsPeerKey(net, p.cfg.blsKey);
      assert forall st :: (p.cfg.blsKey, st) !in net.signed;
    }
  }

  /** Every event of the run is enabled when it happens. */
  ghost predicate IsRun(prim: Primitives, vs: ValidatorSet, net: Net, evs: seq<NetEvent>)
    requires NetInv(prim, vs, net)
    decreases |evs|
  {
    evs == [] ||
    (Enabled(prim, vs, net, evs[0]) &&
      (NextKeepsInv(prim, vs, net, evs[0]); IsRun(prim, vs, Next(prim, vs, net, evs[0]), evs[1..])))
  }

  ghost function After(prim: Primitives, vs: ValidatorSet, net: Net, evs: seq<NetEvent>): (r: Net)
    requires NetInv(prim, vs, net) && IsRun(prim, vs, net, evs)
    ensures NetInv(prim, vs, r) && FaultyIndices(vs, r) == FaultyIndices(vs, net)
    decreases |evs|
  {
    if evs == [] then net
    else
      NextKeepsInv(prim, vs, net, evs[0]);
      After(prim, vs, Next(prim, vs, net, evs[0]), evs[1..])
  }

  /** Nodes that commit at the same height and round commit the same block, every commit is backed by a unique
      lock, no node ever signs two different votes of one kind for one height and round, and evidence convicts
      only the faulty. */
  ghost predicate Safe(prim: Primitives, vs: ValidatorSet, net: Net) {
    && NodesAgree(prim, net)
    && FinalityIsLocked(vs, net)
    && EvidenceIsSound(vs, net)
    && forall i :: 0 <= i < |net.peers| ==> NoDoubleSign(net.peers[i].released)
  }

  /** Every run with at most a third of the stake faulty is safe. */
  lemma SafetyOverRuns(prim: Primitives, vs: ValidatorSet, net: Net, evs: seq<NetEvent>)
    requires Initial(prim, vs, net) && FaultBound(vs, net)
    requires (InitialInv(prim, vs, net); IsRun(prim, vs, net, evs))
    ensures (InitialInv(prim, vs, net); Safe(prim, vs, After(prim, vs, net, evs)))
  {
    InitialInv(prim, vs, net);
    var r := After(prim, vs, net, evs);
    NodesAgreeHolds(prim, vs, r);
    FinalityIsLockedHolds(prim, vs, r);
    EvidenceIsSoundHolds(prim, vs, r);
    forall i | 0 <= i < |r.peers| ensures NoDoubleSign(r.peers[i].released) {
      assert PeerInv(prim, vs, r.peers[i], r.signed);
    }
  }

  // ---------------------------------------------------------------------------------------
  // Only made-up proposals can make a node harvest backwards
  // ---------------------------------------------------------------------------------------

  /** Every proposal that nodes sent extends its parent by one, and no node holds a stale proposal. */
  ghost predicate OfferNetInv(prim: Primitives, net: Net) {
    && (forall m :: m in net.offered ==> Offered(prim, m))
    && (forall i :: 0 <= i < |net.peers| ==>
          OfferInv(net.peers[i].cfg, net.peers[i].node) && OnTrack(net.peers[i].node.engine))
  }

  /** A delivered proposal was sent by a node, or is not one that its receiver takes although it has committed its
      height.  Nothing else is asked of deliveries but that signatures exist. */
  ghost predicate Guarded(prim: Primitives, vs: ValidatorSet, net: Net, ev: NetEvent)
    requires NetInv(prim, vs, net)
  {
    match ev
    case PeerActs(i, e) =>
      && i < |net.peers|
      && (e.Receive? ==>
            && Plausible(e.m, net.signed)
            && (e.m in net.offered
                || (CanStep(prim, vs, net.peers[i], net.signed);
                    !TakesStale(net.peers[i].cfg, net.peers[i].node, e.m))))
    case OutsiderSigns(key, _) => !IsPeerKey(net, key)
  }

  /** What nodes sent can be delivered late and repeatedly: every guarded event is enabled. */
  lemma GuardedIsEnabled(prim: Primitives, vs: ValidatorSet, net: Net, ev: NetEvent)
    requires InjectiveHash(prim) && NetInv(prim, vs, net) && OfferNetInv(prim, net) && Guarded(prim, vs, net, ev)
    ensures Enabled(prim, vs, net, ev) && OfferNetInv(prim, Next(prim, vs, net, ev))
  {
    hide TakesStale, NodeInv, EngineKnows, InjectiveHash, BeforeHarvest, NodeStep, OfferInv, OnTrack, Offered, Released;
    if ev.PeerActs? {
      var p := net.peers[ev.i];
      CanStep(prim, vs, p, net.signed);
      GuardedPeer(prim, vs, net, ev.i, ev.e);
      NodeStepOffers(p.cfg, p.node, ev.e);
    }
  }

  lemma GuardedPeer(prim: Primitives, vs: ValidatorSet, net: Net, i: nat, e: NodeEvent)
    requires InjectiveHash(prim) && NetInv(prim, vs, net) && OfferNetInv(prim, net)
    requires Guarded(prim, vs, net, PeerActs(i, e))
    ensures var p := net.peers[i];
      && p.cfg.prim == prim && p.node.engine.vs.Valid() && ActiveCoord(p.node.engine).vs.Valid()
      && HarvestClears(prim, BeforeHarvest(p.cfg, p.node, e).node)
      && OnTrack(NodeStep(p.cfg, p.node, e).node.engine)
  {
    hide TakesStale, NodeInv, EngineKnows, InjectiveHash, BeforeHarvest, NodeStep, Offered, Released;
    var p := net.peers[i];
    CanStep(prim, vs, p, net.signed);
    NodeHasEngineInv(p.cfg, p.node, p.released);
    if e.Receive? && e.m in net.offered {
      OfferIsNeverTakenStale(p.cfg, p.node, e.m);
    }
    StaysOnTrack(p.cfg, p.node, e);
    BeforeHarvestStep(p.cfg, p.node, e, p.released);
    var o := BeforeHarvest(p.cfg, p.node, e);
    AdvancingHarvestClears(p.cfg, o.node, p.released + Released(o.out));
  }

  ghost predicate GuardedRun(prim: Primitives, vs: ValidatorSet, net: Net, evs: seq<NetEvent>)
    requires InjectiveHash(prim) && NetInv(prim, vs, net) && OfferNetInv(prim, net)
    decreases |evs|
  {
    evs == [] ||
    (Guarded(prim, vs, net, evs[0]) &&
      (GuardedIsEnabled(prim, vs, net, evs[0]);
       NextKeepsInv(prim, vs, net, evs[0]);
       GuardedRun(prim, vs, Next(prim, vs, net, evs[0]), evs[1..])))
  }

  lemma {:induction false} GuardedRunIsRun(prim: Primitives, vs: ValidatorSet, net: Net, evs: seq<NetEvent>)
    requires InjectiveHash(prim) && NetInv(prim, vs, net) && OfferNetInv(prim, net) && GuardedRun(prim, vs, net, evs)
    ensures IsRun(prim, vs, net, evs)
    decreases |evs|
  {
    hide NetInv, OfferNetInv, Enabled, Guarded, Next, InjectiveHash;
    if evs != [] {
      GuardedIsEnabled(prim, vs, net, evs[0]);
      NextKeepsInv(prim, vs, net, evs[0]);
      GuardedRunIsRun(prim, vs, Next(prim, vs, net, evs[0]), evs[1..]);
    }
  }

  /** All nodes are fresh nodes, and nothing has been sent. */
  ghost predicate Started(vs: ValidatorSet, net: Net) {
    && net.offered == {}
    && forall i :: 0 <= i < |net.peers| ==>
         exists index: nat, seed, genesis :: net.peers[i].node == FreshNode(net.peers[i].cfg, vs, index, seed, genesis)
  }

  lemma StartedInv(prim: Primitives, vs: ValidatorSet, net: Net)
    requires Initial(prim, vs, net) && Started(vs, net)
    ensures OfferNetInv(prim, net)
  {
    hide OfferInv, OnTrack;
    forall i | 0 <= i < |net.peers|
      ensures OfferInv(net.peers[i].cfg, net.peers[i].node) && OnTrack(net.peers[i].node.engine)
    {
      var p := net.peers[i];
      var index: nat, seed, genesis :| p.node == FreshNode(p.cfg, vs, index, seed, genesis);
      FreshNodeOffers(p.cfg, vs, index, seed, genesis);
    }
  }

  /** With a collision-free header hash, every run in which receivers take no made-up stale proposal is safe; the
      nodes' own proposals may be delayed, repeated and reordered at will. */
  lemma SafetyOverGuardedRuns(prim: Primitives, vs: ValidatorSet, net: Net, evs: seq<NetEvent>)
    requires InjectiveHash(prim) && Initial(prim, vs, net) && Started(vs, net) && FaultBound(vs, net)
    requires (InitialInv(prim, vs, net); StartedInv(prim, vs, net); GuardedRun(prim, vs, net, evs))
    ensures (InitialInv(prim, vs, net); IsRun(prim, vs, net, evs)) && Safe(prim, vs, After(prim, vs, net, evs))
  {
    hide NetInv, OfferNetInv, Initial, Started, InjectiveHash;
    InitialInv(prim, vs, net);
    StartedInv(prim, vs, net);
    GuardedRunIsRun(prim, vs, net, evs);
    SafetyOverRuns(prim, vs, net, evs);
  }
}
