/** What is delivered is enough: a node that receives the leader's proposal and the votes of a quorum in both phases,
    through the driver and in any order, commits the block. */
module Progress {
  import opened Crypto
  import opened Validators
  import opened Tally
  import opened Coordinator
  import opened Engine
  import opened Delivery
  import opened Wire
  import opened Chain
  import opened Gossip

  /** The message brings the delivery to a node at `s`: a vote of a height up to the next one, or a proposal for the
      round the node is in whose fields rebuild to the announced block. */
  predicate Carries(cfg: Config, s: EngineState, m: Message, d: Delivery) {
    match d
    case DeliverVote(kind, v) => m == VoteMsg(kind, v) && v.height <= s.headNumber + 1
    case DeliverProposal(p) =>
      && m.ProposalMsg? && m.height == s.headNumber + 1 && m.round == ActiveCoord(s).round
      && m.proof == p.proof && m.block == HashOf(cfg.prim, p.block)
      && cfg.prim.decodeBody(m.body) == Some(p.block.body)
      && p.block == BuildBlock(cfg, s, m.height, m.proof, m.coinbase, p.block.body)
  }

  predicate AllCarry(cfg: Config, s: EngineState, ms: seq<Message>, ds: seq<Delivery>) {
    |ms| == |ds| && forall i :: 0 <= i < |ms| ==> Carries(cfg, s, ms[i], ds[i])
  }

  lemma DispatchDelivers(cfg: Config, n: Node, m: Message, d: Delivery)
    requires EngineInv(cfg.prim, n.engine) && Carries(cfg, n.engine, m, d)
    ensures n.engine.vs.Valid() && ActiveCoord(n.engine).vs.Valid()
    ensures Dispatch(cfg, n, m) == Quiet(n.(engine := Deliver(cfg.prim, n.engine, d)))
  {
    hide RemoteProposal, RemoteVote, EngineInv;
    ValidSet(cfg, n.engine);
  }

  // ---------------------------------------------------------------------------------------
  // Deliveries stay in the round
  // ---------------------------------------------------------------------------------------

  /** Head and position are those of `s`, and an accepted proposal is stored, for the next height. */
  predicate StillAt(s: EngineState, t: EngineState) {
    && HeadOf(t) == HeadOf(s) && t.vs == s.vs
    && ActiveCoord(t).height == ActiveCoord(s).height && ActiveCoord(t).round == ActiveCoord(s).round
    && (!ActiveCoord(t).stage.NoProposal? ==>
          t.proposal.Some? && t.proposal.value.block.header.number == s.headNumber + 1)
  }

  lemma DeliverStays(cfg: Config, s: EngineState, t: EngineState, m: Message, d: Delivery)
    requires EngineInv(cfg.prim, t) && StillAt(s, t) && Carries(cfg, s, m, d)
    ensures ActiveCoord(t).vs.Valid() && StillAt(s, Deliver(cfg.prim, t, d))
  {
    hide Drain, CoordInv;
    ActiveCoordInv(cfg.prim, t);
    match d
    case DeliverProposal(p) =>
      RemoteProposalFrame(cfg.prim, t, p);
      AcceptedProposalInv(cfg.prim, t, p);
      var r := AfterProposal(cfg.prim, ActiveCoord(t), HashOf(cfg.prim, p.block), p.proof);
      if r.Ok? {
        DrainContinues(t.(coord := Some(r.value), proposal := Some(p)));
      }
    case DeliverVote(kind, v) =>
      RemoteVoteFrame(cfg.prim, t, kind, v);
      var r := Recorded(t, kind, v);
      if r.coord.Some? && AfterVote(r.coord.value, kind, v).Ok? {
        VoteContinues(r.coord.value, kind, v);
        DrainContinues(r.(coord := Some(AfterVote(r.coord.value, kind, v).value)));
      }
  }

  lemma {:induction false} DeliverAllStays(cfg: Config, s: EngineState, ms: seq<Message>, ds: seq<Delivery>)
    requires EngineInv(cfg.prim, s) && AwaitsProposal(s) && AllCarry(cfg, s, ms, ds)
    ensures StillAt(s, DeliverAll(cfg.prim, s, ds))
  {
    hide Deliver, EngineInv, StillAt, Carries;
    if ds == [] {
      StaysAtStart(s);
    } else {
      var k := |ds| - 1;
      DeliverAllStays(cfg, s, ms[..k], ds[..k]);
      DeliverStays(cfg, s, DeliverAll(cfg.prim, s, ds[..k]), ms[k], ds[k]);
    }
  }

  lemma StaysAtStart(s: EngineState)
    requires AwaitsProposal(s)
    ensures StillAt(s, s)
  {
  }

  lemma CarriesLater(cfg: Config, s: EngineState, t: EngineState, m: Message, d: Delivery)
    requires StillAt(s, t) && Carries(cfg, s, m, d)
    ensures Carries(cfg, t, m, d)
  {
  }

  // ---------------------------------------------------------------------------------------
  // Through the driver
  // ---------------------------------------------------------------------------------------

  function Receives(ms: seq<Message>): (es: seq<NodeEvent>)
    ensures |es| == |ms| && forall i :: 0 <= i < |ms| ==> es[i] == Receive(ms[i])
  {
    seq(|ms|, i requires 0 <= i < |ms| => Receive(ms[i]))
  }

  predicate HasCommitted(s: EngineState) {
    s.coord.Some? && s.coord.value.stage.Done?
  }

  /** Until the commit, running the driver on the messages is delivering them to the engine. */
  lemma {:induction false} RunIsDelivery(cfg: Config, n: Node, ms: seq<Message>, ds: seq<Delivery>)
    requires EngineInv(cfg.prim, n.engine) && AwaitsProposal(n.engine) && AllCarry(cfg, n.engine, ms, ds)
    requires forall j :: 0 <= j <= |ds| ==> !HasCommitted(DeliverAll(cfg.prim, n.engine, ds[..j]))
    ensures RunNode(cfg, n, Receives(ms)) == Quiet(n.(engine := DeliverAll(cfg.prim, n.engine, ds)))
  {
    hide Deliver, EngineInv, StillAt, Carries, Dispatch, HasCommitted;
    if ds != [] {
      var k := |ds| - 1;
      forall j | 0 <= j <= k ensures !HasCommitted(DeliverAll(cfg.prim, n.engine, ds[..k][..j])) {
        assert ds[..k][..j] == ds[..j];
      }
      RunIsDelivery(cfg, n, ms[..k], ds[..k]);
      assert Receives(ms)[..k] == Receives(ms[..k]) && ds[..|ds|] == ds;
      LastDelivery(cfg, n, ms, ds);
      NotCommittedRests(cfg, DeliverAll(cfg.prim, n.engine, ds));
    }
  }

  lemma NotCommittedRests(cfg: Config, s: EngineState)
    ensures !HasCommitted(s) ==> Harvest(cfg.prim, s).1.None? && Harvest(cfg.prim, s).0 == s
  {
  }

  /** The last message is dispatched as the last delivery. */
  lemma LastDelivery(cfg: Config, n: Node, ms: seq<Message>, ds: seq<Delivery>)
    requires EngineInv(cfg.prim, n.engine) && AwaitsProposal(n.engine) && AllCarry(cfg, n.engine, ms, ds) && ds != []
    ensures var k := |ds| - 1;
      var m := n.(engine := DeliverAll(cfg.prim, n.engine, ds[..k]));
      && m.engine.vs.Valid() && ActiveCoord(m.engine).vs.Valid()
      && Dispatch(cfg, m, ms[k]) == Quiet(n.(engine := DeliverAll(cfg.prim, n.engine, ds)))
  {
    hide EngineInv, StillAt, Carries, Dispatch, Deliver;
    var k := |ds| - 1;
    DeliverAllStays(cfg, n.engine, ms[..k], ds[..k]);
    var m := n.(engine := DeliverAll(cfg.prim, n.engine, ds[..k]));
    CarriesLater(cfg, n.engine, m.engine, ms[k], ds[k]);
    DispatchDelivers(cfg, m, ms[k], ds[k]);
  }

  /** The outcome: exactly this block is committed on top of the old head, with a certificate that verifies. */
  ghost predicate CommitsBlock(cfg: Config, n: Node, o: Outcome, b: Bytes) {
    && |o.commits| == 1
    && var c := o.commits[0];
       && HashOf(cfg.prim, c.block) == b && CertOk(n.engine.vs, c.cert) && c.cert.block == b
       && c.cert.height == c.block.header.number == n.engine.headNumber + 1
       && o.node.engine.headHash == b && o.node.engine.headNumber == n.engine.headNumber + 1
       && o.node.engine.coord.None? && o.node.harvested == n.harvested + [c.block]
  }

  lemma CommittedIsHarvested(cfg: Config, n: Node, t: EngineState, b: Bytes)
    requires EngineInv(cfg.prim, t) && StillAt(n.engine, t) && HasCommitted(t) && t.coord.value.stage.block == b
    requires ActiveCoord(n.engine).height == n.engine.headNumber + 1
    ensures CommitsBlock(cfg, n, AutoHarvest(cfg.prim, Quiet(n.(engine := t))), b)
  {
    hide CertOk, Cached;
  }

  /** The first moment at which the engine has committed. */
  lemma FirstCommit(cfg: Config, s: EngineState, ds: seq<Delivery>) returns (k: nat)
    requires EngineInv(cfg.prim, s) && AwaitsProposal(s) && HasCommitted(DeliverAll(cfg.prim, s, ds))
    ensures 0 < k <= |ds| && HasCommitted(DeliverAll(cfg.prim, s, ds[..k]))
    ensures forall j :: 0 <= j < k ==> !HasCommitted(DeliverAll(cfg.prim, s, ds[..j]))
  {
    hide Deliver, EngineInv;
    assert ds[..|ds|] == ds && ds[..0] == [];
    k := 0;
    while !HasCommitted(DeliverAll(cfg.prim, s, ds[..k]))
      invariant k <= |ds| && forall j :: 0 <= j < k ==> !HasCommitted(DeliverAll(cfg.prim, s, ds[..j]))
      decreases |ds| - k
    {
      k := k + 1;
    }
  }

  /** Among the messages received are, in any order, a proposal of the drawn leader and genuine votes for it of a quorum
      in each phase: at some point of the run the node has committed exactly that block, and nothing before. */
  lemma QuorumCommits(cfg: Config, n: Node, ms: seq<Message>, ds: seq<Delivery>) returns (k: nat)
    requires EngineInv(cfg.prim, n.engine) && AwaitsProposal(n.engine) && ActiveCoord(n.engine).vs.Valid()
    requires AllCarry(cfg, n.engine, ms, ds)
    requires FirstValid(cfg.prim, ActiveCoord(n.engine), ds).Some?
    requires var c := ActiveCoord(n.engine);
      var b := FirstValid(cfg.prim, c, ds).value;
      forall kind :: IsQuorum(c.vs, Supporters(c.vs, Statement(kind, b, c.height, c.round), Heard(n.engine, ds, kind)))
    ensures k <= |ms|
    ensures CommitsBlock(cfg, n, RunNode(cfg, n, Receives(ms[..k])),
      FirstValid(cfg.prim, ActiveCoord(n.engine), ds).value)
  {
    hide Deliver, EngineInv, StillAt, Carries, Dispatch, Supporters, Heard, IsQuorum, CommitsBlock, ProofOk;
    var s := n.engine;
    var b := FirstValid(cfg.prim, ActiveCoord(s), ds).value;
    PhaseAfterDeliveries(cfg.prim, s, ds);
    k := FirstCommit(cfg, s, ds);
    var front, upto := ds[..k - 1], ds[..k];
    forall j | 0 <= j <= k - 1 ensures !HasCommitted(DeliverAll(cfg.prim, s, front[..j])) {
      assert front[..j] == ds[..j];
    }
    RunIsDelivery(cfg, n, ms[..k - 1], front);
    assert upto[..k - 1] == front && ms[..k][..k - 1] == ms[..k - 1];
    assert Receives(ms[..k])[..k - 1] == Receives(ms[..k - 1]);
    LastDelivery(cfg, n, ms[..k], upto);
    DeliverAllStays(cfg, s, ms[..k], upto);
    BlockIsFirstValid(cfg, s, ds, k);
    HeightIsNext(cfg.prim, s);
    CommittedIsHarvested(cfg, n, DeliverAll(cfg.prim, s, upto), b);
    var before := RunNode(cfg, n, Receives(ms[..k - 1]));
    ThenQuiet(before, NodeStep(cfg, before.node, Receive(ms[k - 1])));
  }

  lemma HeightIsNext(prim: Primitives, s: EngineState)
    requires EngineInv(prim, s)
    ensures ActiveCoord(s).height == s.headNumber + 1
  {
  }

  lemma ThenQuiet(o: Outcome, p: Outcome)
    requires o.out == [] && o.commits == []
    ensures Then(o, p) == p
  {
  }

  /** The block committed by then is the first valid proposal. */
  lemma BlockIsFirstValid(cfg: Config, s: EngineState, ds: seq<Delivery>, k: nat)
    requires EngineInv(cfg.prim, s) && AwaitsProposal(s) && ActiveCoord(s).vs.Valid() && k <= |ds|
    requires HasCommitted(DeliverAll(cfg.prim, s, ds[..k]))
    ensures FirstValid(cfg.prim, ActiveCoord(s), ds)
         == Some(DeliverAll(cfg.prim, s, ds[..k]).coord.value.stage.block)
  {
    hide Deliver, EngineInv, Supporters, Heard, ProofOk;
    var c := ActiveCoord(s);
    var t := DeliverAll(cfg.prim, s, ds[..k]);
    if FirstValid(cfg.prim, c, ds[..k]).None? {
      DeliveryInvHolds(cfg.prim, s, ds[..k], []);
      assert false;
    }
    PhaseAfterDeliveries(cfg.prim, s, ds[..k]);
    FirstValidStays(cfg.prim, c, ds, k);
  }

  lemma {:induction false} FirstValidStays(prim: Primitives, c: Coord, ds: seq<Delivery>, k: nat)
    requires c.vs.Valid() && k <= |ds| && FirstValid(prim, c, ds[..k]).Some?
    ensures FirstValid(prim, c, ds) == FirstValid(prim, c, ds[..k])
  {
    hide ProofOk;
    if k == |ds| {
      assert ds[..k] == ds;
    } else {
      assert ds[..|ds| - 1][..k] == ds[..k];
      FirstValidStays(prim, c, ds[..|ds| - 1], k);
    }
  }
}
