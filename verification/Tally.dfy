/** Votes, vote tallies and the quorum certificates they emit.

    The source has a PRE-VOTE and a PRE-COMMIT copy of each type that differ only in the digest
    they sign; here one definition serves both, and the `Statement` being tallied carries the kind.
  */
module Tally {
  import opened Bits
  import opened Crypto
  import opened Validators

  datatype Phase = AwaitingProposal | Prevoting | Precommitting | Committed

  datatype BftError =
    | WrongBlockHash
    | WrongHeight
    | WrongRound
    | ValidatorIndexOutOfBounds(index: nat, size: nat)
    | DuplicateVote(voter: nat)
    | InvalidBlsSignature
    | InvalidVrfProof
    | WrongPhase(expected: Phase, actual: Phase)
    | NoActiveCoordinator
    | NotLeader(round: nat, leader: nat)
    | ProposalHashMismatch
    | InvalidProposalBody
    | ActiveRoundInProgress

  datatype TallyState = Accepted | ReachedQuorum

  datatype Vote = Vote(block: Bytes, height: nat, round: nat, index: nat, sig: VoteSignature)

  datatype Certificate =
    Certificate(kind: VoteKind, block: Bytes, height: nat, round: nat, signers: nat, sig: VoteSignature)

  /** The source's own type for PRE-COMMIT certificates. */
  type PrecommitCertificate = c: Certificate | c.kind == Precommit
    witness Certificate(Precommit, [], 0, 0, 0, Signature(multiset{}))

  function StatementOf(c: Certificate): Statement {
    Statement(c.kind, c.block, c.height, c.round)
  }

  function SignVote(key: BlsKey, st: Statement, index: nat): Vote {
    Vote(st.block, st.height, st.round, index, Sign(key, st))
  }

  /** First check of `submit` that the vote fails, given the voters already counted. */
  function VoteError(vs: ValidatorSet, st: Statement, voters: nat, v: Vote): Option<BftError> {
    if v.block != st.block then Some(WrongBlockHash)
    else if v.height != st.height then Some(WrongHeight)
    else if v.round != st.round then Some(WrongRound)
    else if v.index >= vs.Size() then Some(ValidatorIndexOutOfBounds(v.index, vs.Size()))
    else if Bit(voters, v.index) then Some(DuplicateVote(v.index))
    else if !Verifies(v.sig, st, vs.validators[v.index].blsKey) then Some(InvalidBlsSignature)
    else None
  }

  /** The vote is a genuine signature of an indexed validator over exactly `st`. */
  predicate Supports(vs: ValidatorSet, st: Statement, v: Vote) {
    && v.block == st.block && v.height == st.height && v.round == st.round
    && v.index < vs.Size()
    && Verifies(v.sig, st, vs.validators[v.index].blsKey)
  }

  /** The validators with a genuine vote for `st` among `votes`. */
  function Supporters(vs: ValidatorSet, st: Statement, votes: seq<Vote>): (s: set<nat>)
    ensures forall i :: i in s ==> i < vs.Size()
  {
    set v | v in votes && Supports(vs, st, v) :: v.index
  }

  // ---------------------------------------------------------------------------------------
  // Certificates
  // ---------------------------------------------------------------------------------------

  /** One signature over `st` from every validator whose index is in `s`, summed in index order. */
  function Contribution(vs: seq<Validator>, s: set<nat>, st: Statement): multiset<(BlsKey, Statement)> {
    if vs == [] then multiset{}
    else
      var rest := Contribution(vs[..|vs| - 1], s, st);
      if |vs| - 1 in s then rest + multiset{(vs[|vs| - 1].blsKey, st)} else rest
  }

  lemma {:induction false} ContributionAgree(vs: seq<Validator>, s: set<nat>, t: set<nat>, st: Statement)
    requires forall i: nat :: i < |vs| ==> (i in s <==> i in t)
    ensures Contribution(vs, s, st) == Contribution(vs, t, st)
  {
    if vs != [] {
      ContributionAgree(vs[..|vs| - 1], s, t, st);
    }
  }

  lemma {:induction false} ContributionInsert(vs: seq<Validator>, s: set<nat>, i: nat, st: Statement)
    requires i < |vs| && i !in s
    ensures Contribution(vs, s + {i}, st) == Contribution(vs, s, st) + multiset{(vs[i].blsKey, st)}
  {
    if i < |vs| - 1 {
      ContributionInsert(vs[..|vs| - 1], s, i, st);
    } else {
      ContributionAgree(vs[..i], s + {i}, s, st);
    }
  }

  lemma {:induction false} ContributionEmpty(vs: seq<Validator>, st: Statement)
    ensures Contribution(vs, {}, st) == multiset{}
  {
    if vs != [] {
      ContributionEmpty(vs[..|vs| - 1], st);
    }
  }

  /** Every listed validator's own signature is part of the sum. */
  lemma {:induction false} ContributionHas(vs: seq<Validator>, s: set<nat>, i: nat, st: Statement)
    requires i < |vs| && i in s
    ensures (vs[i].blsKey, st) in Contribution(vs, s, st)
  {
    if i < |vs| - 1 {
      ContributionHas(vs[..|vs| - 1], s, i, st);
    }
  }

  /** ... and nothing else is. */
  lemma {:induction false} ContributionOnly(vs: seq<Validator>, s: set<nat>, p: (BlsKey, Statement), st: Statement)
    returns (i: nat)
    requires p in Contribution(vs, s, st)
    ensures i < |vs| && i in s && p == (vs[i].blsKey, st)
  {
    var n := |vs| - 1;
    if n in s && p == (vs[n].blsKey, st) {
      i := n;
    } else {
      i := ContributionOnly(vs[..n], s, p, st);
    }
  }

  /** The certificate lists known validators with a quorum of stake and is the sum of their signatures. */
  predicate CertOk(vs: ValidatorSet, c: Certificate) {
    var s := Members(c.signers);
    && (forall i :: i in s ==> i < vs.Size())
    && IsQuorum(vs, s)
    && c.sig.parts == Contribution(vs.validators, s, StatementOf(c))
  }

  function MakeCert(vs: ValidatorSet, st: Statement, voters: nat): Certificate {
    Certificate(st.kind, st.block, st.height, st.round, voters,
                Signature(Contribution(vs.validators, Members(voters), st)))
  }

  /** The loop over the bitmap: keys of the set bits in index order, and their stake. */
  method CollectSigners(vs: ValidatorSet, signers: nat, ghost st: Statement) returns (pks: seq<BlsKey>, stake: nat)
    requires vs.Valid()
    ensures stake == StakeOf(vs.validators, Members(signers))
    ensures SumOfKeys(pks, st) == Contribution(vs.validators, Members(signers), st)
    ensures pks == [] ==> stake == 0
  {
    var n := vs.Size();
    ghost var s := Members(signers);
    assert vs.validators[..n] == vs.validators;
    pks, stake := [], 0;
    for i := 0 to n
      invariant stake == StakeOf(vs.validators[..i], s)
      invariant SumOfKeys(pks, st) == Contribution(vs.validators[..i], s, st)
      invariant pks == [] ==> stake == 0
    {
      assert vs.validators[..i + 1][..i] == vs.validators[..i];
      StakeMonotone(vs.validators[..i + 1], s, s);
      TotalOfPrefix(vs.validators, i + 1);
      if Bit(signers, i) {
        assert (pks + [vs.validators[i].blsKey])[..|pks|] == pks;
        pks := pks + [vs.validators[i].blsKey];
        stake := SaturatingAdd64(stake, vs.validators[i].stake);
      }
    }
  }

  function CertErrorOf(vs: ValidatorSet, c: Certificate): BftError {
    if c.signers != 0 && Ilog2(c.signers) >= vs.Size()
    then ValidatorIndexOutOfBounds(Ilog2(c.signers), vs.Size())
    else InvalidBlsSignature
  }

  /** A refused certificate that names an unknown validator is refused for the highest such index. */
  lemma CertRefusalSaysWhy(vs: ValidatorSet, c: Certificate)
    ensures var s, e := Members(c.signers), CertErrorOf(vs, c);
      if exists i :: i in s && i >= vs.Size()
      then e.ValidatorIndexOutOfBounds? && e.size == vs.Size() && e.index in s && forall i :: i in s ==> i <= e.index
      else e == InvalidBlsSignature
  {
    HighestBitBounds(c.signers, vs.Size());
    HighestMember(c.signers);
  }

  /** Certificate verification accepts exactly the `CertOk` certificates. */
  method VerifyCertificate(vs: ValidatorSet, c: Certificate) returns (r: Result<(), BftError>)
    requires vs.Valid()
    ensures r.Ok? <==> CertOk(vs, c)
    ensures r.Err? ==> r.error == CertErrorOf(vs, c)
  {
    HighestBitBounds(c.signers, vs.Size());
    if c.signers != 0 && Ilog2(c.signers) >= vs.Size() {
      return Err(ValidatorIndexOutOfBounds(Ilog2(c.signers), vs.Size()));
    }
    var pks, signerStake := CollectSigners(vs, c.signers, StatementOf(c));
    if signerStake < vs.QuorumThreshold() {
      return Err(InvalidBlsSignature);
    }
    if !FastAggregateVerify(c.sig, StatementOf(c), pks) {
      return Err(InvalidBlsSignature);
    }
    return Ok(());
  }

  /** Anyone named by a verifying certificate signed exactly its statement. */
  lemma CertSignersSigned(vs: ValidatorSet, c: Certificate, i: nat)
    requires CertOk(vs, c) && Bit(c.signers, i)
    ensures i < vs.Size() && (vs.validators[i].blsKey, StatementOf(c)) in c.sig.parts
  {
    assert i in Members(c.signers);
    ContributionHas(vs.validators, Members(c.signers), i, StatementOf(c));
  }

  /** Voters known to the set and holding a quorum make a verifying certificate. */
  lemma MadeCertVerifies(vs: ValidatorSet, st: Statement, voters: nat)
    requires forall i :: i in Members(voters) ==> i < vs.Size()
    requires IsQuorum(vs, Members(voters))
    ensures CertOk(vs, MakeCert(vs, st, voters)) && StatementOf(MakeCert(vs, st, voters)) == st
  {
  }

  /** The bitmap after submitting votes in order to a fresh tallier. */
  function TallyAll(vs: ValidatorSet, st: Statement, votes: seq<Vote>): nat {
    if votes == [] then 0
    else
      var voters := TallyAll(vs, st, votes[..|votes| - 1]);
      var v := votes[|votes| - 1];
      if VoteError(vs, st, voters, v) == None then SetBit(voters, v.index) else voters
  }

  /** After any submissions, duplicates and forgeries included, in any order, the bitmap is the set of
      validators with a genuine vote among them; a certificate then exists exactly when they hold a
      quorum, and it verifies. */
  lemma {:induction false} TallyCountsSupporters(vs: ValidatorSet, st: Statement, votes: seq<Vote>)
    ensures Members(TallyAll(vs, st, votes)) == Supporters(vs, st, votes)
    ensures CertOk(vs, MakeCert(vs, st, TallyAll(vs, st, votes))) <==> IsQuorum(vs, Supporters(vs, st, votes))
  {
    if votes == [] {
      ZeroMembers();
    } else {
      var init, v := votes[..|votes| - 1], votes[|votes| - 1];
      TallyCountsSupporters(vs, st, init);
      var voters := TallyAll(vs, st, init);
      SetBitMembers(voters, v.index);
      assert votes == init + [v];
      SupportersSnoc(vs, st, init, v);
      hide Supporters;
      assert Bit(voters, v.index) <==> v.index in Members(voters);
    }
  }

  lemma SupportersSnoc(vs: ValidatorSet, st: Statement, votes: seq<Vote>, v: Vote)
    ensures Supporters(vs, st, votes + [v]) == Supporters(vs, st, votes) + if Supports(vs, st, v) then {v.index} else {}
  {
    forall i | i in Supporters(vs, st, votes) ensures i in Supporters(vs, st, votes + [v]) {
      var w :| w in votes && Supports(vs, st, w) && w.index == i;
      assert w in votes + [v];
    }
    if Supports(vs, st, v) {
      assert v in votes + [v];
    }
  }

  // ---------------------------------------------------------------------------------------
  // The tallier
  // ---------------------------------------------------------------------------------------

  /** Per-(block, height, round) vote collector.  Its abstract value is the set of voters, held
      as the bitmap; everything else it stores is a function of that. */
  class Tallier {
    const statement: Statement
    const vs: ValidatorSet
    var received: set<nat>
    var sigs: seq<VoteSignature>
    var pubkeys: seq<BlsKey>
    var signerBitmap: nat
    var stakeCollected: nat

    /** Bitmap, received set, collected stake and signature material agree. */
    ghost predicate Valid()
      reads this
    {
      && vs.Valid()
      && received == Members(signerBitmap)
      && (forall i :: i in received ==> i < vs.Size())
      && stakeCollected == StakeOf(vs.validators, received)
      && SumOfParts(sigs) == SumOfKeys(pubkeys, statement) == Contribution(vs.validators, received, statement)
      && |sigs| == |pubkeys| == |received|
    }

    constructor (statement: Statement, vs: ValidatorSet)
      requires vs.Valid()
      ensures Valid() && this.statement == statement && this.vs == vs && signerBitmap == 0
    {
      this.statement := statement;
      this.vs := vs;
      received, sigs, pubkeys, signerBitmap, stakeCollected := {}, [], [], 0, 0;
      new;
      ZeroMembers();
      ContributionEmpty(vs.validators, statement);
      StakeOfNone(vs.validators, {});
    }

    /** A vote failing any check changes nothing; an accepted one adds exactly its validator. */
    method Submit(v: Vote) returns (r: Result<TallyState, BftError>)
      requires Valid()
      modifies this
      ensures Valid()
      ensures VoteError(vs, statement, old(signerBitmap), v) == (if r.Err? then Some(r.error) else None)
      ensures r.Err? ==> unchanged(this)
      ensures r.Ok? ==> signerBitmap == SetBit(old(signerBitmap), v.index)
      ensures r.Ok? ==> (r.value == ReachedQuorum <==> IsQuorum(vs, Members(signerBitmap)))
    {
      if v.block != statement.block {
        return Err(WrongBlockHash);
      }
      if v.height != statement.height {
        return Err(WrongHeight);
      }
      if v.round != statement.round {
        return Err(WrongRound);
      }
      var idx := v.index;
      if idx >= vs.Size() {
        return Err(ValidatorIndexOutOfBounds(idx, vs.Size()));
      }
      if idx in received {
        return Err(DuplicateVote(idx));
      }
      var validator := vs.validators[idx];
      if !Verifies(v.sig, statement, validator.blsKey) {
        return Err(InvalidBlsSignature);
      }
      SetBitMembers(signerBitmap, idx);
      StakeInsert(vs.validators, received, idx);
      StakeMonotone(vs.validators, received + {idx}, received + {idx});
      ContributionInsert(vs.validators, received, idx, statement);
      assert (sigs + [v.sig])[..|sigs|] == sigs;
      assert (pubkeys + [validator.blsKey])[..|pubkeys|] == pubkeys;
      received := received + {idx};
      sigs := sigs + [v.sig];
      pubkeys := pubkeys + [validator.blsKey];
      signerBitmap := SetBit(signerBitmap, idx);
      stakeCollected := SaturatingAdd64(stakeCollected, validator.stake);
      if stakeCollected >= vs.QuorumThreshold() {
        return Ok(ReachedQuorum);
      } else {
        return Ok(Accepted);
      }
    }

    /** A certificate is produced exactly at quorum, and it verifies under the tallier's own set. */
    method TryFinalize() returns (r: Option<Certificate>)
      requires Valid()
      ensures r.Some? <==> IsQuorum(vs, Members(signerBitmap))
      ensures r.Some? ==> r.value == MakeCert(vs, statement, signerBitmap) && CertOk(vs, r.value)
    {
      if stakeCollected < vs.QuorumThreshold() {
        return None;
      }
      if received == {} {
        StakeOfNone(vs.validators, {});
        assert false;
      }
      var aggregate := AggregateSignatures(sigs);
      return Some(Certificate(statement.kind, statement.block, statement.height, statement.round,
                              signerBitmap, aggregate.value));
    }
  }
}
