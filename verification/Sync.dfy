/** The block-sync state machine: headers first, checked for consecutive numbers, then bodies, checked
    against the header hashes in order. */
module Sync {
  import opened Crypto

  const HEADER_BATCH: nat := 192

  datatype SyncState =
    | Idle
    | Headers(target: nat, next: nat)
    | Bodies(pending: seq<Bytes>)
    | Done

  datatype Event =
    | PeerAnnouncedTip(height: nat)
    | HeadersReceived(batch: seq<Header>)
    | BodyReceived(block: Block)
    | PeerDisconnected

  datatype Action =
    | RequestHeaders(from: nat, count: nat)
    | RequestBody(hash: Bytes)
    | PersistBlock(block: Block)
    | NoAction

  datatype SyncError =
    | EmptyHeaderBatch
    | HeaderOutOfOrder(expected: nat, got: nat)
    | UnexpectedBody(hash: Bytes)
    | Unexpected(state: SyncState, event: Event)

  type Hash = Header -> Bytes

  datatype Engine = Engine(state: SyncState, buffer: seq<Header>, localHeight: nat)

  function Hashes(hash: Hash, headers: seq<Header>): (r: seq<Bytes>)
    ensures |r| == |headers| && forall i :: 0 <= i < |r| ==> r[i] == hash(headers[i])
  {
    seq(|headers|, i requires 0 <= i < |headers| => hash(headers[i]))
  }

  /** The first header whose number is not the expected one, or the length. */
  function FirstGap(batch: seq<Header>, next: nat): (i: nat)
    ensures i <= |batch| && (i < |batch| ==> batch[i].number != next + i)
    ensures forall j :: 0 <= j < i ==> batch[j].number == next + j
  {
    if batch == [] || batch[0].number != next then 0 else 1 + FirstGap(batch[1..], next + 1)
  }

  function OnHeaders(hash: Hash, s: Engine, target: nat, next: nat, batch: seq<Header>)
    : (Engine, Result<Action, SyncError>)
  {
    var gap := FirstGap(batch, next);
    if batch == [] then (s, Err(EmptyHeaderBatch))
    else if gap < |batch| then (s, Err(HeaderOutOfOrder(next + gap, batch[gap].number)))
    else
      var buffer := s.buffer + batch;
      if next + |batch| > target then
        (Engine(Bodies(Hashes(hash, buffer)), buffer, s.localHeight), Ok(RequestBody(hash(buffer[0]))))
      else
        (Engine(Headers(target, next + |batch|), buffer, s.localHeight),
         Ok(RequestHeaders(next + |batch|, HEADER_BATCH)))
  }

  function OnBody(hash: Hash, s: Engine, pending: seq<Bytes>, b: Block): (Engine, Result<Action, SyncError>) {
    if pending == [] || pending[0] != hash(b.header) then (s, Err(UnexpectedBody(hash(b.header))))
    else if |pending| == 1 then (Engine(Done, [], b.header.number), Ok(PersistBlock(b)))
    else (Engine(Bodies(pending[1..]), s.buffer, b.header.number), Ok(RequestBody(pending[1])))
  }

  function Handled(hash: Hash, s: Engine, e: Event): (Engine, Result<Action, SyncError>) {
    match (s.state, e)
    case (Idle, PeerAnnouncedTip(height)) =>
      if height <= s.localHeight then (s.(state := Done), Ok(NoAction))
      else (s.(state := Headers(height, s.localHeight + 1)), Ok(RequestHeaders(s.localHeight + 1, HEADER_BATCH)))
    case (Headers(target, next), HeadersReceived(batch)) => OnHeaders(hash, s, target, next, batch)
    case (Bodies(pending), BodyReceived(b)) => OnBody(hash, s, pending, b)
    case (_, PeerDisconnected) => (s.(state := Idle, buffer := []), Ok(NoAction))
    case _ => (s, Err(Unexpected(s.state, e)))
  }

  /** A rejected event leaves the engine as it was. */
  lemma RejectedChangesNothing(hash: Hash, s: Engine, e: Event)
    requires Handled(hash, s, e).1.Err?
    ensures Handled(hash, s, e).0 == s
  {
  }

  // ---------------------------------------------------------------------------------------
  // The engine object
  // ---------------------------------------------------------------------------------------

  class SyncEngine {
    const hash: Hash
    var state: SyncState
    var headersBuffer: seq<Header>
    var localHeight: nat

    function View(): Engine
      reads this
    {
      Engine(state, headersBuffer, localHeight)
    }

    constructor (hash: Hash, localHeight: nat)
      ensures this.hash == hash && View() == Engine(Idle, [], localHeight)
    {
      this.hash, state, headersBuffer, this.localHeight := hash, Idle, [], localHeight;
    }

    method Handle(e: Event) returns (r: Result<Action, SyncError>)
      modifies this
      ensures (View(), r) == Handled(hash, old(View()), e)
    {
      match (state, e)
      case (Idle, PeerAnnouncedTip(height)) =>
        if height <= localHeight {
          state := Done;
          return Ok(NoAction);
        }
        state := Headers(height, localHeight + 1);
        return Ok(RequestHeaders(localHeight + 1, HEADER_BATCH));
      case (Headers(target, next), HeadersReceived(batch)) =>
        r := AcceptHeaders(target, next, batch);
      case (Bodies(pending), BodyReceived(b)) =>
        if pending == [] || pending[0] != hash(b.header) {
          return Err(UnexpectedBody(hash(b.header)));
        }
        localHeight := b.header.number;
        if |pending| == 1 {
          state := Done;
          headersBuffer := [];
          return Ok(PersistBlock(b));
        }
        state := Bodies(pending[1..]);
        return Ok(RequestBody(pending[1]));
      case (_, PeerDisconnected) =>
        state := Idle;
        headersBuffer := [];
        return Ok(NoAction);
      case _ =>
        return Err(Unexpected(state, e));
    }

    method AcceptHeaders(target: nat, next: nat, batch: seq<Header>) returns (r: Result<Action, SyncError>)
      modifies this
      ensures (View(), r) == OnHeaders(hash, old(View()), target, next, batch)
    {
      if batch == [] {
        return Err(EmptyHeaderBatch);
      }
      for i := 0 to |batch|
        invariant forall j :: 0 <= j < i ==> batch[j].number == next + j
      {
        if batch[i].number != next + i {
          return Err(HeaderOutOfOrder(next + i, batch[i].number));
        }
      }
      headersBuffer := headersBuffer + batch;
      if next + |batch| > target {
        var pending: seq<Bytes> := [];
        for i := 0 to |headersBuffer|
          invariant |pending| == i && forall j :: 0 <= j < i ==> pending[j] == hash(headersBuffer[j])
        {
          pending := pending + [hash(headersBuffer[i])];
        }
        assert pending == Hashes(hash, headersBuffer);
        state := Bodies(pending);
        return Ok(RequestBody(pending[0]));
      }
      state := Headers(target, next + |batch|);
      return Ok(RequestHeaders(next + |batch|, HEADER_BATCH));
    }
  }

  // ---------------------------------------------------------------------------------------
  // Runs
  // ---------------------------------------------------------------------------------------

  /** An engine with what it has accepted: all bodies, and, since the last disconnect, the headers, the
      announced target and the number of bodies there were before. */
  datatype Trace = Trace(engine: Engine, bodies: seq<Block>, base: nat, headers: seq<Header>, target: nat)

  function Track(hash: Hash, t: Trace, e: Event): Trace {
    var (s, r) := Handled(hash, t.engine, e);
    if r.Err? then t.(engine := s)
    else
      match e
      case PeerAnnouncedTip(height) => t.(engine := s, target := height)
      case HeadersReceived(batch) => t.(engine := s, headers := t.headers + batch)
      case BodyReceived(b) => t.(engine := s, bodies := t.bodies + [b])
      case PeerDisconnected => Trace(s, t.bodies, |t.bodies|, [], 0)
  }

  function TrackAll(hash: Hash, local: nat, es: seq<Event>): Trace {
    if es == [] then Trace(Engine(Idle, [], local), [], 0, [], 0)
    else Track(hash, TrackAll(hash, local, es[..|es| - 1]), es[|es| - 1])
  }

  ghost predicate Injective(hash: Hash) {
    forall a, b :: hash(a) == hash(b) ==> a == b
  }

  /** Numbers run on from `from + 1`. */
  ghost predicate Consecutive(headers: seq<Header>, from: nat) {
    forall i :: 0 <= i < |headers| ==> headers[i].number == from + 1 + i
  }

  /** The bodies are those of the first headers, in order. */
  ghost predicate BodiesMatch(bodies: seq<Block>, base: nat, headers: seq<Header>) {
    && base <= |bodies| <= base + |headers|
    && forall i :: base <= i < |bodies| ==> bodies[i].header == headers[i - base]
  }

  ghost predicate SyncInv(hash: Hash, local: nat, t: Trace) {
    var s := t.engine;
    && s.localHeight == local + |t.bodies|
    && (forall i :: 0 <= i < |t.bodies| ==> t.bodies[i].header.number == local + 1 + i)
    && Consecutive(t.headers, local + t.base)
    && BodiesMatch(t.bodies, t.base, t.headers)
    && match s.state
       case Idle => t.headers == [] && s.buffer == []
       case Headers(target, next) =>
         && target == t.target && s.buffer == t.headers && t.base == |t.bodies|
         && next == local + t.base + 1 + |t.headers| <= target
       case Bodies(pending) =>
         && s.buffer == t.headers && local + t.base + |t.headers| >= t.target
         && |pending| == t.base + |t.headers| - |t.bodies| > 0
         && forall i :: 0 <= i < |pending| ==> pending[i] == hash(t.headers[|t.bodies| - t.base + i])
       case Done => s.buffer == [] && |t.bodies| == t.base + |t.headers| && s.localHeight >= t.target
  }

  lemma HeadersKeepInv(hash: Hash, local: nat, t: Trace, batch: seq<Header>)
    requires SyncInv(hash, local, t) && t.engine.state.Headers?
    ensures SyncInv(hash, local, Track(hash, t, HeadersReceived(batch)))
  {
    var headers := t.headers + batch;
    var next := t.engine.state.next;
    if batch != [] && FirstGap(batch, next) == |batch| {
      assert Consecutive(headers, local + t.base);
    }
  }

  lemma BodyKeepsInv(hash: Hash, local: nat, t: Trace, b: Block)
    requires Injective(hash) && SyncInv(hash, local, t) && t.engine.state.Bodies?
    ensures SyncInv(hash, local, Track(hash, t, BodyReceived(b)))
  {
    hide OnHeaders;
    var pending := t.engine.state.pending;
    if pending[0] == hash(b.header) {
      var k := |t.bodies| - t.base;
      assert hash(b.header) == hash(t.headers[k]);
      assert b.header == t.headers[k];
      assert b.header.number == local + t.base + 1 + k;
    }
  }

  lemma TrackKeepsInv(hash: Hash, local: nat, t: Trace, e: Event)
    requires Injective(hash) && SyncInv(hash, local, t)
    ensures SyncInv(hash, local, Track(hash, t, e))
  {
    match e
    case HeadersReceived(batch) =>
      if t.engine.state.Headers? {
        HeadersKeepInv(hash, local, t, batch);
      }
    case BodyReceived(b) =>
      if t.engine.state.Bodies? {
        BodyKeepsInv(hash, local, t, b);
      }
    case _ =>
  }

  /** Over every run, through any disconnects: the accepted bodies are numbered consecutively from the
      starting height, and the local height is that of the last one.  Whenever the engine is done, the
      bodies accepted since the last disconnect are exactly the accepted headers, in order, and reach
      the announced target. */
  lemma {:induction false} SyncRunIsCorrect(hash: Hash, local: nat, es: seq<Event>)
    requires Injective(hash)
    ensures var t := TrackAll(hash, local, es);
      && SyncInv(hash, local, t)
      && t.engine.localHeight == local + |t.bodies|
      && (forall i :: 0 <= i < |t.bodies| ==> t.bodies[i].header.number == local + 1 + i)
      && (t.engine.state.Done? ==>
            && t.base + |t.headers| == |t.bodies|
            && (forall i :: 0 <= i < |t.headers| ==> t.bodies[t.base + i].header == t.headers[i])
            && t.engine.localHeight >= t.target)
  {
    if es != [] {
      SyncRunIsCorrect(hash, local, es[..|es| - 1]);
      TrackKeepsInv(hash, local, TrackAll(hash, local, es[..|es| - 1]), es[|es| - 1]);
    }
  }

  // ---------------------------------------------------------------------------------------
  // Progress
  // ---------------------------------------------------------------------------------------

  /** Phase, then what is left to fetch in it. */
  function Measure(s: SyncState): (nat, nat) {
    match s
    case Idle => (3, 0)
    case Headers(target, next) => (2, if next <= target then target + 1 - next else 0)
    case Bodies(pending) => (1, |pending|)
    case Done => (0, 0)
  }

  predicate Below(m: (nat, nat), n: (nat, nat)) {
    m.0 < n.0 || (m.0 == n.0 && m.1 < n.1)
  }

  /** Every event that is accepted, other than a disconnect, brings the sync closer to its end. */
  lemma AcceptedMakesProgress(hash: Hash, local: nat, t: Trace, e: Event)
    requires SyncInv(hash, local, t) && !e.PeerDisconnected? && Handled(hash, t.engine, e).1.Ok?
    ensures Below(Measure(Handled(hash, t.engine, e).0.state), Measure(t.engine.state))
  {
  }

  /** The header numbers that come next, and the header whose body does. */
  ghost predicate Acceptable(hash: Hash, local: nat, t: Trace, e: Event)
    requires SyncInv(hash, local, t)
  {
    match e
    case PeerAnnouncedTip(_) => t.engine.state.Idle?
    case HeadersReceived(batch) =>
      && t.engine.state.Headers? && batch != []
      && forall i :: 0 <= i < |batch| ==> batch[i].number == local + t.base + |t.headers| + 1 + i
    case BodyReceived(b) => t.engine.state.Bodies? && hash(b.header) == hash(t.headers[|t.bodies| - t.base])
    case PeerDisconnected => true
  }

  /** The phase an accepted event leads to, from what has been announced and accepted by then. */
  predicate RightPhase(local: nat, t: Trace, e: Event) {
    match e
    case PeerAnnouncedTip(height) =>
      if height <= local + |t.bodies| then t.engine.state.Done? else t.engine.state.Headers?
    case HeadersReceived(_) =>
      if local + t.base + |t.headers| >= t.target then t.engine.state.Bodies? else t.engine.state.Headers?
    case BodyReceived(_) => if |t.bodies| == t.base + |t.headers| then t.engine.state.Done? else t.engine.state.Bodies?
    case PeerDisconnected => t.engine.state.Idle?
  }

  /** What the embedder must do next: ask for 192 headers from the first missing number, ask for the body of the first
      header without one, persist the body that finishes the sync, or nothing. */
  ghost predicate RightAction(hash: Hash, local: nat, t: Trace, e: Event, a: Action)
    requires SyncInv(hash, local, t)
  {
    match t.engine.state
    case Headers(_, _) => a == RequestHeaders(local + t.base + |t.headers| + 1, 192)
    case Bodies(_) => a == RequestBody(hash(t.headers[|t.bodies| - t.base]))
    case Done =>
      if e.BodyReceived? && t.bodies != [] then a == PersistBlock(t.bodies[|t.bodies| - 1]) else a == NoAction
    case Idle => a == NoAction
  }

  /** Exactly the events that continue the sync are accepted, and each leads to the right phase and action. */
  lemma EventsAreHandledRight(hash: Hash, local: nat, t: Trace, e: Event)
    requires Injective(hash) && SyncInv(hash, local, t)
    ensures Handled(hash, t.engine, e).1.Ok? <==> Acceptable(hash, local, t, e)
    ensures Acceptable(hash, local, t, e) ==>
      var u := Track(hash, t, e);
      && SyncInv(hash, local, u)
      && RightPhase(local, u, e)
      && RightAction(hash, local, u, e, Handled(hash, t.engine, e).1.value)
  {
    TrackKeepsInv(hash, local, t, e);
    match e
    case HeadersReceived(batch) => HeadersAreHandledRight(hash, local, t, batch);
    case BodyReceived(b) => BodyIsHandledRight(hash, local, t, b);
    case _ =>
  }

  lemma HeadersAreHandledRight(hash: Hash, local: nat, t: Trace, batch: seq<Header>)
    requires SyncInv(hash, local, t) && SyncInv(hash, local, Track(hash, t, HeadersReceived(batch)))
    ensures var e := HeadersReceived(batch);
      var u := Track(hash, t, e);
      && (Handled(hash, t.engine, e).1.Ok? <==> Acceptable(hash, local, t, e))
      && (Acceptable(hash, local, t, e) ==>
            RightPhase(local, u, e) && RightAction(hash, local, u, e, Handled(hash, t.engine, e).1.value))
  {
    hide OnBody;
    if t.engine.state.Headers? {
      var next := t.engine.state.next;
      if FirstGap(batch, next) < |batch| {
        assert batch[FirstGap(batch, next)].number != next + FirstGap(batch, next);
      }
    }
  }

  lemma BodyIsHandledRight(hash: Hash, local: nat, t: Trace, b: Block)
    requires SyncInv(hash, local, t) && SyncInv(hash, local, Track(hash, t, BodyReceived(b)))
    ensures var e := BodyReceived(b);
      var u := Track(hash, t, e);
      && (Handled(hash, t.engine, e).1.Ok? <==> Acceptable(hash, local, t, e))
      && (Acceptable(hash, local, t, e) ==>
            RightPhase(local, u, e) && RightAction(hash, local, u, e, Handled(hash, t.engine, e).1.value))
  {
    hide OnHeaders, BodiesMatch, Consecutive;
    if t.engine.state.Bodies? {
      FirstPending(hash, local, t);
    }
  }

  lemma FirstPending(hash: Hash, local: nat, t: Trace)
    requires SyncInv(hash, local, t) && t.engine.state.Bodies?
    ensures 0 <= |t.bodies| - t.base < |t.headers|
    ensures t.engine.state.pending[0] == hash(t.headers[|t.bodies| - t.base])
  {
  }

  /** Which events fit the phase at all. */
  predicate Fits(s: SyncState, e: Event) {
    match e
    case PeerAnnouncedTip(_) => s.Idle?
    case HeadersReceived(_) => s.Headers?
    case BodyReceived(_) => s.Bodies?
    case PeerDisconnected => true
  }

  /** The first header out of order is at `i`. */
  ghost predicate Breaks(batch: seq<Header>, from: nat, i: nat) {
    i < |batch| && batch[i].number != from + i && forall j :: 0 <= j < i ==> batch[j].number == from + j
  }

  /** Which error a rejected event gets. */
  lemma RejectionSaysWhy(hash: Hash, local: nat, t: Trace, e: Event)
    requires SyncInv(hash, local, t) && Handled(hash, t.engine, e).1.Err?
    ensures var error := Handled(hash, t.engine, e).1.error;
      if !Fits(t.engine.state, e) then error == Unexpected(t.engine.state, e)
      else match e
           case HeadersReceived(batch) =>
             var from := local + t.base + |t.headers| + 1;
             if batch == [] then error == EmptyHeaderBatch
             else exists i: nat :: Breaks(batch, from, i) && error == HeaderOutOfOrder(from + i, batch[i].number)
           case BodyReceived(b) => error == UnexpectedBody(hash(b.header))
           case _ => false
  {
    if t.engine.state.Headers? && e.HeadersReceived? && e.batch != [] {
      var next := t.engine.state.next;
      assert Breaks(e.batch, next, FirstGap(e.batch, next));
    }
  }

  /** The request the engine is waiting on. */
  function Outstanding(s: SyncState): Option<Action> {
    match s
    case Headers(_, next) => Some(RequestHeaders(next, HEADER_BATCH))
    case Bodies(pending) => if pending == [] then None else Some(RequestBody(pending[0]))
    case _ => None
  }

  /** The event answers the request from a chain of blocks: some of the headers asked for, starting with
      the first, or the block with the hash asked for. */
  ghost predicate Answers(hash: Hash, chain: nat -> Block, a: Action, e: Event) {
    match a
    case RequestHeaders(from, count) =>
      && e.HeadersReceived? && 0 < |e.batch| <= count
      && forall i :: 0 <= i < |e.batch| ==> e.batch[i] == chain(from + i).header
    case RequestBody(h) => e.BodyReceived? && hash(e.block.header) == h
    case _ => false
  }

  /** Against a peer that answers from a chain, no request goes unmet: every answer is accepted, brings
      the sync closer to its end, and leaves it done or waiting on the action it returned. */
  lemma AnswersAreAccepted(hash: Hash, local: nat, t: Trace, chain: nat -> Block, e: Event)
    requires SyncInv(hash, local, t) && Outstanding(t.engine.state).Some?
    requires forall n :: chain(n).header.number == n
    requires Answers(hash, chain, Outstanding(t.engine.state).value, e)
    ensures var (s, r) := Handled(hash, t.engine, e);
      && r.Ok? && Below(Measure(s.state), Measure(t.engine.state))
      && (s.state == Done || Outstanding(s.state) == Some(r.value))
  {
    if e.HeadersReceived? {
      var next := t.engine.state.next;
      assert FirstGap(e.batch, next) == |e.batch|;
    }
  }
}
