/** One upload at the node, at the granularity of its locks.

`bodyMu` guards the credit counters, `stateMu` the ring, `readMu` the current chunk. Every
critical section is one step, and any number of consumers and `Close` callers may interleave
with frames from any client, compliant or not.
 */
module BodyLifecycle {
  import opened ByteStrings
  import opened Limits
  import opened RequestBody

  const MAX_REQUEST_CREDITS := QUEUE_FRAMES
  const REQUEST_CREDIT_BATCH := MAX_REQUEST_CREDITS / 4
  const MAX_REQUEST_BODY_BYTES := 16 * 1024 * 1024

  /** Who holds `readMu`. A consumer reports a finished chunk, or releases at end of file, before it goes on. */
  datatype Owner = Nobody | Consumer | Reporting | AtEof | Closer

  datatype Body = Body(
    ring: Ring,
    // bodyMu: credits the client may still spend, consumed capacity not yet granted back
    available: int,
    pending: int,
    bodyEnded: bool,
    bodyBytes: int,
    // the request context
    cancelled: bool,
    owner: Owner,
    // Close callers that have yet to try readMu; threads that owe a drain callback
    closing: nat,
    releasing: nat,
    // sync.Once of the drain callback, and how often the callback ran
    drained: bool,
    drains: nat,
    // history: bytes handed to consumers, bytes a close threw away unread, bytes accepted into the ring
    delivered: Bytes,
    dropped: Bytes,
    accepted: Bytes)

  const FRESH := Body(EMPTY_RING, MAX_REQUEST_CREDITS, 0, false, 0, false, Nobody, 0, 0, false, 0, [], [], [])

  datatype BodyError = BodyEnded | CreditExhausted | TooLarge | RingRefused(error: EnqueueError)
  datatype Offered = Accepted(body: Body) | Rejected(error: BodyError)

  /** `enqueueRequestBody`. */
  function Offer(b: Body, payload: Bytes): Offered {
    if b.bodyEnded then Rejected(BodyEnded)
    else if b.available == 0 then Rejected(CreditExhausted)
    else if |payload| > MAX_REQUEST_BODY_BYTES - b.bodyBytes then Rejected(TooLarge)
    else
      match Enqueue(b.ring, payload)
      case Refused(error) => Rejected(RingRefused(error))
      case Queued(ring) =>
        Accepted(b.(ring := ring, available := b.available - 1, bodyBytes := b.bodyBytes + |payload|,
                    accepted := b.accepted + payload))
  }

  /** `requestBodyChunkConsumed`: the new counters and the grant put on the wire, zero for none. */
  function ChunkConsumed(b: Body): (Body, int) {
    if b.bodyEnded || b.cancelled then (b, 0)
    else
      var pending := b.pending + 1;
      if pending < REQUEST_CREDIT_BATCH && b.available != 0 then (b.(pending := pending), 0)
      else
        var capacity := MAX_REQUEST_CREDITS - b.available;
        var grant := if pending > capacity then capacity else pending;
        if grant == 0 then (b.(pending := pending), 0)
        else (b.(pending := pending - grant, available := b.available + grant), grant)
  }

  /** `endRequestBody`. */
  function EndBody(b: Body): Body {
    if b.bodyEnded then b else b.(bodyEnded := true, ring := EndRing(b.ring))
  }

  /** `releaseDrained`, a `sync.Once`. */
  function RunDrain(b: Body): Body {
    if b.drained then b else b.(drained := true, drains := b.drains + 1)
  }

  /** The thread that leaves `readMu` of a closed body clears the current chunk and owes the drain callback. */
  function DropCurrent(b: Body): Body {
    b.(ring := ClearCurrent(b.ring), owner := Nobody, releasing := b.releasing + 1,
       dropped := Unread(b.ring.current) + b.dropped)
  }

  datatype Step =
    | Frame(payload: Bytes)   // the lane delivers a body frame
    | EndFrame                // the lane delivers the end of the body
    | Stop                    // cleanup or timeout marks the body ended
    | Cancel                  // the request context is cancelled
    | CloseBegin              // Close: the stateMu section
    | CloseTry                // Close: TryLock of readMu
    | CloseClear              // Close: clear the current chunk and unlock
    | Lock                    // a consumer takes readMu
    | Take                    // awaitCurrent dequeues a frame
    | Copy(n: nat)            // bytes leave the current chunk
    | Finish                  // finishCurrent clears a fully read chunk
    | Report                  // ... and calls requestBodyChunkConsumed
    | SeeEof                  // awaitCurrent observes the end
    | EofRelease              // ... and calls releaseDrained
    | Unlock                  // unlockConsumer
    | Release                 // a thread that owes releaseDrained runs it

  predicate Can(b: Body, step: Step) {
    match step
    case Frame(_) => true
    case EndFrame => true
    case Stop => true
    case Cancel => true
    case CloseBegin => true
    case CloseTry => b.closing > 0
    case CloseClear => b.owner == Closer
    case Lock => b.owner == Nobody
    case Take => b.owner == Consumer && b.ring.current.NoChunk? && b.ring.queue != []
    case Copy(n) => b.owner == Consumer && b.ring.current.Chunk? && b.ring.current.at + n <= |b.ring.current.data|
    case Finish => b.owner == Consumer && b.ring.current.Chunk? && b.ring.current.at == |b.ring.current.data|
    case Report => b.owner == Reporting
    case SeeEof => b.owner == Consumer && b.ring.current.NoChunk? && b.ring.queue == [] && b.ring.ended
    case EofRelease => b.owner == AtEof
    case Unlock => b.owner == Consumer
    case Release => b.releasing > 0
  }

  function Do(b: Body, step: Step): Body
    requires Can(b, step)
  {
    match step
    case Frame(payload) =>
      (match Offer(b, payload)
       case Accepted(accepted) => accepted
       case Rejected(_) => b)
    case EndFrame => EndBody(b)
    case Stop => b.(bodyEnded := true)
    case Cancel => b.(cancelled := true)
    case CloseBegin =>
      b.(ring := CloseRing(b.ring), closing := b.closing + 1, dropped := Flatten(b.ring.queue) + b.dropped)
    case CloseTry => b.(closing := b.closing - 1, owner := if b.owner == Nobody then Closer else b.owner)
    case CloseClear => DropCurrent(b)
    case Lock => b.(owner := Consumer)
    case Take => b.(ring := TakeCurrent(b.ring))
    case Copy(n) =>
      var c := b.ring.current;
      b.(ring := Advance(b.ring, n), delivered := b.delivered + c.data[c.at..c.at + n])
    case Finish => b.(ring := ClearCurrent(b.ring), owner := Reporting)
    case Report => ChunkConsumed(b).0.(owner := Consumer)
    case SeeEof => b.(owner := AtEof)
    case EofRelease => RunDrain(b).(owner := Consumer)
    case Unlock =>
      if b.ring.closed then DropCurrent(b) else b.(owner := Nobody)
    case Release => RunDrain(b).(releasing := b.releasing - 1)
  }

  // ---------------------------------------------------------------------------
  // The invariant of one body
  // ---------------------------------------------------------------------------

  /** Credits that are neither with the client nor returned: waiting for a batch, retained, or being reported. */
  function Committed(b: Body): int {
    b.available + b.pending + Retained(b.ring) + if b.owner == Reporting then 1 else 0
  }

  /** The upload still moves: nobody ended, closed or cancelled it. */
  predicate Moving(b: Body) {
    !b.bodyEnded && !b.ring.closed && !b.cancelled
  }

  /** Sixteen credits, conserved exactly while the upload moves and never exceeded. */
  ghost predicate Windowed(b: Body) {
    && 0 <= b.available && 0 <= b.pending < REQUEST_CREDIT_BATCH
    && Committed(b) <= MAX_REQUEST_CREDITS
    && (Moving(b) ==> Committed(b) == MAX_REQUEST_CREDITS)
  }

  /** Nothing is retained, and nothing will be. */
  predicate Emptied(b: Body) {
    b.ring.queue == [] && b.ring.current.NoChunk? && (b.ring.closed || b.ring.ended)
  }

  /** The drain callback runs once, only on an emptied body; some thread owes it to a closed body without it. */
  ghost predicate Accounted(b: Body) {
    && (b.ring.closed ==> b.ring.queue == [])
    && (b.drained || b.releasing > 0 || b.owner == AtEof ==> Emptied(b))
    && (b.owner == Reporting ==> b.ring.current.NoChunk?)
    && (b.closing > 0 || b.releasing > 0 || b.owner == Closer ==> b.ring.closed)
    && b.drains == (if b.drained then 1 else 0)
    && (b.ring.closed && !b.drained ==> b.owner != Nobody || b.closing > 0 || b.releasing > 0)
  }

  /** What consumers got, what the ring owes and what a close dropped are together what was accepted, in order. */
  ghost predicate Streamed(b: Body) {
    && (b.ring.current.Chunk? ==> b.ring.current.at <= |b.ring.current.data|)
    && b.delivered + Rest(b.ring) + b.dropped == b.accepted
    && (b.dropped != [] ==> b.ring.closed)
    && (b.ring.ended ==> b.bodyEnded)
    && |b.accepted| == b.bodyBytes <= MAX_REQUEST_BODY_BYTES
  }

  ghost predicate BodyInv(b: Body) {
    Windowed(b) && Accounted(b) && Streamed(b)
  }

  lemma FreshInv()
    ensures BodyInv(FRESH)
  {
  }

  lemma StepKeepsWindowed(b: Body, step: Step)
    requires BodyInv(b) && Can(b, step)
    ensures Windowed(Do(b, step))
  {
  }

  lemma StepKeepsAccounted(b: Body, step: Step)
    requires BodyInv(b) && Can(b, step)
    ensures Accounted(Do(b, step))
  {
  }

  lemma FrameKeepsStreamed(b: Body, payload: Bytes)
    requires Streamed(b)
    ensures Streamed(Do(b, Frame(payload)))
  {
    if Offer(b, payload).Accepted? {
      EnqueueAppends(b.ring, payload);
      assert b.delivered + (Rest(b.ring) + payload) + [] == b.delivered + Rest(b.ring) + [] + payload;
    }
  }

  /** A change that only moves bytes from what is owed to what was delivered or dropped. */
  lemma MoveKeepsStreamed(b: Body, b': Body, got: Bytes, lost: Bytes)
    requires Streamed(b)
    requires b'.delivered == b.delivered + got && b'.dropped == lost + b.dropped && b'.accepted == b.accepted
    requires Rest(b.ring) == got + (Rest(b'.ring) + lost)
    requires lost != [] ==> b'.ring.closed
    requires b.ring.closed ==> b'.ring.closed
    requires b'.ring.current.Chunk? ==> b'.ring.current.at <= |b'.ring.current.data|
    requires b'.ring.ended == b.ring.ended && b'.bodyEnded == b.bodyEnded && b'.bodyBytes == b.bodyBytes
    ensures Streamed(b')
  {
    var rest := Rest(b'.ring);
    assert b.delivered + (got + (rest + lost)) + b.dropped == b.delivered + got + rest + (lost + b.dropped);
  }

  lemma CopyKeepsStreamed(b: Body, n: nat)
    requires Streamed(b) && Can(b, Copy(n))
    ensures Streamed(Do(b, Copy(n)))
  {
    AdvanceConsumes(b.ring, n);
    var got := b.ring.current.data[b.ring.current.at..b.ring.current.at + n];
    assert Rest(Advance(b.ring, n)) + [] == Rest(Advance(b.ring, n));
    assert [] + b.dropped == b.dropped;
    MoveKeepsStreamed(b, Do(b, Copy(n)), got, []);
  }

  lemma TakeKeepsStreamed(b: Body)
    requires Streamed(b) && Accounted(b) && Can(b, Take)
    ensures Streamed(Do(b, Take))
  {
    TakeKeepsRest(b.ring);
    StillKeepsStreamed(b, Do(b, Take));
  }

  /** A change that moves no byte. */
  lemma StillKeepsStreamed(b: Body, b': Body)
    requires Streamed(b)
    requires b'.delivered == b.delivered && b'.dropped == b.dropped && b'.accepted == b.accepted
    requires Rest(b'.ring) == Rest(b.ring) && b'.ring.closed == b.ring.closed
    requires b'.ring.current.Chunk? ==> b'.ring.current.at <= |b'.ring.current.data|
    requires (b'.ring.ended ==> b'.bodyEnded) && b'.bodyBytes == b.bodyBytes
    ensures Streamed(b')
  {
  }

  lemma CloseKeepsStreamed(b: Body)
    requires Streamed(b) && Accounted(b)
    ensures Streamed(Do(b, CloseBegin))
  {
    assert b.delivered + [] == b.delivered;
    assert [] + Rest(b.ring) == Rest(b.ring) == Unread(b.ring.current) + [] + Flatten(b.ring.queue);
    MoveKeepsStreamed(b, Do(b, CloseBegin), [], Flatten(b.ring.queue));
  }

  lemma DropKeepsStreamed(b: Body)
    requires Streamed(b) && b.ring.closed && b.ring.queue == []
    ensures Streamed(DropCurrent(b))
  {
    assert b.delivered + [] == b.delivered;
    assert Rest(b.ring) == Unread(b.ring.current) == [] + ([] + Unread(b.ring.current));
    MoveKeepsStreamed(b, DropCurrent(b), [], Unread(b.ring.current));
  }

  lemma StepKeepsStreamed(b: Body, step: Step)
    requires BodyInv(b) && Can(b, step)
    ensures Streamed(Do(b, step))
  {
    match step
    case Frame(payload) => FrameKeepsStreamed(b, payload);
    case Take => TakeKeepsStreamed(b);
    case Copy(n) => CopyKeepsStreamed(b, n);
    case CloseBegin => CloseKeepsStreamed(b);
    case CloseClear => DropKeepsStreamed(b);
    case Unlock =>
      if b.ring.closed {
        DropKeepsStreamed(b);
      }
    case Finish =>
      FinishKeepsRest(b.ring);
      StillKeepsStreamed(b, Do(b, Finish));
    case _ => StillKeepsStreamed(b, Do(b, step));
  }

  lemma StepKeepsBodyInv(b: Body, step: Step)
    requires BodyInv(b) && Can(b, step)
    ensures BodyInv(Do(b, step))
  {
    StepKeepsWindowed(b, step);
    StepKeepsAccounted(b, step);
    StepKeepsStreamed(b, step);
  }

  ghost predicate IsRun(states: seq<Body>, steps: seq<Step>) {
    && |states| == |steps| + 1
    && states[0] == FRESH
    && forall i :: 0 <= i < |steps| ==> Can(states[i], steps[i]) && states[i + 1] == Do(states[i], steps[i])
  }

  lemma {:induction false} RunInv(states: seq<Body>, steps: seq<Step>, k: nat)
    requires IsRun(states, steps) && k < |states|
    ensures BodyInv(states[k])
    decreases k
  {
    if k == 0 {
      FreshInv();
    } else {
      RunInv(states, steps, k - 1);
      StepKeepsBodyInv(states[k - 1], steps[k - 1]);
    }
  }

  // ---------------------------------------------------------------------------
  // Results for every interleaving and every client
  // ---------------------------------------------------------------------------

  lemma {:induction false} DrainedForGood(states: seq<Body>, steps: seq<Step>, k: nat, j: nat)
    requires IsRun(states, steps) && k <= j < |states| && states[k].drained
    ensures states[j].drained
    decreases j
  {
    if k < j {
      DrainedForGood(states, steps, k, j - 1);
    }
  }

  /** The drain callback runs at most once; once it has run no frame is retained, then or later; and a closed
      body that every consumer and closer has left has run it. */
  lemma ReservationReleasedExactlyOnce(states: seq<Body>, steps: seq<Step>, k: nat, j: nat)
    requires IsRun(states, steps) && k <= j < |states|
    ensures states[j].drains <= 1
    ensures states[k].drains == 1 ==> Retained(states[j].ring) == 0
    ensures var b := states[j];
            b.ring.closed && b.owner == Nobody && b.closing == 0 && b.releasing == 0 ==> b.drains == 1
  {
    RunInv(states, steps, k);
    RunInv(states, steps, j);
    if states[k].drains == 1 {
      DrainedForGood(states, steps, k, j);
    }
  }

  /** Delivered and dropped bytes only grow, and a closed body accepts nothing more. */
  lemma StepLosesNothing(b: Body, step: Step)
    requires BodyInv(b) && Can(b, step)
    ensures |b.delivered| <= |Do(b, step).delivered| && |b.dropped| <= |Do(b, step).dropped|
    ensures b.ring.closed ==> Do(b, step).ring.closed && Do(b, step).accepted == b.accepted
  {
  }

  lemma {:induction false} LossesOnlyGrow(states: seq<Body>, steps: seq<Step>, i: nat, j: nat)
    requires IsRun(states, steps) && i <= j < |states|
    ensures |states[i].delivered| <= |states[j].delivered| && |states[i].dropped| <= |states[j].dropped|
    ensures states[i].ring.closed ==> states[j].ring.closed && states[j].accepted == states[i].accepted
    decreases j
  {
    if i < j {
      LossesOnlyGrow(states, steps, i, j - 1);
      RunInv(states, steps, j - 1);
      StepLosesNothing(states[j - 1], steps[j - 1]);
    }
  }

  /** Whether a close loses data can be read off the ring at that moment: nothing is ever dropped if nothing was owed,
      and something is if bytes were queued. What the reader holds is his to finish. */
  lemma CloseLoses(states: seq<Body>, steps: seq<Step>, i: nat, j: nat)
    requires IsRun(states, steps) && i < j < |states| && steps[i] == CloseBegin && !states[i].ring.closed
    ensures Rest(states[i].ring) == [] ==> states[j].dropped == []
    ensures Flatten(states[i].ring.queue) != [] ==> states[j].dropped != []
  {
    RunInv(states, steps, i);
    RunInv(states, steps, j);
    var b, after := states[i], states[i + 1];
    assert after == Do(b, CloseBegin);
    LossesOnlyGrow(states, steps, i + 1, j);
  }

  /** The credit check alone keeps the ring from filling, whatever the client sends. */
  lemma QueueNeverFull(b: Body, payload: Bytes)
    requires BodyInv(b)
    ensures Offer(b, payload) != Rejected(RingRefused(QueueFull))
  {
  }

  /** A grant is never cut short: it is either withheld for a batch or everything consumed so far. */
  lemma GrantNeverClamped(b: Body)
    requires BodyInv(b) && b.owner == Reporting
    ensures ChunkConsumed(b).1 == 0 || ChunkConsumed(b).1 == b.pending + 1
    ensures ChunkConsumed(b).0.available + ChunkConsumed(b).0.pending
         == b.available + b.pending + if b.bodyEnded || b.cancelled then 0 else 1
  {
  }

  /** Whatever the counters say, a grant is due with the fourth frame consumed since the last, or at once when the
      client has no credit, and fills its window up to sixteen at most; what does not fit stays pending. */
  lemma GrantNeverOverfills(b: Body)
    requires 0 <= b.available <= 16 && 0 <= b.pending && !b.bodyEnded && !b.cancelled
    ensures var due, room := b.pending + 1 >= 4 || b.available == 0, 16 - b.available;
      var grant := if !due then 0 else if b.pending + 1 <= room then b.pending + 1 else room;
      ChunkConsumed(b) == (b.(pending := b.pending + 1 - grant, available := b.available + grant), grant)
  {
  }

  /** A client out of credit faces at least thirteen frames at the node, and finishing any one sends it a grant. */
  lemma BlockedUploadIsBackedByFrames(b: Body)
    requires BodyInv(b) && Moving(b) && b.available == 0
    ensures Retained(b.ring) + (if b.owner == Reporting then 1 else 0) >= 13
    ensures ChunkConsumed(b).1 >= 1
  {
  }

  // ---------------------------------------------------------------------------
  // All bodies share 2048 reserved frames
  // ---------------------------------------------------------------------------

  const MAX_GLOBAL_QUEUED_FRAMES := 2048

  /** `partial` counts tokens taken by reservations that are not complete yet. */
  datatype Pool = Pool(free: int, partial: int, bodies: seq<Body>)

  datatype PoolStep =
    | TakeToken
    | ReturnToken
    | Admit
    | BodyStep(index: nat, step: Step)

  predicate PoolCan(p: Pool, step: PoolStep) {
    match step
    case TakeToken => p.free > 0
    case ReturnToken => p.partial > 0
    case Admit => p.partial >= MAX_REQUEST_CREDITS
    case BodyStep(index, inner) => index < |p.bodies| && Can(p.bodies[index], inner)
  }

  function PoolDo(p: Pool, step: PoolStep): Pool
    requires PoolCan(p, step)
  {
    match step
    case TakeToken => p.(free := p.free - 1, partial := p.partial + 1)
    case ReturnToken => p.(free := p.free + 1, partial := p.partial - 1)
    case Admit => p.(partial := p.partial - MAX_REQUEST_CREDITS, bodies := p.bodies + [FRESH])
    case BodyStep(index, inner) =>
      var b := Do(p.bodies[index], inner);
      var released := (b.drains - p.bodies[index].drains) * MAX_REQUEST_CREDITS;
      p.(free := p.free + released, bodies := p.bodies[index := b])
  }

  /** Frames reserved by bodies whose drain callback has not run. */
  function Reserved(bodies: seq<Body>): int {
    if bodies == [] then 0 else (if bodies[0].drained then 0 else MAX_REQUEST_CREDITS) + Reserved(bodies[1..])
  }

  function TotalRetained(bodies: seq<Body>): int {
    if bodies == [] then 0 else Retained(bodies[0].ring) + TotalRetained(bodies[1..])
  }

  ghost predicate PoolInv(p: Pool) {
    && p.free + p.partial + Reserved(p.bodies) == MAX_GLOBAL_QUEUED_FRAMES
    && 0 <= p.free && 0 <= p.partial
    && forall i :: 0 <= i < |p.bodies| ==> BodyInv(p.bodies[i])
  }

  lemma {:induction false} ReservedUpdate(bodies: seq<Body>, index: nat, b: Body)
    requires index < |bodies|
    ensures Reserved(bodies[index := b]) - (if b.drained then 0 else MAX_REQUEST_CREDITS)
         == Reserved(bodies) - (if bodies[index].drained then 0 else MAX_REQUEST_CREDITS)
    decreases |bodies|
  {
    if index == 0 {
      assert bodies[0 := b][1..] == bodies[1..];
    } else {
      ReservedUpdate(bodies[1..], index - 1, b);
      assert bodies[index := b][1..] == bodies[1..][index - 1 := b];
    }
  }

  lemma {:induction false} ReservedAppend(bodies: seq<Body>, b: Body)
    ensures Reserved(bodies + [b]) == Reserved(bodies) + if b.drained then 0 else MAX_REQUEST_CREDITS
    decreases |bodies|
  {
    if bodies == [] {
      assert bodies + [b] == [b];
    } else {
      ReservedAppend(bodies[1..], b);
      assert (bodies + [b])[1..] == bodies[1..] + [b];
    }
  }

  /** A body retains at most its reservation, and nothing once that is returned. */
  lemma {:induction false} RetainedWithinReservation(bodies: seq<Body>)
    requires forall i :: 0 <= i < |bodies| ==> BodyInv(bodies[i])
    ensures TotalRetained(bodies) <= Reserved(bodies)
    decreases |bodies|
  {
    if bodies != [] {
      RetainedWithinReservation(bodies[1..]);
    }
  }

  lemma PoolStepKeepsInv(p: Pool, step: PoolStep)
    requires PoolInv(p) && PoolCan(p, step)
    ensures PoolInv(PoolDo(p, step))
  {
    match step
    case TakeToken =>
    case ReturnToken =>
    case Admit =>
      ReservedAppend(p.bodies, FRESH);
      FreshInv();
    case BodyStep(index, inner) =>
      StepKeepsBodyInv(p.bodies[index], inner);
      ReservedUpdate(p.bodies, index, Do(p.bodies[index], inner));
  }

  ghost predicate IsPoolRun(states: seq<Pool>, steps: seq<PoolStep>) {
    && |states| == |steps| + 1
    && states[0] == Pool(MAX_GLOBAL_QUEUED_FRAMES, 0, [])
    && forall i :: 0 <= i < |steps| ==> PoolCan(states[i], steps[i]) && states[i + 1] == PoolDo(states[i], steps[i])
  }

  /** In every run of any number of uploads the frames held in memory stay within the global reservation. */
  lemma {:induction false} FramesStayWithinReservation(states: seq<Pool>, steps: seq<PoolStep>, k: nat)
    requires IsPoolRun(states, steps) && k < |states|
    ensures PoolInv(states[k])
    ensures TotalRetained(states[k].bodies) <= MAX_GLOBAL_QUEUED_FRAMES
    decreases k
  {
    if k > 0 {
      FramesStayWithinReservation(states, steps, k - 1);
      PoolStepKeepsInv(states[k - 1], steps[k - 1]);
    }
    RetainedWithinReservation(states[k].bodies);
  }
}
