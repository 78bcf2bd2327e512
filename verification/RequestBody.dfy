/** The bounded ring between the data channel and the backend: `asyncRequestBody`.

A frame is queued by the lane, becomes the consumer's current chunk, and is finished only
when its last byte has been read. `Ring` is the value that the fields stand for.
 */
module RequestBody {
  import opened ByteStrings
  import opened Limits
  import Rings

  datatype Current = NoChunk | Chunk(data: Bytes, at: nat)

  datatype Ring = Ring(queue: seq<Bytes>, current: Current, closed: bool, ended: bool)

  const EMPTY_RING := Ring([], NoChunk, false, false)

  datatype EnqueueError = Closed | Ended | QueueFull
  datatype Enqueued = Queued(ring: Ring) | Refused(error: EnqueueError)

  /** Bytes of the current chunk that no consumer has taken yet. */
  function Unread(c: Current): Bytes {
    if c.Chunk? && c.at <= |c.data| then c.data[c.at..] else []
  }

  /** Everything the ring still owes its consumer, in order. */
  function Rest(r: Ring): Bytes {
    Unread(r.current) + Flatten(r.queue)
  }

  /** Frames retained: queued ones and the current one. */
  function Retained(r: Ring): nat {
    |r.queue| + if r.current.Chunk? then 1 else 0
  }

  function Enqueue(r: Ring, payload: Bytes): Enqueued {
    if r.closed then Refused(Closed)
    else if r.ended then Refused(Ended)
    else if |r.queue| == QUEUE_FRAMES then Refused(QueueFull)
    else Queued(r.(queue := r.queue + [payload]))
  }

  function EndRing(r: Ring): Ring {
    if r.closed || r.ended then r else r.(ended := true)
  }

  function TakeCurrent(r: Ring): Ring
    requires r.queue != []
  {
    r.(queue := r.queue[1..], current := Chunk(r.queue[0], 0))
  }

  function Advance(r: Ring, n: nat): Ring
    requires r.current.Chunk?
  {
    r.(current := r.current.(at := r.current.at + n))
  }

  function ClearCurrent(r: Ring): Ring {
    r.(current := NoChunk)
  }

  function CloseRing(r: Ring): Ring {
    if r.closed then r else r.(closed := true, queue := [])
  }

  /** A frame is refused by a closed body, else by an ended one, else by one that has sixteen queued; any other takes it
      behind what it has. */
  lemma EnqueueRefusesExactlyWhen(r: Ring, payload: Bytes)
    ensures var e := Enqueue(r, payload);
      && (e == Refused(Closed) <==> r.closed)
      && (e == Refused(Ended) <==> !r.closed && r.ended)
      && (e == Refused(QueueFull) <==> !r.closed && !r.ended && |r.queue| == 16)
      && (e.Queued? ==> e.ring == r.(queue := r.queue + [payload]))
  {
  }

  /** A queued frame is owed last. */
  lemma EnqueueAppends(r: Ring, payload: Bytes)
    requires Enqueue(r, payload).Queued?
    ensures Rest(Enqueue(r, payload).ring) == Rest(r) + payload
  {
    FlattenConcat(r.queue, [payload]);
    assert Flatten([payload]) == payload;
  }

  /** Making the oldest frame current owes the same bytes. */
  lemma TakeKeepsRest(r: Ring)
    requires r.queue != [] && r.current.NoChunk?
    ensures Rest(TakeCurrent(r)) == Rest(r)
  {
    assert r.queue[0][0..] == r.queue[0];
  }

  /** Reading `n` bytes of the current chunk removes exactly those bytes from the front. */
  lemma AdvanceConsumes(r: Ring, n: nat)
    requires r.current.Chunk? && r.current.at + n <= |r.current.data|
    ensures Unread(r.current) == r.current.data[r.current.at..r.current.at + n] + Unread(Advance(r, n).current)
    ensures Rest(r) == r.current.data[r.current.at..r.current.at + n] + Rest(Advance(r, n))
  {
    var c := r.current;
    assert c.data[c.at..] == c.data[c.at..c.at + n] + c.data[c.at + n..];
  }

  /** A fully read chunk owes nothing, so dropping it changes nothing. */
  lemma FinishKeepsRest(r: Ring)
    requires r.current.Chunk? && r.current.at == |r.current.data|
    ensures Rest(ClearCurrent(r)) == Rest(r)
  {
  }

  datatype Status = Data | Eof | BodyClosed | Blocked | InvalidCount | WriterFailed | ShortWrite | Cancelled

  /** One answer of the backend's writer: the count it claims and whether it reports an error. */
  datatype WriteAnswer = WriteAnswer(n: int, failed: bool)

  // ---- Forwarding to a writer ----

  /** Taking `n` bytes of the current chunk, which is finished when that was its last byte. */
  function Consumed(r: Ring, n: nat): Ring
    requires r.current.Chunk?
  {
    if r.current.at + n == |r.current.data| then ClearCurrent(r) else Advance(r, n)
  }

  predicate Sane(r: Ring) {
    r.current.Chunk? ==> r.current.at <= |r.current.data|
  }

  /** `awaitCurrent` when it does not have to wait: the oldest frame becomes current. */
  function Loaded(r: Ring): Ring {
    if r.current.NoChunk? && r.queue != [] then TakeCurrent(r) else r
  }

  /** Why a consumer that finds nothing stops; the end is noticed before a close. */
  function Dry(r: Ring): Status {
    if r.ended then Eof else if r.closed then BodyClosed else Blocked
  }

  /** What forwarding has done so far, or in all: `calls` counts the writer's answers used up. */
  datatype Forwarding = Forwarding(ring: Ring, wrote: Bytes, status: Status, finished: nat, calls: nat)

  /** One `dst.Write` of the current chunk: the writer's answer decides how much leaves and how it ends. */
  function Written(r: Ring, answer: WriteAnswer, calls: nat): Forwarding
    requires r.current.Chunk? && r.current.at <= |r.current.data|
  {
    var c := r.current;
    if answer.n < 0 || answer.n > |c.data| - c.at then Forwarding(r, [], InvalidCount, 0, calls + 1)
    else
      var status := if answer.failed then WriterFailed else if answer.n < |c.data| - c.at then ShortWrite else Data;
      Forwarding(Consumed(r, answer.n), c.data[c.at..c.at + answer.n], status,
                 if c.at + answer.n == |c.data| then 1 else 0, calls + 1)
  }

  /** One turn of the `WriteTo` loop, which looks at the context first. A writer without an answer has not returned
      yet. */
  function Turn(r: Ring, answers: seq<WriteAnswer>, calls: nat, cancelled: bool): Forwarding
    requires Sane(r) && calls <= |answers|
  {
    var loaded := Loaded(r);
    if cancelled then Forwarding(r, [], Cancelled, 0, calls)
    else if loaded.current.NoChunk? then Forwarding(loaded, [], Dry(loaded), 0, calls)
    else if loaded.current.at == |loaded.current.data| then Forwarding(ClearCurrent(loaded), [], Data, 1, calls)
    else if calls == |answers| then Forwarding(loaded, [], Blocked, 0, calls)
    else Written(loaded, answers[calls], calls)
  }

  function After(done: Forwarding, rest: Forwarding): Forwarding {
    rest.(wrote := done.wrote + rest.wrote, finished := done.finished + rest.finished)
  }

  /** The whole loop. The context is found cancelled before turn `until`; there are at most as many turns as frames and
      one more, so any larger number means never. */
  function Forwarded(r: Ring, answers: seq<WriteAnswer>, calls: nat, until: nat): Forwarding
    requires Sane(r) && calls <= |answers|
    decreases Retained(r)
  {
    var turn := Turn(r, answers, calls, until == 0);
    if turn.status != Data then turn else After(turn, Forwarded(turn.ring, answers, turn.calls, until - 1))
  }

  lemma AfterNothing(f: Forwarding)
    ensures forall r: Ring :: After(Forwarding(r, [], Data, 0, 0), f) == f
  {
    assert [] + f.wrote == f.wrote;
  }

  /** Unrolling the loop once. */
  lemma TurnJoins(done: Forwarding, r: Ring, answers: seq<WriteAnswer>, calls: nat, until: nat)
    requires Sane(r) && calls <= |answers|
    ensures var turn := Turn(r, answers, calls, until == 0);
      After(done, Forwarded(r, answers, calls, until))
      == if turn.status != Data then After(done, turn)
         else After(After(done, turn), Forwarded(turn.ring, answers, turn.calls, until - 1))
  {
    var turn := Turn(r, answers, calls, until == 0);
    if turn.status == Data {
      AfterAfter(done, turn, Forwarded(turn.ring, answers, turn.calls, until - 1));
    }
  }

  lemma AfterAfter(a: Forwarding, b: Forwarding, c: Forwarding)
    ensures After(a, After(b, c)) == After(After(a, b), c)
  {
    assert a.wrote + (b.wrote + c.wrote) == a.wrote + b.wrote + c.wrote;
  }

  /** What the writer says it took in its answers from `i` to `j`. */
  function Claimed(answers: seq<WriteAnswer>, i: nat, j: nat): int
    requires i <= j <= |answers|
    decreases j
  {
    if i == j then 0 else Claimed(answers, i, j - 1) + answers[j - 1].n
  }

  lemma {:induction false} ClaimedSplits(answers: seq<WriteAnswer>, i: nat, m: nat, j: nat)
    requires i <= m <= j <= |answers|
    ensures Claimed(answers, i, j) == Claimed(answers, i, m) + Claimed(answers, m, j)
    decreases j
  {
    if m < j {
      ClaimedSplits(answers, i, m, j - 1);
    }
  }

  /** What one turn or a whole loop leaves behind: the bytes written are the next ones owed, as many as the writer's
      valid answers claim, and each finished frame is counted once. */
  ghost predicate Faithful(r: Ring, f: Forwarding, answers: seq<WriteAnswer>, calls: nat)
    requires calls <= |answers|
  {
    && calls <= f.calls <= |answers| && Sane(f.ring)
    && Rest(r) == f.wrote + Rest(f.ring)
    && Retained(r) == Retained(f.ring) + f.finished
    && (f.status == InvalidCount ==> calls < f.calls)
    && |f.wrote| == Claimed(answers, calls, if f.status == InvalidCount then f.calls - 1 else f.calls)
    && f.ring.closed == r.closed && f.ring.ended == r.ended
  }

  /** Why forwarding stopped. */
  predicate Excused(f: Forwarding, answers: seq<WriteAnswer>) {
    var r := f.ring;
    match f.status
    case Data => false
    case Cancelled => true
    case Eof => r.ended && Retained(r) == 0
    case BodyClosed => r.closed && !r.ended && Retained(r) == 0
    case Blocked =>
      || (Retained(r) == 0 && !r.ended && !r.closed)
      || (f.calls == |answers| && r.current.Chunk? && r.current.at < |r.current.data|)
    case InvalidCount =>
      && 0 < f.calls <= |answers| && r.current.Chunk?
      && !(0 <= answers[f.calls - 1].n <= |r.current.data| - r.current.at)
    case WriterFailed => 0 < f.calls <= |answers| && answers[f.calls - 1].failed
    case ShortWrite =>
      && 0 < f.calls <= |answers| && !answers[f.calls - 1].failed
      && r.current.Chunk? && r.current.at < |r.current.data|
  }

  lemma LoadedKeepsRest(r: Ring)
    requires Sane(r)
    ensures Sane(Loaded(r)) && Rest(Loaded(r)) == Rest(r) && Retained(Loaded(r)) == Retained(r)
  {
    if r.current.NoChunk? && r.queue != [] {
      TakeKeepsRest(r);
    }
  }

  lemma WrittenIsFaithful(r: Ring, answers: seq<WriteAnswer>, calls: nat)
    requires r.current.Chunk? && r.current.at <= |r.current.data| && calls < |answers|
    ensures var f := Written(r, answers[calls], calls);
      Faithful(r, f, answers, calls) && (f.status != Data ==> Excused(f, answers))
  {
    var n := answers[calls].n;
    if 0 <= n <= |r.current.data| - r.current.at {
      AdvanceConsumes(r, n);
    }
  }

  /** A turn that finds nothing to write. */
  lemma IdleTurnIsFaithful(r: Ring, answers: seq<WriteAnswer>, calls: nat)
    requires Sane(r) && calls <= |answers|
    requires var c := Loaded(r).current;
      c.NoChunk? || c.at == |c.data| || calls == |answers|
    ensures var f := Turn(r, answers, calls, false);
      && Faithful(r, f, answers, calls)
      && (f.status == Data ==> f.finished == 1) && (f.status != Data ==> Excused(f, answers))
  {
    LoadedKeepsRest(r);
  }

  lemma TurnIsFaithful(r: Ring, answers: seq<WriteAnswer>, calls: nat, cancelled: bool)
    requires Sane(r) && calls <= |answers|
    ensures var f := Turn(r, answers, calls, cancelled);
      Faithful(r, f, answers, calls) && (f.status != Data ==> Excused(f, answers))
      && (f.status == Data ==> f.finished == 1) && (f.status == Cancelled <==> cancelled)
  {
    var loaded := Loaded(r);
    if !cancelled {
      if loaded.current.Chunk? && loaded.current.at < |loaded.current.data| && calls < |answers| {
        LoadedKeepsRest(r);
        WrittenIsFaithful(loaded, answers, calls);
      } else {
        IdleTurnIsFaithful(r, answers, calls);
      }
    }
  }

  lemma AfterIsFaithful(r: Ring, a: Forwarding, b: Forwarding, answers: seq<WriteAnswer>, calls: nat)
    requires calls <= |answers| && a.status == Data && Faithful(r, a, answers, calls)
    requires Faithful(a.ring, b, answers, a.calls)
    ensures Faithful(r, After(a, b), answers, calls)
  {
    assert a.wrote + (b.wrote + Rest(b.ring)) == a.wrote + b.wrote + Rest(b.ring);
    ClaimedSplits(answers, calls, a.calls, if b.status == InvalidCount then b.calls - 1 else b.calls);
  }

  /** Over any short, failing or invalid writes: what left is what was owed, and the reason to stop is real. */
  lemma {:induction false} ForwardingIsFaithful(r: Ring, answers: seq<WriteAnswer>, calls: nat, until: nat)
    requires Sane(r) && calls <= |answers|
    ensures Faithful(r, Forwarded(r, answers, calls, until), answers, calls)
    ensures Excused(Forwarded(r, answers, calls, until), answers)
    decreases Retained(r)
  {
    TurnIsFaithful(r, answers, calls, until == 0);
    var turn := Turn(r, answers, calls, until == 0);
    if turn.status == Data {
      ForwardingIsFaithful(turn.ring, answers, turn.calls, until - 1);
      AfterIsFaithful(r, turn, Forwarded(turn.ring, answers, turn.calls, until - 1), answers, calls);
    }
  }

  /** A failed write stops the forwarding at once, and nothing else is reported as one: no answer before the last one
      used reports an error, and the last one does exactly when that is why forwarding stopped. A count that is not
      valid comes first. */
  ghost predicate HeedsErrors(f: Forwarding, answers: seq<WriteAnswer>, calls: nat) {
    && calls <= f.calls <= |answers|
    && (forall i :: calls <= i < f.calls - 1 ==> !answers[i].failed)
    && (f.status == WriterFailed <==> calls < f.calls && f.status != InvalidCount && answers[f.calls - 1].failed)
    && (f.status == ShortWrite || f.status == InvalidCount ==> calls < f.calls)
  }

  lemma TurnHeedsErrors(r: Ring, answers: seq<WriteAnswer>, calls: nat, cancelled: bool)
    requires Sane(r) && calls <= |answers|
    ensures var f := Turn(r, answers, calls, cancelled);
      HeedsErrors(f, answers, calls) && f.calls <= calls + 1
  {
  }

  lemma {:induction false} ErrorStopsForwarding(r: Ring, answers: seq<WriteAnswer>, calls: nat, until: nat)
    requires Sane(r) && calls <= |answers|
    ensures HeedsErrors(Forwarded(r, answers, calls, until), answers, calls)
    decreases Retained(r)
  {
    TurnHeedsErrors(r, answers, calls, until == 0);
    TurnIsFaithful(r, answers, calls, until == 0);
    var turn := Turn(r, answers, calls, until == 0);
    if turn.status == Data {
      ErrorStopsForwarding(turn.ring, answers, turn.calls, until - 1);
    }
  }

  /** A cancelled context stops the forwarding before its next frame: exactly `until` frames have gone by then. What
      went is what would have gone first, and a forwarding that stopped before for another reason is not changed. */
  lemma {:induction false} CancelCutsForwarding(r: Ring, answers: seq<WriteAnswer>, calls: nat, until: nat, later: nat)
    requires Sane(r) && calls <= |answers| && until <= later
    ensures var f, g := Forwarded(r, answers, calls, until), Forwarded(r, answers, calls, later);
      && (f.status == Cancelled ==> f.finished == until && f.wrote <= g.wrote && f.calls <= g.calls)
      && (f.status != Cancelled ==> f == g && f.finished <= until)
      && (until == 0 ==> f.status == Cancelled)
      && (until > Retained(r) ==> f.status != Cancelled)
    decreases Retained(r)
  {
    if until > 0 {
      TurnIsFaithful(r, answers, calls, false);
      var turn := Turn(r, answers, calls, false);
      if turn.status == Data {
        CancelCutsForwarding(turn.ring, answers, turn.calls, until - 1, later - 1);
      }
    } else {
      ForwardingIsFaithful(r, answers, calls, later);
    }
  }

  class AsyncRequestBody {
    const chunks: array<Bytes>
    var queueAt: nat
    var queueLen: nat
    var closed: bool
    var ended: bool
    var current: Bytes
    var currentAt: nat
    var hasCurrent: bool

    constructor ()
      ensures Valid() && View() == EMPTY_RING && fresh(chunks)
    {
      chunks := new Bytes[QUEUE_FRAMES](_ => []);
      queueAt, queueLen := 0, 0;
      closed, ended := false, false;
      current, currentAt, hasCurrent := [], 0, false;
    }

    ghost predicate Valid()
      reads this
    {
      && chunks.Length == QUEUE_FRAMES
      && queueAt < QUEUE_FRAMES
      && queueLen <= QUEUE_FRAMES
      && currentAt <= |current|
    }

    ghost function Queue(): seq<Bytes>
      requires Valid()
      reads this, chunks
    {
      Rings.Contents(chunks[..], queueAt, queueLen)
    }

    ghost function View(): Ring
      requires Valid()
      reads this, chunks
    {
      Ring(Queue(), if hasCurrent then Chunk(current, currentAt) else NoChunk, closed, ended)
    }

    method EnqueueFrame(payload: Bytes) returns (refused: bool, error: EnqueueError)
      requires Valid()
      modifies this`queueLen, chunks
      ensures Valid()
      ensures var r := Enqueue(old(View()), payload);
              refused == r.Refused? && (if refused then error == r.error && View() == old(View()) else View() == r.ring)
    {
      refused, error := true, Closed;
      if closed {
        return;
      }
      if ended {
        error := Ended;
        return;
      }
      if queueLen == chunks.Length {
        error := QueueFull;
        return;
      }
      ghost var before := chunks[..];
      var index := (queueAt + queueLen) % chunks.Length;
      assert index == Rings.Wrap(queueAt, queueLen, QUEUE_FRAMES);
      chunks[index] := payload;
      assert chunks[..] == before[index := payload];
      Rings.PushBack(before, queueAt, queueLen, payload);
      queueLen := queueLen + 1;
      assert Queue() == old(Queue()) + [payload];
      refused := false;
    }

    method End()
      requires Valid()
      modifies this`ended
      ensures Valid() && View() == EndRing(old(View()))
    {
      if !closed && !ended {
        ended := true;
      }
    }

    /** The locked part of `awaitCurrent`: dequeue the oldest frame into `current`. */
    method Dequeue()
      requires Valid() && queueLen != 0
      modifies this`current, this`currentAt, this`hasCurrent, this`queueAt, this`queueLen, chunks
      ensures Valid() && View() == TakeCurrent(old(View()))
    {
      ghost var before := chunks[..];
      Rings.PopFront(before, queueAt, queueLen, []);
      current := chunks[queueAt];
      chunks[queueAt] := [];
      assert chunks[..] == before[queueAt := []];
      var next := (queueAt + 1) % chunks.Length;
      assert next == Rings.Wrap(queueAt, 1, QUEUE_FRAMES);
      queueAt, queueLen := next, queueLen - 1;
      currentAt, hasCurrent := 0, true;
      assert Queue() == old(Queue())[1..];
    }

    /** One pass of `awaitCurrent`; `Blocked` is the wait on the wake channel. `ended` is tested before `closed`. */
    method AwaitCurrent() returns (status: Status)
      requires Valid()
      modifies this`current, this`currentAt, this`hasCurrent, this`queueAt, this`queueLen, chunks
      ensures Valid()
      ensures status == Data <==> old(hasCurrent) || old(queueLen) != 0
      ensures View() == if !old(hasCurrent) && old(queueLen) != 0 then TakeCurrent(old(View())) else old(View())
      ensures status != Data ==> status == if ended then Eof else if closed then BodyClosed else Blocked
      ensures Rest(View()) == Rest(old(View())) && Retained(View()) == Retained(old(View()))
      ensures status == Data ==> hasCurrent
      ensures status != Data ==> Rest(View()) == [] && Retained(View()) == 0
    {
      if hasCurrent {
        return Data;
      }
      if queueLen != 0 {
        TakeKeepsRest(View());
        Dequeue();
        return Data;
      }
      if ended {
        return Eof;
      }
      return if closed then BodyClosed else Blocked;
    }

    method FinishCurrent()
      requires Valid()
      modifies this`current, this`currentAt, this`hasCurrent
      ensures Valid() && View() == ClearCurrent(old(View()))
    {
      current, currentAt, hasCurrent := [], 0, false;
    }

    /** Moves `n` bytes of the current chunk out, and finishes the chunk when that was its last byte. */
    method Consume(n: nat) returns (out: Bytes, finished: nat)
      requires Valid() && hasCurrent && n <= |current| - currentAt
      modifies this`current, this`currentAt, this`hasCurrent
      ensures Valid() && |out| == n
      ensures Rest(old(View())) == out + Rest(View())
      ensures Retained(View()) + finished == Retained(old(View()))
      ensures finished == if old(currentAt) + n == old(|current|) then 1 else 0
      ensures View() == Consumed(old(View()), n) && out == old(current[currentAt..currentAt + n])
    {
      ghost var before := View();
      AdvanceConsumes(before, n);
      out := current[currentAt..currentAt + n];
      currentAt := currentAt + n;
      assert View() == Advance(before, n);
      finished := 0;
      if currentAt == |current| {
        FinishKeepsRest(View());
        FinishCurrent();
        finished := 1;
      }
    }

    /** Fills at most `space` bytes. Whatever it returns is the front of what the ring owed, and `finished`
        counts the frames that left, each of which returns one upload credit. */
    method Read(space: nat) returns (out: Bytes, status: Status, finished: nat)
      requires Valid()
      modifies this`current, this`currentAt, this`hasCurrent, this`queueAt, this`queueLen, chunks
      ensures Valid() && |out| <= space
      ensures Rest(old(View())) == out + Rest(View())
      ensures Retained(View()) + finished == Retained(old(View()))
      ensures status == Data && space > 0 ==> out != []
      ensures status == Data && |out| < space ==> !hasCurrent
      ensures status != Data ==> out == [] && Rest(View()) == [] && Retained(View()) == 0
      ensures status != Data ==> status == if ended then Eof else if closed then BodyClosed else Blocked
    {
      out, status, finished := [], Data, 0;
      if space == 0 {
        return;
      }
      while true
        invariant Valid() && out == [] && status == Data
        invariant Rest(View()) == Rest(old(View()))
        invariant Retained(View()) + finished == Retained(old(View()))
        decreases Retained(View())
      {
        status := AwaitCurrent();
        if status != Data {
          return;
        }
        var n := if space <= |current| - currentAt then space else |current| - currentAt;
        var done;
        out, done := Consume(n);
        finished := finished + done;
        if n != 0 {
          return;
        }
      }
    }

    method WriteOnce(answer: WriteAnswer) returns (wrote: Bytes, status: Status, finished: nat)
      requires Valid() && hasCurrent
      modifies this`current, this`currentAt, this`hasCurrent
      ensures Valid()
      ensures Forwarding(View(), wrote, status, finished, 1) == Written(old(View()), answer, 0)
    {
      var remaining := |current| - currentAt;
      if answer.n < 0 || answer.n > remaining {
        return [], InvalidCount, 0;
      }
      wrote, finished := Consume(answer.n);
      status := if answer.failed then WriterFailed else if answer.n != remaining then ShortWrite else Data;
    }

    /** One turn of the `WriteTo` loop. A writer that has not answered has not returned yet. */
    method ForwardOne(answers: seq<WriteAnswer>, calls: nat, cancelled: bool)
      returns (wrote: Bytes, status: Status, finished: nat, used: nat)
      requires Valid() && calls <= |answers|
      modifies this`current, this`currentAt, this`hasCurrent, this`queueAt, this`queueLen, chunks
      ensures Valid()
      ensures Forwarding(View(), wrote, status, finished, used) == Turn(old(View()), answers, calls, cancelled)
    {
      wrote, finished, used := [], 0, calls;
      if cancelled {
        return wrote, Cancelled, finished, used;
      }
      status := AwaitCurrent();
      if status != Data {
        return;
      }
      if currentAt == |current| {
        wrote, finished := Consume(0);
      } else if calls == |answers| {
        status := Blocked;
      } else {
        wrote, status, finished := WriteOnce(answers[calls]);
        used := calls + 1;
      }
    }

    /** Forwards chunks to a writer until it stops taking them, or until the context is found cancelled before a turn.
        `answers` is what the writer returns, call by call; a write that does not take the whole chunk leaves it
        current, so no credit is returned for it. */
    method WriteTo(answers: seq<WriteAnswer>, until: nat)
      returns (wrote: Bytes, status: Status, finished: nat, calls: nat)
      requires Valid()
      modifies this`current, this`currentAt, this`hasCurrent, this`queueAt, this`queueLen, chunks
      ensures Valid()
      ensures Forwarding(View(), wrote, status, finished, calls) == Forwarded(old(View()), answers, 0, until)
    {
      wrote, finished, calls := [], 0, 0;
      status := Data;
      var left := until;
      ghost var ring, goal := View(), Forwarded(View(), answers, 0, until);
      AfterNothing(goal);
      while status == Data
        invariant Valid() && ring == View() && Sane(ring) && calls <= |answers|
        invariant status == Data ==>
                    goal == After(Forwarding(ring, wrote, Data, finished, calls), Forwarded(ring, answers, calls, left))
        invariant status != Data ==> goal == Forwarding(ring, wrote, status, finished, calls)
        decreases if status == Data then Retained(ring) + 1 else 0
      {
        ghost var before := Forwarding(ring, wrote, Data, finished, calls);
        TurnIsFaithful(ring, answers, calls, left == 0);
        var out, done;
        out, status, done, calls := ForwardOne(answers, calls, left == 0);
        TurnJoins(before, ring, answers, before.calls, left);
        ring := View();
        wrote, finished := wrote + out, finished + done;
        left := if left == 0 then 0 else left - 1;
      }
    }

    /** `Close`: drops the queue; the current chunk too unless a consumer holds it. */
    method Close(consumerActive: bool)
      requires Valid()
      modifies this, chunks
      ensures Valid()
      ensures View() == if consumerActive then CloseRing(old(View())) else ClearCurrent(CloseRing(old(View())))
    {
      if !closed {
        closed := true;
        while queueLen != 0
          invariant Valid() && closed && ended == old(ended)
          invariant hasCurrent == old(hasCurrent) && current == old(current) && currentAt == old(currentAt)
        {
          chunks[queueAt] := [];
          queueAt := (queueAt + 1) % chunks.Length;
          queueLen := queueLen - 1;
        }
      }
      if !consumerActive {
        FinishCurrent();
      }
    }
  }
}
