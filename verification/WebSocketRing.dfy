/** The browser-to-upstream queue of a tunnelled web socket.

A ring of seventeen slots carries at most sixteen messages and always has room for the close that
ends them. One writer drains it, sleeping on a wake channel of capacity one.
 */
module WebSocketRing {
  import opened ByteStrings
  import opened Options
  import Rings

  const MAX_FRAMES: nat := 16
  const MAX_BYTES: nat := 1024 * 1024
  const SLOTS: nat := MAX_FRAMES + 1

  datatype Item = Message(text: bool, data: Bytes) | Close(code: nat, reason: string)

  function Size(item: Item): nat {
    if item.Message? then |item.data| else 0
  }

  function QueuedBytes(queue: seq<Item>): nat {
    if queue == [] then 0 else QueuedBytes(queue[..|queue| - 1]) + Size(queue[|queue| - 1])
  }

  lemma {:induction false} BytesOfRest(first: Item, rest: seq<Item>)
    ensures QueuedBytes([first] + rest) == Size(first) + QueuedBytes(rest)
    decreases |rest|
  {
    var queue := [first] + rest;
    if rest == [] {
      assert queue[..0] == [];
    } else {
      assert queue[..|queue| - 1] == [first] + rest[..|rest| - 1];
      BytesOfRest(first, rest[..|rest| - 1]);
    }
  }

  /** Messages only, but for a close that may stand last. */
  predicate CloseEnds(items: seq<Item>) {
    forall i :: 0 <= i < |items| - 1 ==> items[i].Message?
  }

  predicate Closed(items: seq<Item>) {
    items != [] && items[|items| - 1].Close?
  }

  lemma BytesOfAppended(queue: seq<Item>, item: Item)
    ensures QueuedBytes(queue + [item]) == QueuedBytes(queue) + Size(item)
  {
    assert (queue + [item])[..|queue|] == queue;
  }

  /** What the browser sent, through its first close. */
  function UpToClose(sent: seq<Item>): (kept: seq<Item>)
    ensures CloseEnds(kept)
  {
    if sent == [] then []
    else
      var earlier := UpToClose(sent[..|sent| - 1]);
      if Closed(earlier) then earlier else earlier + [sent[|sent| - 1]]
  }

  lemma SentOneMore(sent: seq<Item>, item: Item)
    ensures var earlier := UpToClose(sent);
      UpToClose(sent + [item]) == if Closed(earlier) then earlier else earlier + [item]
  {
    assert (sent + [item])[..|sent|] == sent;
  }

  /** The queue, whether a close has entered it, and the wake channel between enqueuers and the writer.

  `owed` counts enqueuers that have unlocked and not signalled yet.
   */
  datatype Outbox = Outbox(queue: seq<Item>, closing: bool, owed: nat, woken: bool, sleeping: bool)

  predicate Fits(queue: seq<Item>, item: Item) {
    item.Message? ==> |queue| < MAX_FRAMES && QueuedBytes(queue) + Size(item) <= MAX_BYTES
  }

  /** The locked part of `enqueueWrite`. */
  function Offered(o: Outbox, item: Item): (Outbox, bool) {
    if o.closing then (o, true)
    else if !Fits(o.queue, item) then (o, false)
    else (o.(queue := o.queue + [item], closing := item.Close?, owed := o.owed + 1), true)
  }

  function Signalled(o: Outbox): Outbox
    requires o.owed > 0
  {
    o.(owed := o.owed - 1, woken := true)
  }

  /** One pass of `nextWrite`: the oldest item, or sleep on an empty queue. */
  function Polled(o: Outbox): (Outbox, Option<Item>) {
    if o.queue == [] then (o.(sleeping := true), None) else (o.(queue := o.queue[1..]), Some(o.queue[0]))
  }

  function Roused(o: Outbox): Outbox {
    o.(woken := false, sleeping := false)
  }

  class SendQueue {
    const ring: array<Item>
    var at: nat
    var len: nat
    var bytes: int
    var closing: bool
    /** A token waits in the wake channel; the writer sleeps on that channel. */
    var woken: bool
    var sleeping: bool
    ghost var owed: nat

    constructor ()
      ensures Valid() && View() == Outbox([], false, 0, false, false) && fresh(ring)
    {
      ring := new Item[SLOTS](_ => Close(0, ""));
      at, len, bytes := 0, 0, 0;
      closing, woken, sleeping, owed := false, false, false, 0;
    }

    ghost predicate Shaped()
      reads this
    {
      ring.Length == SLOTS && at < SLOTS && len <= SLOTS
    }

    ghost function Queue(): seq<Item>
      requires Shaped()
      reads this, ring
    {
      Rings.Contents(ring[..], at, len)
    }

    ghost function View(): Outbox
      requires Shaped()
      reads this, ring
    {
      Outbox(Queue(), closing, owed, woken, sleeping)
    }

    /** The byte count is exact, and until a close has entered there is a slot to spare for it. */
    ghost predicate Valid()
      reads this, ring
    {
      Shaped() && bytes == QueuedBytes(Queue()) && (!closing ==> len <= MAX_FRAMES)
    }

    method PushBack(item: Item)
      requires Shaped() && len < SLOTS
      modifies this`len, ring
      ensures Shaped() && len == old(len) + 1 && Queue() == old(Queue()) + [item]
    {
      var index := Rings.Wrap(at, len, ring.Length);
      Rings.PushBack(ring[..], at, len, item);
      ring[index] := item;
      assert ring[..] == old(ring[..])[index := item];
      len := len + 1;
    }

    method PopFront() returns (item: Item)
      requires Shaped() && len > 0
      modifies this`at, this`len, ring
      ensures Shaped() && len == old(len) - 1 && [item] + Queue() == old(Queue())
    {
      item := ring[at];
      var blank := Close(0, "");
      Rings.PopFront(ring[..], at, len, blank);
      ring[at] := blank;
      assert ring[..] == old(ring[..])[at := blank];
      at := Rings.Wrap(at, 1, ring.Length);
      len := len - 1;
      assert old(Queue()) == [item] + old(Queue())[1..];
    }

    method Append(item: Item)
      requires Valid() && !closing && (item.Message? ==> len < MAX_FRAMES)
      modifies this`len, this`bytes, this`closing, this`owed, ring
      ensures Valid()
      ensures View() == old(View()).(queue := old(Queue()) + [item], closing := item.Close?, owed := old(owed) + 1)
    {
      BytesOfAppended(Queue(), item);
      PushBack(item);
      closing := item.Close?;
      bytes := bytes + Size(item);
      owed := owed + 1;
    }

    method Take() returns (item: Item)
      requires Shaped() && len > 0 && bytes == QueuedBytes(Queue())
      modifies this`at, this`len, this`bytes, ring
      ensures Shaped() && len == old(len) - 1
      ensures old(Queue()) == [item] + Queue() && bytes == QueuedBytes(Queue())
    {
      item := PopFront();
      BytesOfRest(item, Queue());
      bytes := bytes - Size(item);
    }

    method HasRoom(item: Item) returns (fits: bool)
      requires Shaped() && bytes == QueuedBytes(Queue())
      ensures fits == Fits(Queue(), item)
      ensures fits && item.Message? ==> len < MAX_FRAMES
    {
      assert |Queue()| == len;
      fits := item.Close? || (len < MAX_FRAMES && bytes + |item.data| <= MAX_BYTES);
    }

    /** Everything up to the unlock. */
    method EnqueueLocked(item: Item) returns (ok: bool, queued: bool)
      requires Valid()
      modifies this`len, this`bytes, this`closing, this`owed, ring
      ensures Valid() && (View(), ok) == Offered(old(View()), item)
      ensures queued <==> ok && !old(closing)
    {
      if closing {
        return true, false;
      }
      var fits := HasRoom(item);
      if !fits {
        return false, false;
      }
      Append(item);
      return true, true;
    }

    /** A send on a full channel falls through. */
    method SendWake()
      requires Valid() && owed > 0
      modifies this`woken, this`owed
      ensures Valid() && View() == Signalled(old(View()))
    {
      woken := true;
      owed := owed - 1;
    }

    method EnqueueWrite(item: Item) returns (ok: bool)
      requires Valid()
      modifies this`len, this`bytes, this`closing, this`woken, this`owed, ring
      ensures Valid() && ok == Offered(old(View()), item).1
      ensures View() == var o := Offered(old(View()), item).0; if ok && !old(closing) then Signalled(o) else o
    {
      var queued;
      ok, queued := EnqueueLocked(item);
      if queued {
        SendWake();
      }
    }

    method NextWrite() returns (item: Option<Item>)
      requires Valid()
      modifies this`at, this`len, this`bytes, this`sleeping, ring
      ensures Valid() && (View(), item) == Polled(old(View()))
    {
      if len != 0 {
        var first := Take();
        assert old(Queue())[1..] == Queue();
        return Some(first);
      }
      sleeping := true;
      return None;
    }

    method Wake()
      requires Valid()
      modifies this`woken, this`sleeping
      ensures Valid() && View() == Roused(old(View()))
    {
      woken, sleeping := false, false;
    }
  }
}
