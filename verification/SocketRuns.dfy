/** One tunnelled web socket, browser to upstream: frames arriving, enqueuers signalling, one writer.

A message is lost only with the connection: when a write upstream fails, or when the queue refuses
it and the socket closes with a backlog.
 */
module SocketRuns {
  import opened Options
  import opened WebSocketRing

  /** `hand` is the item the writer has taken, `lost` the one whose write failed; `done` says the writer has left. */
  datatype Socket = Socket(
    box: Outbox,
    sent: seq<Item>,
    hand: Option<Item>,
    handed: seq<Item>,
    lost: seq<Item>,
    refused: bool,
    done: bool)

  const OPEN := Socket(Outbox([], false, 0, false, false), [], None, [], [], false, false)

  datatype Step =
    | Sends(item: Item)
    | Signals
    | Polls
    | Wakes
    | Writes(ok: bool)
    | Leaves

  /** A refusal closes the socket, which then takes no more frames. The context can end a sleeping writer. */
  predicate Can(s: Socket, step: Step) {
    match step
    case Sends(_) => !s.refused
    case Signals => s.box.owed > 0
    case Polls => !s.done && s.hand.None? && !s.box.sleeping
    case Wakes => !s.done && s.box.sleeping && s.box.woken
    case Writes(_) => s.hand.Some?
    case Leaves => !s.done && s.box.sleeping
  }

  function Do(s: Socket, step: Step): Socket
    requires Can(s, step)
  {
    match step
    case Sends(item) =>
      var (box, ok) := Offered(s.box, item);
      if ok then s.(box := box, sent := s.sent + [item]) else s.(refused := true)
    case Signals => s.(box := Signalled(s.box))
    case Polls =>
      var (box, item) := Polled(s.box);
      s.(box := box, hand := item)
    case Wakes => s.(box := Roused(s.box))
    case Writes(ok) =>
      if ok || s.hand.value.Close? then
        s.(hand := None, handed := s.handed + [s.hand.value], done := s.hand.value.Close?)
      else s.(hand := None, lost := [s.hand.value], done := true)
    case Leaves => s.(done := true)
  }

  ghost predicate IsRun(states: seq<Socket>, steps: seq<Step>) {
    && |states| == |steps| + 1
    && states[0] == OPEN
    && forall i :: 0 <= i < |steps| ==> Can(states[i], steps[i]) && states[i + 1] == Do(states[i], steps[i])
  }

  function InHand(hand: Option<Item>): seq<Item> {
    if hand.Some? then [hand.value] else []
  }

  /** What is behind the writer: in its hand, then queued. */
  function Ahead(s: Socket): seq<Item> {
    InHand(s.hand) + s.box.queue
  }

  /** Everything the browser sent through its first close is upstream, lost with the connection, or ahead, in order. */
  ghost predicate InOrder(s: Socket) {
    && s.handed + s.lost + Ahead(s) == UpToClose(s.sent)
    && s.box.closing == Closed(UpToClose(s.sent))
    && (s.lost != [] ==> s.done)
    && (s.done ==> s.hand.None?)
    && (Closed(s.handed) ==> s.done)
  }

  predicate Bounded(o: Outbox) {
    QueuedBytes(o.queue) <= MAX_BYTES && |o.queue| <= SLOTS && (!o.closing ==> |o.queue| <= MAX_FRAMES)
  }

  /** A writer asleep on work has a token waiting for it, or an enqueuer about to send one. */
  predicate Attended(o: Outbox) {
    o.sleeping && o.queue != [] ==> o.woken || o.owed > 0
  }

  ghost predicate Inv(s: Socket) {
    InOrder(s) && Bounded(s.box) && Attended(s.box) && (s.box.sleeping ==> s.hand.None?)
  }

  lemma SendKeepsInv(s: Socket, item: Item)
    requires Inv(s) && Can(s, Sends(item))
    ensures Inv(Do(s, Sends(item)))
  {
    SentOneMore(s.sent, item);
    var (box, ok) := Offered(s.box, item);
    if ok && !s.box.closing {
      BytesOfAppended(s.box.queue, item);
      QueuedInOrder(s, s.(box := box, sent := s.sent + [item]), item);
    }
  }

  lemma QueuedInOrder(s: Socket, s': Socket, item: Item)
    requires InOrder(s) && !s.box.closing
    requires s' == s.(box := s'.box, sent := s'.sent)
    requires s'.box.queue == s.box.queue + [item] && s'.box.closing == item.Close?
    requires UpToClose(s'.sent) == UpToClose(s.sent) + [item]
    ensures InOrder(s')
  {
    assert Ahead(s') == Ahead(s) + [item];
    assert s.handed + s.lost + (Ahead(s) + [item]) == s.handed + s.lost + Ahead(s) + [item];
  }

  lemma PollKeepsInv(s: Socket)
    requires Inv(s) && Can(s, Polls)
    ensures Inv(Do(s, Polls))
  {
    if s.box.queue != [] {
      var first, rest := s.box.queue[0], s.box.queue[1..];
      assert s.box.queue == [first] + rest;
      BytesOfRest(first, rest);
      assert Ahead(s) == [first] + rest;
    }
  }

  lemma WriteKeepsInv(s: Socket, ok: bool)
    requires Inv(s) && Can(s, Writes(ok))
    ensures Inv(Do(s, Writes(ok)))
  {
    assert s.lost == [];
    var item := s.hand.value;
    assert s.handed + [] + ([item] + s.box.queue) == s.handed + [item] + [] + ([] + s.box.queue);
    assert s.handed + [] + ([item] + s.box.queue) == s.handed + [item] + ([] + s.box.queue);
  }

  lemma StepKeepsInv(s: Socket, step: Step)
    requires Inv(s) && Can(s, step)
    ensures Inv(Do(s, step))
  {
    match step
    case Sends(item) => SendKeepsInv(s, item);
    case Polls => PollKeepsInv(s);
    case Writes(ok) => WriteKeepsInv(s, ok);
    case _ =>
  }

  lemma {:induction false} RunInv(states: seq<Socket>, steps: seq<Step>, k: nat)
    requires IsRun(states, steps) && k < |states|
    ensures Inv(states[k])
    decreases k
  {
    if k > 0 {
      RunInv(states, steps, k - 1);
      StepKeepsInv(states[k - 1], steps[k - 1]);
    }
  }

  // ---- Results over every run ----

  /** The frames the browser put on the lane. */
  function Frames(steps: seq<Step>): seq<Item> {
    if steps == [] then []
    else
      var last := steps[|steps| - 1];
      Frames(steps[..|steps| - 1]) + if last.Sends? then [last.item] else []
  }

  /** What counts as sent is every frame of the browser, but for one that was refused. */
  lemma {:induction false} SentIsEveryFrame(states: seq<Socket>, steps: seq<Step>, k: nat)
    requires IsRun(states, steps) && k < |states|
    ensures var frames := Frames(steps[..k]);
            if states[k].refused then frames != [] && states[k].sent == frames[..|frames| - 1]
            else states[k].sent == frames
    decreases k
  {
    if k > 0 {
      SentIsEveryFrame(states, steps, k - 1);
      assert steps[..k][..k - 1] == steps[..k - 1];
      var step := steps[k - 1];
      assert Can(states[k - 1], step) && states[k] == Do(states[k - 1], step);
    }
  }

  /** The upstream has a prefix of what the browser sent through its first close, and nothing follows a close. */
  lemma UpstreamSeesPrefix(states: seq<Socket>, steps: seq<Step>, k: nat)
    requires IsRun(states, steps) && k < |states|
    ensures states[k].handed <= UpToClose(states[k].sent)
    ensures states[k].lost == [] ==> states[k].handed + Ahead(states[k]) == UpToClose(states[k].sent)
    ensures Closed(states[k].handed) ==> Ahead(states[k]) == [] && states[k].lost == []
    ensures Bounded(states[k].box)
  {
    RunInv(states, steps, k);
    var s := states[k];
    assert s.handed <= s.handed + s.lost + Ahead(s);
    assert s.handed + [] + Ahead(s) == s.handed + Ahead(s);
    if Closed(s.handed) {
      var whole := UpToClose(s.sent);
      assert whole[|s.handed| - 1] == s.handed[|s.handed| - 1];
    }
  }

  /** The message bytes of some items. */
  function Weight(items: seq<Item>): nat {
    if items == [] then 0
    else (match items[0] case Message(_, data) => |data| case Close(_, _) => 0) + Weight(items[1..])
  }

  lemma {:induction false} BytesAreWeight(items: seq<Item>)
    ensures QueuedBytes(items) == Weight(items)
    decreases |items|
  {
    if items != [] {
      BytesAreWeight(items[1..]);
      BytesOfRest(items[0], items[1..]);
      assert [items[0]] + items[1..] == items;
    }
  }

  /** A frame is refused exactly when no close came before it and it is a message that finds sixteen items queued, or
      would bring the queue over 1 MiB. */
  lemma RefusedExactlyWhen(states: seq<Socket>, steps: seq<Step>, k: nat, item: Item)
    requires IsRun(states, steps) && k < |steps| && steps[k] == Sends(item)
    ensures var queue := states[k].box.queue;
      states[k + 1].refused <==>
        && !Closed(UpToClose(states[k].sent)) && item.Message?
        && (|queue| >= 16 || Weight(queue) + |item.data| > 1024 * 1024)
  {
    RunInv(states, steps, k);
    BytesAreWeight(states[k].box.queue);
    assert Can(states[k], steps[k]) && states[k + 1] == Do(states[k], steps[k]);
  }

  lemma NoLostWake(states: seq<Socket>, steps: seq<Step>, k: nat)
    requires IsRun(states, steps) && k < |states| && states[k].box.sleeping && states[k].box.queue != []
    ensures states[k].box.woken || states[k].box.owed > 0
  {
    RunInv(states, steps, k);
  }

  /** The writer left alone with a working upstream. */
  function Drained(s: Socket): Socket
    requires s.hand.None? && !s.box.sleeping
    decreases |s.box.queue|
  {
    if s.done || s.box.queue == [] then s else Drained(Do(Do(s, Polls), Writes(true)))
  }

  /** An awake writer delivers everything the browser sent, in as many turns as there are items. */
  lemma {:induction false} DrainDeliversAll(s: Socket)
    requires Inv(s) && s.hand.None? && !s.box.sleeping && !s.done
    ensures Drained(s).handed == UpToClose(s.sent)
    decreases |s.box.queue|
  {
    if s.box.queue == [] {
      assert s.handed + [] + ([] + []) == s.handed;
    } else {
      var polled := Do(s, Polls);
      var written := Do(polled, Writes(true));
      StepKeepsInv(s, Polls);
      StepKeepsInv(polled, Writes(true));
      assert written.sent == s.sent;
      if written.done {
        CloseIsLast(written);
      } else {
        DrainDeliversAll(written);
      }
    }
  }

  lemma CloseIsLast(s: Socket)
    requires InOrder(s) && Closed(s.handed)
    ensures s.handed == UpToClose(s.sent)
  {
    var whole := UpToClose(s.sent);
    assert whole[|s.handed| - 1] == s.handed[|s.handed| - 1];
    assert |s.handed| == |whole|;
  }

  // ---- What the writer gets done ----

  lemma StepKeepsDone(s: Socket, step: Step)
    requires Can(s, step) && s.done && s.hand.None?
    ensures Do(s, step).done && Do(s, step).hand.None? && Do(s, step).handed == s.handed
  {
  }

  /** Once the writer has left, because its context ended, its close is through or a write failed, nothing more goes
      upstream. */
  lemma {:induction false} DoneForGood(states: seq<Socket>, steps: seq<Step>, i: nat, j: nat)
    requires IsRun(states, steps) && i < j < |states|
    requires steps[i].Leaves? || states[i].done || (steps[i] == Writes(false) && states[i].hand.Some?)
    ensures states[j].done && states[j].handed == states[i + 1].handed
    decreases j
  {
    RunInv(states, steps, i);
    RunInv(states, steps, j - 1);
    assert Can(states[i], steps[i]) && states[i + 1] == Do(states[i], steps[i]);
    if i + 1 < j {
      DoneForGood(states, steps, i, j - 1);
      StepKeepsDone(states[j - 1], steps[j - 1]);
    }
  }

  /** Steps of the writer and of those who wake it, with an upstream that takes every write. */
  predicate OfWriter(step: Step) {
    step.Signals? || step.Polls? || step.Wakes? || step == Writes(true)
  }

  ghost predicate Continues(states: seq<Socket>, steps: seq<Step>, states': seq<Socket>, steps': seq<Step>) {
    && IsRun(states', steps') && steps <= steps'
    && forall i :: |steps| <= i < |steps'| ==> OfWriter(steps'[i])
  }

  lemma Extend(states: seq<Socket>, steps: seq<Step>, step: Step) returns (states': seq<Socket>, steps': seq<Step>)
    requires IsRun(states, steps) && Can(states[|steps|], step)
    ensures IsRun(states', steps') && steps' == steps + [step]
    ensures states'[|steps'|] == Do(states[|steps|], step)
  {
    states', steps' := states + [Do(states[|steps|], step)], steps + [step];
    forall i | 0 <= i < |steps'|
      ensures Can(states'[i], steps'[i]) && states'[i + 1] == Do(states'[i], steps'[i])
    {
      if i < |steps| {
        assert states'[i] == states[i] && states'[i + 1] == states[i + 1] && steps'[i] == steps[i];
      }
    }
  }

  function Work(s: Socket): nat {
    8 * |Ahead(s)| + (if s.hand.None? then 4 else 0) + (if s.box.sleeping then 2 else 0) + if s.box.woken then 0 else 1
  }

  function NextWork(s: Socket): Step {
    if s.hand.Some? then Writes(true)
    else if !s.box.sleeping then Polls
    else if s.box.woken then Wakes
    else Signals
  }

  lemma WorkGetsDone(s: Socket)
    requires Inv(s) && !s.done && Ahead(s) != []
    ensures Can(s, NextWork(s)) && OfWriter(NextWork(s)) && Work(Do(s, NextWork(s))) < Work(s)
    ensures Do(s, NextWork(s)).sent == s.sent
    ensures Do(s, NextWork(s)).done ==> Closed(Do(s, NextWork(s)).handed)
  {
  }

  lemma NothingAheadIsAllHanded(s: Socket)
    requires InOrder(s) && !s.done && Ahead(s) == []
    ensures s.handed == UpToClose(s.sent)
  {
    assert s.handed + [] + [] == s.handed;
  }

  /** Every run whose writer has not left can be continued, by the writer and its wakers alone, until the upstream has
      everything the browser sent through its first close: no sleeping writer is forgotten. */
  lemma {:induction false} EverythingCanReachUpstream(states: seq<Socket>, steps: seq<Step>)
    returns (states': seq<Socket>, steps': seq<Step>)
    requires IsRun(states, steps) && !states[|steps|].done
    ensures Continues(states, steps, states', steps')
    ensures states'[|steps'|].sent == states[|steps|].sent
    ensures states'[|steps'|].handed == UpToClose(states[|steps|].sent)
    decreases Work(states[|steps|])
  {
    RunInv(states, steps, |steps|);
    var s := states[|steps|];
    if Ahead(s) == [] {
      states', steps' := states, steps;
      NothingAheadIsAllHanded(s);
    } else {
      WorkGetsDone(s);
      StepKeepsInv(s, NextWork(s));
      states', steps' := Extend(states, steps, NextWork(s));
      if states'[|steps'|].done {
        CloseIsLast(states'[|steps'|]);
      } else {
        var more := steps';
        states', steps' := EverythingCanReachUpstream(states', steps');
        assert forall i :: |steps| <= i < |steps'| ==> steps'[i] == if i < |more| then more[i] else steps'[i];
      }
    }
  }
}
