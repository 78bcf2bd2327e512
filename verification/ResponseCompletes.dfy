/** A response gets through, frame for frame and to its end.

The invariant of `ResponseHops` holds even of hops that never move. Here, whatever state a run has come to, they do
their work in turn and downstream is handed every frame, then the end; and credits that a source wastes on empty reads
stop it exactly when they are too many.
 */
module ResponseCompletes {
  import opened ByteStrings
  import opened Limits
  import opened AdaptiveWindow
  import opened ResponseHops

  // ---------------------------------------------------------------------------
  // What the steps deliver, over every run
  // ---------------------------------------------------------------------------

  lemma StepKeepsRemoved(s: Net, step: Step)
    requires Can(s, step, true) && s.node.removed
    ensures Do(s, step).node.removed
  {
  }

  lemma {:induction false} RemovedForGood(
      initial: int, reentrant: bool, states: seq<Net>, steps: seq<Step>, i: nat, j: nat)
    requires IsRun(initial, reentrant, states, steps) && i < j < |states| && steps[i].NodeFinish?
    ensures states[j].node.removed
    decreases j
  {
    if i + 1 < j {
      RemovedForGood(initial, reentrant, states, steps, i, j - 1);
      StepKeepsRemoved(states[j - 1], steps[j - 1]);
    }
  }

  /** Once the node has finished and both lanes are empty, the worker has seen the end, and every frame sent has been
      handed downstream or is queued in front of it. */
  lemma EndReachesTheWorker(
      initial: int, reentrant: bool, states: seq<Net>, steps: seq<Step>, i: nat, j: nat)
    requires SafeInitial(reentrant) <= initial <= MAX_RESPONSE_CREDITS
    requires IsRun(initial, reentrant, states, steps) && i < j < |states| && steps[i].NodeFinish?
    requires states[j].toCarrier == [] && states[j].toWorker == []
    ensures states[j].worker.ended
    ensures states[j].node.sent == states[j].worker.delivered + states[j].worker.queue
  {
    RemovedForGood(initial, reentrant, states, steps, i, j);
    RunInv(initial, reentrant, states, steps, j);
  }

  /** A pull hands over the oldest queued frame, before and after the end alike; with none queued it waits, unless
      the response has ended. */
  lemma PullDeliversOldest(initial: int, reentrant: bool, states: seq<Net>, steps: seq<Step>, k: nat)
    requires SafeInitial(reentrant) <= initial <= MAX_RESPONSE_CREDITS
    requires IsRun(initial, reentrant, states, steps) && k < |steps| && steps[k].WorkerPull?
    ensures var w, w' := states[k].worker, states[k + 1].worker;
      && (w.queue != [] ==> w'.delivered == w.delivered + [w.queue[0]] && w'.queue == w.queue[1..])
      && (w.queue == [] ==> w'.delivered == w.delivered && w'.queue == [])
      && (w.queue == [] && !w.ended ==> w'.window.waiting)
  {
    RunInv(initial, reentrant, states, steps, k);
    assert states[k + 1] == Do(states[k], steps[k]);
    if states[k].worker.queue == [] && !states[k].worker.ended {
      EmptyQueueHasCredit(states[k].worker.window, reentrant);
    }
  }

  /** A frame goes straight to a waiting consumer and otherwise to the back of the queue. */
  lemma ArrivalIsHandedOverOrQueued(initial: int, reentrant: bool, states: seq<Net>, steps: seq<Step>, k: nat)
    requires SafeInitial(reentrant) <= initial <= MAX_RESPONSE_CREDITS
    requires IsRun(initial, reentrant, states, steps) && k < |steps| && steps[k].WorkerReceive?
    requires states[k].toWorker != [] && states[k].toWorker[0].Body?
    ensures var w, w', frame := states[k].worker, states[k + 1].worker, states[k].toWorker[0].frame;
      if w.window.waiting then w'.delivered == w.delivered + [frame] && w'.queue == w.queue
      else w'.delivered == w.delivered && w'.queue == w.queue + [frame]
  {
    RunInv(initial, reentrant, states, steps, k);
    RunInv(initial, reentrant, states, steps, k + 1);
    assert Can(states[k], steps[k], reentrant) && states[k + 1] == Do(states[k], steps[k]);
  }

  // ---------------------------------------------------------------------------
  // Continuations
  // ---------------------------------------------------------------------------

  predicate CanAll(reentrant: bool, s: Net, steps: seq<Step>)
    decreases |steps|
  {
    steps == [] || (Can(s, steps[0], reentrant) && CanAll(reentrant, Do(s, steps[0]), steps[1..]))
  }

  function DoAll(reentrant: bool, s: Net, steps: seq<Step>): Net
    requires CanAll(reentrant, s, steps)
    decreases |steps|
  {
    if steps == [] then s else DoAll(reentrant, Do(s, steps[0]), steps[1..])
  }

  ghost predicate Leads(reentrant: bool, s: Net, s': Net) {
    exists steps :: CanAll(reentrant, s, steps) && DoAll(reentrant, s, steps) == s'
  }

  lemma LeadsToSelf(reentrant: bool, s: Net)
    ensures Leads(reentrant, s, s)
  {
    assert CanAll(reentrant, s, []) && DoAll(reentrant, s, []) == s;
  }

  lemma LeadsFirst(reentrant: bool, s: Net, step: Step, s': Net)
    requires Can(s, step, reentrant) && Leads(reentrant, Do(s, step), s')
    ensures Leads(reentrant, s, s')
  {
    var rest :| CanAll(reentrant, Do(s, step), rest) && DoAll(reentrant, Do(s, step), rest) == s';
    var steps := [step] + rest;
    assert steps[1..] == rest;
    assert CanAll(reentrant, s, steps) && DoAll(reentrant, s, steps) == s';
  }

  lemma LeadsByOne(reentrant: bool, s: Net, step: Step)
    requires Can(s, step, reentrant)
    ensures Leads(reentrant, s, Do(s, step))
  {
    LeadsToSelf(reentrant, Do(s, step));
    LeadsFirst(reentrant, s, step, Do(s, step));
  }

  lemma {:induction false} AllChain(reentrant: bool, s: Net, steps: seq<Step>, s'': Net)
    requires CanAll(reentrant, s, steps) && Leads(reentrant, DoAll(reentrant, s, steps), s'')
    ensures Leads(reentrant, s, s'')
    decreases |steps|
  {
    if steps != [] {
      AllChain(reentrant, Do(s, steps[0]), steps[1..], s'');
      LeadsFirst(reentrant, s, steps[0], s'');
    }
  }

  lemma LeadsOn(reentrant: bool, s: Net, s': Net, s'': Net)
    requires Leads(reentrant, s, s') && Leads(reentrant, s', s'')
    ensures Leads(reentrant, s, s'')
  {
    var steps :| CanAll(reentrant, s, steps) && DoAll(reentrant, s, steps) == s';
    AllChain(reentrant, s, steps, s'');
  }

  // ---------------------------------------------------------------------------
  // What is under way arrives
  // ---------------------------------------------------------------------------

  /** The request reaches the node before the node does anything about it. */
  predicate Begun(s: Net) {
    !s.node.begun ==>
      && s.node.available == 0 && s.node.held == 0 && s.lostAtNode == 0 && !s.node.removed
      && (s.page.begun ==> s.toNode != [])
  }

  ghost predicate Sound(s: Net, initial: int, reentrant: bool) {
    Inv(s, reentrant) && Begun(s) && s.worker.window.initial == initial
  }

  lemma StepKeepsBegun(s: Net, step: Step)
    requires Can(s, step, true) && Begun(s) && ReqFirst(s.toPage, s.page.begun)
    ensures Begun(Do(s, step))
  {
  }

  lemma PullKeepsInitial(w: Window, fast: bool)
    ensures OnPull(w, fast).window.initial == w.initial
  {
  }

  lemma ChunkKeepsInitial(w: Window, fast: bool, reenter: bool)
    ensures OnChunk(w, fast, reenter).window.initial == w.initial
  {
  }

  lemma StepKeepsInitial(s: Net, step: Step)
    requires Can(s, step, true)
    ensures Do(s, step).worker.window.initial == s.worker.window.initial
  {
    match step
    case WorkerPull(fast) => PullKeepsInitial(s.worker.window, fast);
    case WorkerReceive(fast, reenter) => ChunkKeepsInitial(s.worker.window, fast, reenter);
    case _ =>
  }

  lemma StepKeepsSound(s: Net, step: Step, initial: int, reentrant: bool)
    requires Sound(s, initial, reentrant) && Can(s, step, reentrant)
    ensures Sound(Do(s, step), initial, reentrant)
  {
    StepKeepsInv(s, step, reentrant);
    StepKeepsBegun(s, step);
    StepKeepsInitial(s, step);
  }

  lemma {:induction false} RunSound(initial: int, reentrant: bool, states: seq<Net>, steps: seq<Step>, k: nat)
    requires SafeInitial(reentrant) <= initial <= MAX_RESPONSE_CREDITS
    requires IsRun(initial, reentrant, states, steps) && k < |states|
    ensures Sound(states[k], initial, reentrant)
    decreases k
  {
    if k == 0 {
      InitInv(initial, reentrant);
    } else {
      RunSound(initial, reentrant, states, steps, k - 1);
      StepKeepsSound(states[k - 1], steps[k - 1], initial, reentrant);
    }
  }

  /** A bound on the hops that what is under way has left: credit to the node, frames to downstream. */
  function UnderWay(s: Net): nat {
    2 * |s.toPage| + |s.toNode| + 8 * |s.toCarrier| + 6 * |s.toWorker| + 3 * |s.worker.queue|
  }

  /** The next hop, credit first. */
  function NextHop(s: Net): Step {
    if s.toNode != [] then NodeDemand
    else if s.toPage != [] then PageDemand
    else if s.toCarrier != [] then PageFrame
    else if s.toWorker != [] then WorkerReceive(false, false)
    else WorkerPull(false)
  }

  /** What travelling leaves alone. */
  predicate SameSource(s: Net, s': Net) {
    && s'.node.sent == s.node.sent && s'.node.removed == s.node.removed && s'.node.held == s.node.held
    && (!s.node.removed ==> s'.lostAtNode == s.lostAtNode)
  }

  lemma CreditHops(s: Net, reentrant: bool)
    requires Inv(s, reentrant) && (s.toNode != [] || s.toPage != [])
    ensures Can(s, NextHop(s), reentrant)
    ensures SameSource(s, Do(s, NextHop(s))) && UnderWay(Do(s, NextHop(s))) < UnderWay(s)
  {
  }

  lemma FrameHops(s: Net, reentrant: bool)
    requires Inv(s, reentrant) && s.toNode == [] && s.toPage == [] && UnderWay(s) > 0
    ensures Can(s, NextHop(s), reentrant)
    ensures SameSource(s, Do(s, NextHop(s))) && UnderWay(Do(s, NextHop(s))) < UnderWay(s)
  {
    if s.toCarrier == [] {
      if s.toWorker == [] {
        PullHops(s.worker);
      } else if s.toWorker[0].Body? {
        ReceiveKeepsInv(s, false, false, reentrant);
        ChunkHops(s.worker, s.toWorker[0].frame);
      }
    }
  }

  lemma PullHops(w: Worker)
    requires !w.failed && w.queue != [] && |w.queue| == w.window.queued
    ensures var (w', posts) := PullWorker(w, false);
      |posts| <= 1 && |w'.queue| == |w.queue| - 1
  {
  }

  lemma ChunkHops(w: Worker, frame: Frame)
    ensures var (w', posts) := ChunkWorker(w, frame, false, false);
      |posts| <= 1 && (!w'.failed ==> |w'.queue| + |posts| <= |w.queue| + 1)
  {
  }

  lemma {:induction false} EverythingArrives(s: Net, initial: int, reentrant: bool) returns (s': Net)
    requires Sound(s, initial, reentrant)
    ensures Leads(reentrant, s, s') && Sound(s', initial, reentrant) && SameSource(s, s') && UnderWay(s') == 0
    decreases UnderWay(s)
  {
    if UnderWay(s) == 0 {
      s' := s;
      LeadsToSelf(reentrant, s);
    } else {
      if s.toNode != [] || s.toPage != [] {
        CreditHops(s, reentrant);
      } else {
        FrameHops(s, reentrant);
      }
      StepKeepsSound(s, NextHop(s), initial, reentrant);
      s' := EverythingArrives(Do(s, NextHop(s)), initial, reentrant);
      LeadsFirst(reentrant, s, NextHop(s), s');
    }
  }

  // ---------------------------------------------------------------------------
  // What is still to come gets through
  // ---------------------------------------------------------------------------

  /** As many credits may be lost to empty reads as the window holds beyond one refill batch. */
  function Spare(initial: int): int { initial - Threshold(initial) }

  /** With everything delivered, a live node has a credit unless it has wasted too many. */
  lemma CreditIsLeft(s: Net, initial: int, reentrant: bool)
    requires Sound(s, initial, reentrant) && UnderWay(s) == 0 && !s.node.removed && s.lostAtNode <= Spare(initial)
    ensures s.node.available > 0 || s.node.held > 0
  {
    var w := s.worker.window;
    assert w.balance >= w.target - Threshold(w.target) + 1;
    assert w.target - Threshold(w.target) >= initial - Threshold(initial);
  }

  lemma OneMoreIsSent(s: Net, frame: Frame, initial: int, reentrant: bool) returns (s': Net)
    requires Sound(s, initial, reentrant) && !s.node.removed && s.lostAtNode <= Spare(initial)
    requires |frame| <= MAX_PAYLOAD_BYTES
    ensures Leads(reentrant, s, s') && Sound(s', initial, reentrant)
    ensures s'.node.sent == s.node.sent + [frame] && !s'.node.removed && s'.lostAtNode == s.lostAtNode
  {
    var ready := EverythingArrives(s, initial, reentrant);
    CreditIsLeft(ready, initial, reentrant);
    var taken := ready;
    if ready.node.held == 0 {
      taken := Do(ready, NodeTake);
      StepKeepsSound(ready, NodeTake, initial, reentrant);
      LeadsByOne(reentrant, ready, NodeTake);
      LeadsOn(reentrant, s, ready, taken);
    }
    s' := Do(taken, NodeSend(frame));
    StepKeepsSound(taken, NodeSend(frame), initial, reentrant);
    LeadsByOne(reentrant, taken, NodeSend(frame));
    LeadsOn(reentrant, s, taken, s');
  }

  lemma {:induction false} MoreIsSent(s: Net, more: seq<Frame>, initial: int, reentrant: bool) returns (s': Net)
    requires Sound(s, initial, reentrant) && !s.node.removed && WithinLimit(more)
    requires more != [] ==> s.lostAtNode <= Spare(initial)
    ensures Leads(reentrant, s, s') && Sound(s', initial, reentrant)
    ensures s'.node.sent == s.node.sent + more && !s'.node.removed && s'.lostAtNode == s.lostAtNode
    decreases |more|
  {
    if more == [] {
      s' := s;
      LeadsToSelf(reentrant, s);
    } else {
      var most, last := more[..|more| - 1], more[|more| - 1];
      var before := MoreIsSent(s, most, initial, reentrant);
      s' := OneMoreIsSent(before, last, initial, reentrant);
      assert more == most + [last];
      LeadsOn(reentrant, s, before, s');
    }
  }

  /** Downstream was handed exactly these frames, and then the end. */
  predicate Complete(s: Net, frames: seq<Frame>) {
    s.worker.closed && s.worker.delivered == frames
  }

  lemma ArrivedIsComplete(s: Net, reentrant: bool)
    requires Inv(s, reentrant) && UnderWay(s) == 0 && s.node.removed
    ensures Complete(s, s.node.sent)
  {
    assert s.worker.delivered + [] + [] + [] == s.worker.delivered;
  }

  lemma ResponseCloses(s: Net, initial: int, reentrant: bool) returns (s': Net)
    requires Sound(s, initial, reentrant)
    ensures Leads(reentrant, s, s') && Complete(s', s.node.sent)
  {
    var ready := EverythingArrives(s, initial, reentrant);
    var finished := ready;
    if !ready.node.removed {
      assert ready.node.begun;
      finished := Do(ready, NodeFinish);
      StepKeepsSound(ready, NodeFinish, initial, reentrant);
      LeadsByOne(reentrant, ready, NodeFinish);
      LeadsOn(reentrant, s, ready, finished);
    }
    s' := EverythingArrives(finished, initial, reentrant);
    ArrivedIsComplete(s', reentrant);
    LeadsOn(reentrant, s, finished, s');
  }

  lemma ResponseGoesOn(s: Net, more: seq<Frame>, initial: int, reentrant: bool) returns (s': Net)
    requires Sound(s, initial, reentrant) && WithinLimit(more)
    requires more != [] ==> !s.node.removed && s.lostAtNode <= Spare(initial)
    ensures Leads(reentrant, s, s') && Complete(s', s.node.sent + more)
  {
    if more == [] {
      s' := ResponseCloses(s, initial, reentrant);
      assert s.node.sent + more == s.node.sent;
    } else {
      var sent := MoreIsSent(s, more, initial, reentrant);
      s' := ResponseCloses(sent, initial, reentrant);
      LeadsOn(reentrant, s, sent, s');
    }
  }

  /** From every state that a run comes to, the response can be brought to its close with every frame sent handed
      downstream; and, while the node is live and has wasted no more credits on empty reads than the window can spare,
      after any further frames. */
  lemma EveryResponseCanComplete(
      initial: int, reentrant: bool, states: seq<Net>, steps: seq<Step>, k: nat, more: seq<Frame>) returns (s': Net)
    requires SafeInitial(reentrant) <= initial <= MAX_RESPONSE_CREDITS
    requires IsRun(initial, reentrant, states, steps) && k < |states| && WithinLimit(more)
    requires more != [] ==> !states[k].node.removed && states[k].lostAtNode <= Spare(initial)
    ensures Leads(reentrant, states[k], s') && Complete(s', states[k].node.sent + more)
  {
    RunSound(initial, reentrant, states, steps, k);
    s' := ResponseGoesOn(states[k], more, initial, reentrant);
  }

  // ---------------------------------------------------------------------------
  // What cannot get through
  // ---------------------------------------------------------------------------

  lemma {:induction false} LeadsKeepsSound(s: Net, steps: seq<Step>, initial: int, reentrant: bool)
    requires Sound(s, initial, reentrant) && CanAll(reentrant, s, steps)
    ensures Sound(DoAll(reentrant, s, steps), initial, reentrant)
    decreases |steps|
  {
    if steps != [] {
      StepKeepsSound(s, steps[0], initial, reentrant);
      LeadsKeepsSound(Do(s, steps[0]), steps[1..], initial, reentrant);
    }
  }

  lemma StartIsSound(initial: int, reentrant: bool)
    requires SafeInitial(reentrant) <= initial <= MAX_RESPONSE_CREDITS
    ensures Sound(Init(initial), initial, reentrant) && Init(initial).node.sent == [] && !Init(initial).node.removed
    ensures Init(initial).lostAtNode <= Spare(initial)
  {
    InitInv(initial, reentrant);
  }

  lemma CompleteIsWithinLimit(s: Net, s': Net, frames: seq<Frame>, initial: int, reentrant: bool)
    requires Sound(s, initial, reentrant) && Leads(reentrant, s, s') && Complete(s', frames)
    ensures WithinLimit(frames)
  {
    var steps :| CanAll(reentrant, s, steps) && DoAll(reentrant, s, steps) == s';
    LeadsKeepsSound(s, steps, initial, reentrant);
    assert forall i :: 0 <= i < |frames| ==> frames[i] == s'.node.sent[i];
  }

  ghost predicate CanComplete(initial: int, reentrant: bool, frames: seq<Frame>) {
    exists s :: Leads(reentrant, Init(initial), s) && Complete(s, frames)
  }

  /** A response can be handed downstream to its end exactly when each of its frames is within the payload limit,
      whatever their number. */
  lemma ResponseCompletesExactlyWhen(initial: int, reentrant: bool, frames: seq<Frame>)
    requires SafeInitial(reentrant) <= initial <= MAX_RESPONSE_CREDITS
    ensures CanComplete(initial, reentrant, frames) <==> WithinLimit(frames)
  {
    StartIsSound(initial, reentrant);
    if WithinLimit(frames) {
      var s := ResponseGoesOn(Init(initial), frames, initial, reentrant);
      assert [] + frames == frames;
    }
    if CanComplete(initial, reentrant, frames) {
      var s :| Leads(reentrant, Init(initial), s) && Complete(s, frames);
      CompleteIsWithinLimit(Init(initial), s, frames, initial, reentrant);
    }
  }

  /** A window that has lost more credits than it can spare never sees a whole refill batch free, so it never refills:
      every frame handed downstream still counts as slack. */
  ghost predicate Throttled(s: Net) {
    var w := s.worker.window;
    && s.lostAtNode > Spare(w.initial)
    && (!s.worker.ended ==> w.target == w.initial && |s.worker.delivered| == w.sampleConsumed == w.Slack())
    && (!s.node.removed ==> !s.worker.ended)
  }

  /** So at most one frame less than a batch has been sent. */
  lemma ThrottledSendsFew(s: Net, initial: int, reentrant: bool)
    requires Sound(s, initial, reentrant) && Throttled(s) && !s.worker.ended
    ensures s.worker.window.Slack() + s.worker.window.queued + |Frames(s.toWorker)| + |Frames(s.toCarrier)|
            <= initial - s.lostAtNode < Threshold(initial)
    ensures |s.node.sent| < Threshold(initial)
  {
    DemandNonNegative(s.toPage);
    DemandNonNegative(s.toNode);
  }

  lemma ConsumesWithoutRefill(w: Window, fast: bool)
    requires w.target == w.initial && 0 <= w.sampleConsumed && w.sampleConsumed + 1 == w.Slack() < Threshold(w.target)
    ensures Consume(w, fast) == Reply(w.(sampleConsumed := w.sampleConsumed + 1), [], false)
  {
  }

  lemma PullKeepsThrottled(s: Net, fast: bool, initial: int, reentrant: bool)
    requires Sound(s, initial, reentrant) && Throttled(s) && !s.worker.ended
    ensures Throttled(Do(s, WorkerPull(fast)))
  {
    var w := s.worker.window;
    ThrottledSendsFew(s, initial, reentrant);
    if w.queued > 0 {
      ConsumesWithoutRefill(w.(queued := w.queued - 1), fast);
    } else {
      EmptyQueueHasCredit(w, reentrant);
    }
  }

  /** A frame that a waiting consumer is handed, with or without a call back. */
  lemma DeliveryWithoutRefill(w: Window, fast: bool, reenter: bool)
    requires w.target == w.initial && 0 <= w.sampleConsumed == w.Slack() && w.Slack() + 1 < Threshold(w.target)
    requires w.waiting && w.queued == 0 && w.balance > 1
    ensures OnChunk(w, fast, reenter)
         == Reply(w.(balance := w.balance - 1, waiting := reenter, sampleConsumed := w.sampleConsumed + 1), [], false)
  {
    var delivered := w.(balance := w.balance - 1, waiting := reenter);
    ConsumesWithoutRefill(delivered, fast);
  }

  lemma ArrivalHasRoom(s: Net, initial: int, reentrant: bool)
    requires Sound(s, initial, reentrant) && Throttled(s) && !s.worker.ended
    requires s.toWorker != [] && s.toWorker[0].Body?
    ensures var w := s.worker.window;
      w.balance > 1 && w.Slack() + 1 < Threshold(w.target) && w.queued < w.target && w.Slack() >= 0
    ensures |s.toWorker[0].frame| <= MAX_PAYLOAD_BYTES
  {
    ThrottledSendsFew(s, initial, reentrant);
    PopAnswer(s.toWorker, s.page.closed);
    DemandNonNegative(s.toPage);
    DemandNonNegative(s.toNode);
    assert s.toWorker[0].frame == s.node.sent[|s.worker.delivered + s.worker.queue|];
  }

  lemma ArrivalKeepsThrottled(s: Net, step: Step, initial: int, reentrant: bool)
    requires Sound(s, initial, reentrant) && Throttled(s) && !s.worker.ended
    requires step.WorkerReceive? && Can(s, step, reentrant) && s.toWorker[0].Body?
    ensures Throttled(Do(s, step))
  {
    ArrivalHasRoom(s, initial, reentrant);
    ChunkKeepsThrottled(s.worker, s.toWorker[0].frame, step.fast, step.reenter);
  }

  lemma ChunkKeepsThrottled(worker: Worker, frame: Frame, fast: bool, reenter: bool)
    requires var w := worker.window;
      && !worker.failed && !worker.ended && w.target == w.initial
      && |worker.delivered| == w.sampleConsumed == w.Slack() && w.Slack() + 1 < Threshold(w.target)
      && w.balance > 1 && w.queued < w.target && (w.waiting ==> w.queued == 0)
    requires |frame| <= MAX_PAYLOAD_BYTES
    ensures var worker' := ChunkWorker(worker, frame, fast, reenter).0;
      var w := worker'.window;
      && !worker'.ended && w.target == w.initial == worker.window.initial
      && |worker'.delivered| == w.sampleConsumed == w.Slack()
  {
    if worker.window.waiting {
      DeliveryWithoutRefill(worker.window, fast, reenter);
    }
  }

  lemma StepKeepsThrottled(s: Net, step: Step, initial: int, reentrant: bool)
    requires Sound(s, initial, reentrant) && Throttled(s) && Can(s, step, reentrant)
    ensures Throttled(Do(s, step))
  {
    StepKeepsSound(s, step, initial, reentrant);
    if s.worker.ended {
      assert Do(s, step).worker.ended;
    } else {
      match step
      case WorkerPull(fast) => PullKeepsThrottled(s, fast, initial, reentrant);
      case WorkerReceive(_, _) =>
        if s.toWorker[0].Body? {
          ArrivalKeepsThrottled(s, step, initial, reentrant);
        }
      case _ =>
    }
  }

  lemma {:induction false} ThrottledForGood(s: Net, steps: seq<Step>, initial: int, reentrant: bool)
    requires Sound(s, initial, reentrant) && Throttled(s) && |s.node.sent| < Threshold(initial)
    requires CanAll(reentrant, s, steps)
    ensures |DoAll(reentrant, s, steps).node.sent| < Threshold(initial)
    ensures Sound(DoAll(reentrant, s, steps), initial, reentrant)
    decreases |steps|
  {
    if steps != [] {
      var s' := Do(s, steps[0]);
      StepKeepsSound(s, steps[0], initial, reentrant);
      StepKeepsThrottled(s, steps[0], initial, reentrant);
      if steps[0].NodeSend? {
        ThrottledSendsFew(s', initial, reentrant);
      }
      ThrottledForGood(s', steps[1..], initial, reentrant);
    }
  }

  /** A live response can be continued with these frames and then closed. */
  ghost predicate CarriesOn(reentrant: bool, s: Net, more: seq<Frame>) {
    exists s' :: Leads(reentrant, s, s') && Complete(s', s.node.sent + more)
  }

  /** Whatever a run has come to, `n` empty reads do not keep a live response from going on as it likes. */
  ghost predicate Tolerates(initial: int, reentrant: bool, n: nat) {
    forall s, more :: Reaches(initial, reentrant, s) && !s.node.removed && s.lostAtNode <= n && WithinLimit(more) ==>
      CarriesOn(reentrant, s, more)
  }

  /** A response whose source has wasted one credit too many, at the start, cannot send a whole batch. */
  lemma WastefulResponseStalls(initial: int, reentrant: bool)
    requires SafeInitial(reentrant) <= initial <= MAX_RESPONSE_CREDITS
    ensures var s, batch := ReadNothing(initial, Spare(initial) + 1), seq(Threshold(initial), i => []);
      Reaches(initial, reentrant, s) && WithinLimit(batch) && !CarriesOn(reentrant, s, batch)
  {
    var s, batch := ReadNothing(initial, Spare(initial) + 1), seq(Threshold(initial), i => []);
    ReadsNothing(initial, reentrant, Spare(initial) + 1);
    StartAligned(initial, reentrant);
    assert Sound(s, initial, reentrant) && Throttled(s);
    if CarriesOn(reentrant, s, batch) {
      var s' :| Leads(reentrant, s, s') && Complete(s', s.node.sent + batch);
      var steps :| CanAll(reentrant, s, steps) && DoAll(reentrant, s, steps) == s';
      ThrottledForGood(s, steps, initial, reentrant);
      assert false;
    }
  }

  /** Empty reads are harmless exactly up to what the window can spare: 16 of 24 credits, 24 of 32, 4 of 8. */
  lemma EmptyReadsToleratedExactlyWhen(initial: int, reentrant: bool, n: nat)
    requires SafeInitial(reentrant) <= initial <= MAX_RESPONSE_CREDITS
    ensures Tolerates(initial, reentrant, n) <==> n <= initial - Threshold(initial)
  {
    if n <= Spare(initial) {
      forall s, more | Reaches(initial, reentrant, s) && !s.node.removed && s.lostAtNode <= n && WithinLimit(more)
        ensures CarriesOn(reentrant, s, more)
      {
        var states: seq<Net>, steps: seq<Step> :|
          IsRun(initial, reentrant, states, steps) && states[|states| - 1] == s;
        var s' := EveryResponseCanComplete(initial, reentrant, states, steps, |steps|, more);
      }
    } else {
      WastefulResponseStalls(initial, reentrant);
    }
  }
}
