/** From which states an upload still gets through, byte for byte.

The invariant of `Upload` holds even of a system that never moves. Here, whatever state a run has come to, page, lane
and handler do their work in turn and the handler reads the whole source to its end of file, unless something has
happened by then that rules it out; what that is can be read off the state.
 */
module UploadCompletes {
  import opened ByteStrings
  import opened Limits
  import opened RequestBody
  import BodyLifecycle
  import opened Upload

  const MAX_BODY := BodyLifecycle.MAX_REQUEST_BODY_BYTES

  // ---------------------------------------------------------------------------
  // Continuations
  // ---------------------------------------------------------------------------

  /** A page that sends its source, a lane that delivers and a handler that reads: nobody gives up, nothing times out,
      no body is closed anew. */
  predicate Working(step: Step) {
    match step
    case PageCancel => false
    case PageAbandon => false
    case NodeRemove(_) => false
    case NodeTimeout => false
    case NodeForget => false
    case NodeBody(inner) =>
      !inner.Stop? && !inner.Cancel? && !inner.CloseBegin? && !inner.CloseTry? && !inner.Unlock? && !inner.Release?
    case _ => true
  }

  predicate CanAll(working: bool, s: Sys, steps: seq<Step>)
    decreases |steps|
  {
    || steps == []
    || (Can(s, steps[0]) && (working ==> Working(steps[0])) && CanAll(working, Do(s, steps[0]), steps[1..]))
  }

  function DoAll(working: bool, s: Sys, steps: seq<Step>): Sys
    requires CanAll(working, s, steps)
    decreases |steps|
  {
    if steps == [] then s else DoAll(working, Do(s, steps[0]), steps[1..])
  }

  /** Some continuation, by work alone or by any steps, leads to `s'`. */
  ghost predicate Leads(working: bool, s: Sys, s': Sys) {
    exists steps :: CanAll(working, s, steps) && DoAll(working, s, steps) == s'
  }

  lemma LeadsToSelf(working: bool, s: Sys)
    ensures Leads(working, s, s)
  {
    assert CanAll(working, s, []) && DoAll(working, s, []) == s;
  }

  lemma LeadsFirst(working: bool, s: Sys, step: Step, s': Sys)
    requires Can(s, step) && (working ==> Working(step)) && Leads(working, Do(s, step), s')
    ensures Leads(working, s, s')
  {
    var rest :| CanAll(working, Do(s, step), rest) && DoAll(working, Do(s, step), rest) == s';
    var steps := [step] + rest;
    assert steps[1..] == rest;
    assert CanAll(working, s, steps) && DoAll(working, s, steps) == s';
  }

  // ---------------------------------------------------------------------------
  // What can still complete
  // ---------------------------------------------------------------------------

  /** The handler has read the whole source and seen its end, and the request's reservation is released. */
  predicate Complete(s: Sys) {
    s.node.body.delivered == s.source && s.node.body.ring.ended && s.node.body.drained
  }

  ghost predicate EndUnderWay(s: Sys) {
    exists i :: 0 <= i < |Inbox(s)| && Inbox(s)[i].ReqEnd?
  }

  /** The body is open, and its end is in the node's hands, on the lane to a live request, or yet to be sent. */
  ghost predicate Arriving(s: Sys) {
    && !s.node.body.bodyEnded && !s.node.body.ring.closed
    && (s.node.hand == Held(ReqEnd, true) || (s.node.live && (s.sender.open || EndUnderWay(s))))
  }

  /** The source fits, nothing of it has been dropped or is about to be, and its end is in or can still come in. */
  ghost predicate Completable(s: Sys) {
    var b := s.node.body;
    && |s.source| <= MAX_BODY
    && b.dropped == [] && (b.owner == BodyLifecycle.Closer ==> Unread(b.ring.current) == [])
    && (b.ring.ended || Arriving(s))
  }

  /** A live request's context is not cancelled, and only an end that was seen ends the ring. */
  predicate InContext(s: Sys) {
    (s.node.live ==> !s.node.body.cancelled) && (s.node.body.ring.ended ==> s.endSeen)
  }

  ghost predicate Sound(s: Sys) {
    Inv(s) && InContext(s)
  }

  lemma HandleKeepsContext(s: Sys, allow: bool)
    requires !s.node.hand.Nothing? && InContext(s)
    ensures InContext(Handle(s, allow))
  {
    HandledBody(s, allow);
    HandledRest(s, allow);
    HandledEnd(s, allow);
  }

  lemma HandledEnd(s: Sys, allow: bool)
    requires !s.node.hand.Nothing?
    ensures Handle(s, allow).endSeen == (s.endSeen || (s.node.hand.Held? && !s.node.hand.msg.ReqBody?))
  {
  }

  lemma StepKeepsSound(s: Sys, step: Step)
    requires Sound(s) && Can(s, step)
    ensures Sound(Do(s, step)) && Do(s, step).source == s.source
  {
    StepKeepsInv(s, step);
    StepKeepsSource(s, step);
    if step.NodeHandle? {
      HandleKeepsContext(s, step.allow);
    } else if step.NodeBody? {
      InternalIsUnaccepting(s.node, step.step);
    }
  }

  lemma {:induction false} RunSound(source: Bytes, states: seq<Sys>, steps: seq<Step>, k: nat)
    requires IsRun(source, states, steps) && k < |states|
    ensures Sound(states[k]) && states[k].source == source
    decreases k
  {
    if k == 0 {
      InitInv(source);
    } else {
      RunSound(source, states, steps, k - 1);
      assert Linked(states, steps, k - 1);
      StepKeepsSound(states[k - 1], steps[k - 1]);
    }
  }

  // ---------------------------------------------------------------------------
  // What is ruled out stays ruled out
  // ---------------------------------------------------------------------------

  lemma CompleteIsCompletable(s: Sys)
    requires Sound(s) && Complete(s)
    ensures Completable(s)
  {
    var b := s.node.body;
    assert |b.delivered + Rest(b.ring) + b.dropped| == |b.delivered| + |Rest(b.ring)| + |b.dropped|;
  }

  lemma PageMakesNoEnd(s: Sys, step: Step)
    requires Sound(s) && Can(s, step) && Completable(Do(s, step))
    requires step.PageGrant? || step.PageTake? || step.PageRead? || step.PageSend? || step.PageEnd?
    ensures Completable(s)
  {
    if step.PageGrant? {
      GrantKeepsInv(s);
    }
  }

  lemma QuittingMakesNoEnd(s: Sys, step: Step)
    requires Can(s, step) && Completable(Do(s, step)) && (step.PageCancel? || step.PageAbandon?)
    ensures Completable(s)
  {
    var s' := Do(s, step);
    if EndUnderWay(s') {
      var i :| 0 <= i < |Inbox(s')| && Inbox(s')[i].ReqEnd?;
      assert i < |Inbox(s)| && Inbox(s)[i] == Inbox(s')[i];
    }
  }

  lemma LookupMakesNoEnd(s: Sys)
    requires Can(s, NodeLookup) && Completable(Do(s, NodeLookup))
    ensures Completable(s)
  {
    var s' := Do(s, NodeLookup);
    assert Inbox(s') == Inbox(s);
    if s'.node.hand == Held(ReqEnd, true) {
      assert Inbox(s)[0].ReqEnd?;
    }
  }

  /** Handling a message leaves the body as it is, queues a frame, or ends it. */
  lemma HandledBody(s: Sys, allow: bool)
    requires !s.node.hand.Nothing?
    ensures var h, b, b' := s.node.hand, s.node.body, Handle(s, allow).node.body;
      || b' == b
      || (h.Held? && h.msg.ReqBody? && BodyLifecycle.Offer(b, h.msg.payload) == BodyLifecycle.Accepted(b'))
      || (h == Held(ReqEnd, true) && b' == BodyLifecycle.EndBody(b))
  {
    match s.node.hand
    case Raced(_, _) =>
    case Held(ReqBody(_), _) =>
    case Held(_, _) =>
  }

  lemma HandledRest(s: Sys, allow: bool)
    requires !s.node.hand.Nothing?
    ensures var s' := Handle(s, allow);
      s'.sender == s.sender && s'.source == s.source && s'.up == s.up && (s'.node.live ==> s.node.live)
  {
  }

  lemma HandledHand(s: Sys, allow: bool)
    requires !s.node.hand.Nothing?
    ensures var h, h' := s.node.hand, Handle(s, allow).node.hand;
      h'.Nothing? || (h'.Raced? && h.Held? && h.msg == ReqBody(h'.payload))
  {
  }

  lemma HandleIsLocal(s: Sys, allow: bool)
    requires !s.node.hand.Nothing?
    ensures var b, b' := s.node.body, Handle(s, allow).node.body;
      && b'.dropped == b.dropped && b'.owner == b.owner && b'.ring.current == b.ring.current
      && b'.ring.closed == b.ring.closed && (b.bodyEnded ==> b'.bodyEnded)
      && (b'.ring.ended && !b.ring.ended ==> s.node.hand == Held(ReqEnd, true) && !b.bodyEnded && !b.ring.closed)
  {
    HandledBody(s, allow);
  }

  lemma HandleBringsNoEnd(s: Sys, allow: bool)
    requires !s.node.hand.Nothing? && EndUnderWay(Handle(s, allow))
    ensures EndUnderWay(s)
  {
    HandledRest(s, allow);
    HandledHand(s, allow);
    var s' := Handle(s, allow);
    var i :| 0 <= i < |Inbox(s')| && Inbox(s')[i].ReqEnd?;
    if s'.node.hand.Nothing? {
      HandSplits(s);
      assert Inbox(s)[i + 1] == s.up[i];
    } else {
      assert Inbox(s') == Inbox(s);
    }
  }

  lemma HandleMakesNoEnd(s: Sys, allow: bool)
    requires Can(s, NodeHandle(allow)) && Completable(Handle(s, allow))
    ensures Completable(s)
  {
    HandledRest(s, allow);
    HandleIsLocal(s, allow);
    if EndUnderWay(Handle(s, allow)) {
      HandleBringsNoEnd(s, allow);
    }
  }

  lemma InnerLosesForGood(s: Sys, inner: BodyLifecycle.Step)
    requires Sound(s) && Can(s, NodeBody(inner)) && Completable(Do(s, NodeBody(inner)))
    ensures Completable(s)
  {
    var b, b' := s.node.body, BodyLifecycle.Do(s.node.body, inner);
    InternalIsUnaccepting(s.node, inner);
    BodyLifecycle.StepLosesNothing(b, inner);
    assert Inbox(Do(s, NodeBody(inner))) == Inbox(s);
    if b.owner == BodyLifecycle.Closer && b'.owner != BodyLifecycle.Closer {
      assert b'.dropped == Unread(b.ring.current) + b.dropped;
    }
  }

  /** No step makes up for what was lost. */
  lemma StepMakesNoEnd(s: Sys, step: Step)
    requires Sound(s) && Can(s, step) && Completable(Do(s, step))
    ensures Completable(s)
  {
    match step
    case PageCancel => QuittingMakesNoEnd(s, step);
    case PageAbandon => QuittingMakesNoEnd(s, step);
    case NodeLookup => LookupMakesNoEnd(s);
    case NodeHandle(allow) => HandleMakesNoEnd(s, allow);
    case NodeBody(inner) => InnerLosesForGood(s, inner);
    case NodeGreet => assert Inbox(Do(s, step)) == Inbox(s);
    case NodeRemove(_) => assert Inbox(Do(s, step)) == Inbox(s);
    case NodeTimeout => assert Inbox(Do(s, step)) == Inbox(s);
    case NodeForget => assert Inbox(Do(s, step)) == Inbox(s);
    case _ => PageMakesNoEnd(s, step);
  }

  lemma {:induction false} CompletesOnlyIf(s: Sys, steps: seq<Step>)
    requires Sound(s) && CanAll(false, s, steps) && Complete(DoAll(false, s, steps))
    ensures Completable(s)
    decreases |steps|
  {
    if steps == [] {
      CompleteIsCompletable(s);
    } else {
      StepKeepsSound(s, steps[0]);
      CompletesOnlyIf(Do(s, steps[0]), steps[1..]);
      StepMakesNoEnd(s, steps[0]);
    }
  }

  // ---------------------------------------------------------------------------
  // What can complete does, when everyone works
  // ---------------------------------------------------------------------------

  /** What the consumer of a body does next. */
  function Consume(b: BodyLifecycle.Body): BodyLifecycle.Step {
    match b.owner
    case Closer => BodyLifecycle.CloseClear
    case Nobody => BodyLifecycle.Lock
    case Reporting => BodyLifecycle.Report
    case AtEof => BodyLifecycle.EofRelease
    case Consumer =>
      match b.ring.current
      case NoChunk => if b.ring.queue != [] then BodyLifecycle.Take else BodyLifecycle.SeeEof
      case Chunk(data, at) => if at < |data| then BodyLifecycle.Copy(|data| - at) else BodyLifecycle.Finish
  }

  /** What someone does next: the node works off its inbox, credit travels to the page, the page sends what it may, and
      the handler reads when that is all that is left to do. */
  function Work(s: Sys): Step {
    if s.node.body.ring.ended then NodeBody(Consume(s.node.body))
    else if !s.node.hand.Nothing? then NodeHandle(true)
    else if s.up != [] then NodeLookup
    else if !s.node.greeted then NodeGreet
    else if s.down != [] then PageGrant
    else
      match s.sender.phase
      case Taken => PageRead
      case Ready(_) => PageSend
      case Ending => PageEnd
      case _ => if s.sender.credits > 0 then PageTake else NodeBody(Consume(s.node.body))
  }

  function OwnerWork(owner: BodyLifecycle.Owner): nat {
    match owner
    case AtEof => 0
    case Consumer => 1
    case Nobody => 2
    case Reporting => 3
    case Closer => 3
  }

  function BodyWork(b: BodyLifecycle.Body): nat {
    var c := b.ring.current;
    5 * |b.ring.queue| + (if c.NoChunk? then 0 else if c.at < |c.data| then 4 else 3)
    + (if b.drained then 0 else 3) + OwnerWork(b.owner)
  }

  function SenderWork(p: Sender): nat {
    30 * |p.rest|
    + match p.phase case Idle => 40 case Taken => 39 case Ready(_) => 61 case Ending => 30 case Finished => 0
  }

  /** A bound on the work left. */
  function WorkLeft(s: Sys): nat {
    BodyWork(s.node.body) + SenderWork(s.sender) + 20 * |s.up| + (if s.node.hand.Nothing? then 0 else 19) + |s.down|
    + if s.node.greeted then 0 else 2
  }

  /** An ended body that has been released has been read to its end. */
  lemma ReleasedIsComplete(s: Sys)
    requires Sound(s) && Completable(s) && s.node.body.ring.ended && s.node.body.drained
    ensures Complete(s)
  {
    var b := s.node.body;
    assert Rest(b.ring) == [];
    assert b.delivered + [] + [] == b.delivered;
  }

  /** The consumer's step is possible while something is left to read, or the end to see. */
  lemma ConsumerWorks(b: BodyLifecycle.Body)
    requires BodyLifecycle.BodyInv(b) && !b.drained
    requires b.ring.ended || (!b.ring.closed && (Retained(b.ring) > 0 || b.owner == BodyLifecycle.Reporting))
    ensures BodyLifecycle.Can(b, Consume(b))
    ensures BodyWork(BodyLifecycle.Do(b, Consume(b))) + (if b.owner == BodyLifecycle.Reporting then 2 else 1)
            <= BodyWork(b)
  {
  }

  lemma ConsumerLosesNothing(b: BodyLifecycle.Body)
    requires BodyLifecycle.BodyInv(b) && BodyLifecycle.Can(b, Consume(b))
    requires b.dropped == [] && (b.owner == BodyLifecycle.Closer ==> Unread(b.ring.current) == [])
    ensures var b' := BodyLifecycle.Do(b, Consume(b));
      && b'.dropped == [] && (b'.owner == BodyLifecycle.Closer ==> Unread(b'.ring.current) == [])
      && b'.ring.ended == b.ring.ended && b'.ring.closed == b.ring.closed && b'.bodyEnded == b.bodyEnded
  {
  }

  lemma ReadingWorks(s: Sys)
    requires Sound(s) && Completable(s) && Work(s) == NodeBody(Consume(s.node.body))
    requires BodyLifecycle.Can(s.node.body, Consume(s.node.body))
    requires BodyWork(BodyLifecycle.Do(s.node.body, Consume(s.node.body)))
             + (if s.node.body.owner == BodyLifecycle.Reporting then 2 else 1) <= BodyWork(s.node.body)
    ensures Can(s, Work(s)) && Completable(Do(s, Work(s))) && WorkLeft(Do(s, Work(s))) < WorkLeft(s)
  {
    ConsumerLosesNothing(s.node.body);
    assert Inbox(Do(s, Work(s))) == Inbox(s);
  }

  /** A page that has run out of credit, with nothing in flight, is waiting for the handler to read. */
  lemma BlockedPageHasReader(s: Sys)
    requires Sound(s) && Completable(s) && !s.node.body.ring.ended
    requires s.node.hand.Nothing? && s.up == [] && s.node.greeted && s.down == [] && s.sender.credits == 0
    ensures s.sender.open
    ensures s.sender.phase.Idle? ==> Retained(s.node.body.ring) > 0 || s.node.body.owner == BodyLifecycle.Reporting
  {
    assert Inbox(s) == [];
    if s.sender.phase.Idle? {
      BodyLifecycle.BlockedUploadIsBackedByFrames(s.node.body);
    }
  }

  /** The message in hand is a frame or the end, and is for a request that is there. */
  lemma HandIsWelcome(s: Sys)
    requires Sound(s) && Completable(s) && !s.node.body.ring.ended && !s.node.hand.Nothing?
    ensures s.node.hand.Held? && s.node.hand.found && !s.node.hand.msg.CancelMsg?
  {
    HandSplits(s);
  }

  lemma FrameWorks(s: Sys, payload: Bytes)
    requires Sound(s) && Completable(s) && !s.node.body.ring.ended && s.node.hand == Held(ReqBody(payload), true)
    ensures Completable(Handle(s, true)) && WorkLeft(Handle(s, true)) < WorkLeft(s)
  {
    OnlyTooLargeIsRejectedOutright(s, payload);
    assert BodyLifecycle.Offer(s.node.body, payload).Accepted?;
    if EndUnderWay(s) {
      FrameLeavesEnd(s, Handle(s, true));
    }
  }

  lemma FrameLeavesEnd(s: Sys, s': Sys)
    requires s.node.hand.Held? && s.node.hand.msg.ReqBody? && s'.node.hand.Nothing? && s'.up == s.up && EndUnderWay(s)
    ensures EndUnderWay(s')
  {
    HandSplits(s);
    var i :| 0 <= i < |Inbox(s)| && Inbox(s)[i].ReqEnd?;
    assert Inbox(s')[i - 1].ReqEnd?;
  }

  /** The message in hand is taken in. */
  lemma HandlingWorks(s: Sys)
    requires Sound(s) && Completable(s) && !s.node.body.ring.ended && !s.node.hand.Nothing?
    ensures Can(s, NodeHandle(true)) && Completable(Handle(s, true)) && WorkLeft(Handle(s, true)) < WorkLeft(s)
  {
    HandIsWelcome(s);
    if s.node.hand.msg.ReqBody? {
      FrameWorks(s, s.node.hand.msg.payload);
    }
  }

  lemma LookupWorks(s: Sys)
    requires Sound(s) && Completable(s) && !s.node.body.ring.ended && s.node.hand.Nothing? && s.up != []
    ensures Completable(Do(s, NodeLookup)) && WorkLeft(Do(s, NodeLookup)) < WorkLeft(s)
  {
    assert Inbox(Do(s, NodeLookup)) == Inbox(s);
  }

  lemma CreditWorks(s: Sys, step: Step)
    requires Sound(s) && Completable(s) && !s.node.body.ring.ended
    requires Can(s, step) && (step.NodeGreet? || step.PageGrant?)
    ensures Completable(Do(s, step)) && WorkLeft(Do(s, step)) < WorkLeft(s)
  {
    StepKeepsInv(s, step);
    assert Inbox(Do(s, step)) == Inbox(s);
  }

  lemma SendingWorks(s: Sys, step: Step)
    requires Sound(s) && Completable(s) && !s.node.body.ring.ended && Can(s, step) && s.node.hand.Nothing?
    requires step.PageTake? || step.PageRead? || step.PageSend? || step.PageEnd?
    ensures Completable(Do(s, step)) && WorkLeft(Do(s, step)) < WorkLeft(s)
  {
    var s' := Do(s, step);
    if step.PageEnd? {
      assert Inbox(s')[|s.up|].ReqEnd?;
    }
  }

  /** There is something to do, and it brings the upload closer to its end. */
  ghost predicate Advances(s: Sys, step: Step) {
    && Can(s, step) && Working(step) && Completable(Do(s, step)) && WorkLeft(Do(s, step)) < WorkLeft(s)
  }

  lemma EndedBodyIsRead(s: Sys)
    requires Sound(s) && Completable(s) && s.node.body.ring.ended && !s.node.body.drained
    ensures Advances(s, Work(s))
  {
    ConsumerWorks(s.node.body);
    ReadingWorks(s);
  }

  /** Nothing is in flight, so it is the page's turn or the handler's. */
  lemma QuietLaneWorks(s: Sys)
    requires Sound(s) && Completable(s) && !s.node.body.ring.ended
    requires s.node.hand.Nothing? && s.up == [] && s.node.greeted && s.down == []
    ensures Advances(s, Work(s))
  {
    assert Inbox(s) == [];
    if s.sender.phase.Idle? && s.sender.credits == 0 {
      BlockedPageHasReader(s);
      ConsumerWorks(s.node.body);
      ReadingWorks(s);
    } else {
      SendingWorks(s, Work(s));
    }
  }

  lemma WorkAdvances(s: Sys)
    requires Sound(s) && Completable(s) && !Complete(s)
    ensures Advances(s, Work(s))
  {
    if s.node.body.ring.ended {
      if s.node.body.drained {
        ReleasedIsComplete(s);
      }
      EndedBodyIsRead(s);
    } else if !s.node.hand.Nothing? {
      HandlingWorks(s);
    } else if s.up != [] {
      LookupWorks(s);
    } else if !s.node.greeted || s.down != [] {
      CreditWorks(s, Work(s));
    } else {
      QuietLaneWorks(s);
    }
  }

  lemma {:induction false} WorkCompletes(s: Sys) returns (s': Sys)
    requires Sound(s) && Completable(s)
    ensures Leads(true, s, s') && Complete(s') && s'.source == s.source
    decreases WorkLeft(s)
  {
    if Complete(s) {
      s' := s;
      LeadsToSelf(true, s);
    } else {
      WorkAdvances(s);
      StepKeepsSound(s, Work(s));
      s' := WorkCompletes(Do(s, Work(s)));
      LeadsFirst(true, s, Work(s), s');
    }
  }

  // ---------------------------------------------------------------------------
  // Results
  // ---------------------------------------------------------------------------

  /** From any state that a run comes to, the work of page, lane and handler can bring the whole source to the handler
      and its end of file, if the upload is still completable; if it is not, no steps whatever can. */
  lemma CompletesExactlyWhenCompletable(source: Bytes, states: seq<Sys>, steps: seq<Step>, k: nat)
    requires IsRun(source, states, steps) && k < |states|
    ensures Completable(states[k]) ==> exists s' :: Leads(true, states[k], s') && Complete(s') && s'.source == source
    ensures (exists s' :: Leads(false, states[k], s') && Complete(s')) ==> Completable(states[k])
  {
    RunSound(source, states, steps, k);
    var s := states[k];
    if Completable(s) {
      var s' := WorkCompletes(s);
    }
    if exists s' :: Leads(false, s, s') && Complete(s') {
      var s' :| Leads(false, s, s') && Complete(s');
      var more :| CanAll(false, s, more) && DoAll(false, s, more) == s';
      CompletesOnlyIf(s, more);
    }
  }

  /** In particular from every state of a live upload that neither side has given up, closed or timed out. */
  lemma LiveUploadCompletes(source: Bytes, states: seq<Sys>, steps: seq<Step>, k: nat) returns (s': Sys)
    requires IsRun(source, states, steps) && k < |states| && |source| <= 16 * 1024 * 1024
    requires states[k].node.live && states[k].sender.open
    requires !states[k].node.body.bodyEnded && !states[k].node.body.ring.closed
    ensures Leads(true, states[k], s') && s'.node.body.delivered == source && Complete(s')
  {
    RunSound(source, states, steps, k);
    s' := WorkCompletes(states[k]);
  }

  ghost predicate CanComplete(source: Bytes) {
    exists s :: Leads(false, Init(source), s) && Complete(s)
  }

  /** A source can be uploaded to its end exactly when it is no longer than 16 MiB. */
  lemma UploadCompletesExactlyWhen(source: Bytes)
    ensures CanComplete(source) <==> |source| <= 16 * 1024 * 1024
  {
    var states: seq<Sys>, steps: seq<Step> := [Init(source)], [];
    assert IsRun(source, states, steps);
    CompletesExactlyWhenCompletable(source, states, steps, 0);
    if |source| <= 16 * 1024 * 1024 {
      var s := LiveUploadCompletes(source, states, steps, 0);
      var work :| CanAll(true, Init(source), work) && DoAll(true, Init(source), work) == s;
      AnySteps(Init(source), work);
    }
  }

  lemma {:induction false} AnySteps(s: Sys, steps: seq<Step>)
    requires CanAll(true, s, steps)
    ensures CanAll(false, s, steps) && DoAll(false, s, steps) == DoAll(true, s, steps)
    decreases |steps|
  {
    if steps != [] {
      AnySteps(Do(s, steps[0]), steps[1..]);
    }
  }
}
