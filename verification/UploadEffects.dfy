/** What the node does with each frame of an upload, over every run.

The invariant of `Upload` says what never happens. The laws here say what does: a cancel removes the
request, an end ends its body, and each body frame is accepted, absorbed or charged for.
 */
module UploadEffects {
  import opened ByteStrings
  import opened Limits
  import opened RequestBody
  import BodyLifecycle
  import opened Upload

  const MAX_BODY := BodyLifecycle.MAX_REQUEST_BODY_BYTES

  // ---------------------------------------------------------------------------
  // Removal
  // ---------------------------------------------------------------------------

  lemma HandleKeepsGone(s: Sys, allow: bool)
    requires !s.node.hand.Nothing? && !s.node.live
    ensures !Handle(s, allow).node.live
  {
  }

  /** A request that has left the table does not come back. */
  lemma StepKeepsGone(s: Sys, step: Step)
    requires Can(s, step) && !s.node.live
    ensures !Do(s, step).node.live
  {
    match step
    case NodeHandle(allow) => HandleKeepsGone(s, allow);
    case NodeBody(inner) => assert Do(s, step).node.live == s.node.live;
    case _ =>
  }

  lemma {:induction false} GoneForGood(source: Bytes, states: seq<Sys>, steps: seq<Step>, i: nat, j: nat)
    requires IsRun(source, states, steps) && i <= j < |states| && !states[i].node.live
    ensures !states[j].node.live
    decreases j
  {
    if i < j {
      GoneForGood(source, states, steps, i, j - 1);
      assert Linked(states, steps, j - 1);
      StepKeepsGone(states[j - 1], steps[j - 1]);
    }
  }

  /** From a removal on, every message of the request finds it gone. */
  lemma LaterMessagesFindNothing(source: Bytes, states: seq<Sys>, steps: seq<Step>, i: nat, j: nat)
    requires IsRun(source, states, steps) && i <= j < |steps| && !states[i].node.live && steps[j] == NodeLookup
    ensures states[j + 1].node.hand.Held? && !states[j + 1].node.hand.found
  {
    GoneForGood(source, states, steps, i, j);
    assert Linked(states, steps, j);
  }

  /** Handling a cancel takes the request out of the table. An unfinished body leaves room for exactly sixteen frames;
      a request that is already gone loses what room it had left. */
  lemma CancelRemoves(source: Bytes, states: seq<Sys>, steps: seq<Step>, k: nat)
    requires IsRun(source, states, steps) && k < |steps| && steps[k].NodeHandle?
    requires states[k].node.hand.Held? && states[k].node.hand.msg.CancelMsg?
    ensures var n, n' := states[k].node, states[k + 1].node;
      && !n'.live && n'.hand.Nothing? && n'.violations == n.violations && n'.body == n.body
      && (n.live && !n.body.bodyEnded ==> n'.tombstone.Tombstone? && n'.tombstone.remaining == 16)
      && (n.hand.found && (!n.live || !steps[k].allow) ==> n'.tombstone == n.tombstone)
      && (!n.hand.found ==> n'.tombstone.NoTombstone?)
  {
    RunInv(source, states, steps, k);
    assert Linked(states, steps, k);
  }

  /** A message whose lookup failed belongs to a request that has left the table. */
  predicate LookedUp(n: Node) { n.hand.Held? && !n.hand.found ==> !n.live }

  predicate HasCancel(msgs: seq<UpMsg>) {
    exists i :: 0 <= i < |msgs| && msgs[i].CancelMsg?
  }

  lemma PageKeepsInbox(s: Sys, step: Step)
    requires Can(s, step) && !step.NodeLookup? && !step.NodeHandle?
    ensures Inbox(s) <= Inbox(Do(s, step))
  {
  }

  lemma LookupKeepsInbox(s: Sys)
    requires Can(s, NodeLookup)
    ensures Inbox(Do(s, NodeLookup)) == Inbox(s)
  {
    assert s.up == [s.up[0]] + s.up[1..];
  }

  /** Only a frame that lost a race stays in hand. */
  lemma HandleEmptiesHand(s: Sys, allow: bool)
    requires !s.node.hand.Nothing?
    ensures Handle(s, allow).up == s.up
    ensures var h, h' := s.node.hand, Handle(s, allow).node.hand;
      h'.Nothing? || (h.Held? && h.msg.ReqBody? && h' == Raced(h.msg.payload, h'.closed))
  {
  }

  /** A handled message is the first of the inbox. */
  lemma HandleTakesFirst(s: Sys, allow: bool)
    requires !s.node.hand.Nothing?
    ensures Inbox(Handle(s, allow)) == Inbox(s)[1..] || (Inbox(s)[0].ReqBody? && Inbox(Handle(s, allow)) == Inbox(s))
  {
    HandleEmptiesHand(s, allow);
    assert Inbox(s)[1..] == s.up;
  }

  lemma HandledCancel(s: Sys, allow: bool)
    requires !s.node.hand.Nothing? && Inbox(s)[0].CancelMsg? && LookedUp(s.node)
    ensures !Handle(s, allow).node.live
  {
  }

  /** A cancel on its way to the node is still on its way, or has done its work. */
  lemma StepKeepsCancelling(s: Sys, step: Step)
    requires LookedUp(s.node) && Can(s, step) && (HasCancel(Inbox(s)) || !s.node.live)
    ensures HasCancel(Inbox(Do(s, step))) || !Do(s, step).node.live
  {
    if !s.node.live {
      StepKeepsGone(s, step);
    } else {
      var i :| 0 <= i < |Inbox(s)| && Inbox(s)[i].CancelMsg?;
      match step
      case NodeLookup => LookupKeepsInbox(s);
      case NodeHandle(allow) =>
        HandleTakesFirst(s, allow);
        if i == 0 {
          HandledCancel(s, allow);
        } else {
          assert Inbox(s)[1..][i - 1].CancelMsg?;
        }
      case _ =>
        PageKeepsInbox(s, step);
        assert Inbox(Do(s, step))[i].CancelMsg?;
    }
  }

  lemma PageCancelSends(s: Sys)
    ensures HasCancel(Inbox(Do(s, PageCancel)))
  {
    var after := Do(s, PageCancel);
    assert Inbox(after)[|Inbox(after)| - 1] == CancelMsg;
  }

  lemma {:induction false} CancelIsUnderWay(source: Bytes, states: seq<Sys>, steps: seq<Step>, i: nat, j: nat)
    requires IsRun(source, states, steps) && i < j < |states| && steps[i] == PageCancel
    ensures HasCancel(Inbox(states[j])) || !states[j].node.live
    decreases j
  {
    assert Linked(states, steps, j - 1);
    if j == i + 1 {
      PageCancelSends(states[i]);
    } else {
      CancelIsUnderWay(source, states, steps, i, j - 1);
      RunInv(source, states, steps, j - 1);
      StepKeepsCancelling(states[j - 1], steps[j - 1]);
    }
  }

  /** Once the node has worked through its lane, a request the page cancelled is gone. */
  lemma CancelReachesTheNode(source: Bytes, states: seq<Sys>, steps: seq<Step>, i: nat, j: nat)
    requires IsRun(source, states, steps) && i < j < |states| && steps[i] == PageCancel && Inbox(states[j]) == []
    ensures !states[j].node.live
  {
    CancelIsUnderWay(source, states, steps, i, j);
  }

  // ---------------------------------------------------------------------------
  // The end of the body
  // ---------------------------------------------------------------------------

  /** Handling the end of a request in the table ends its body, and its ring unless that was closed; for one that is
      gone it uses up the tombstone, or is charged if there is none. */
  lemma EndTakesEffect(source: Bytes, states: seq<Sys>, steps: seq<Step>, k: nat)
    requires IsRun(source, states, steps) && k < |steps| && steps[k].NodeHandle?
    requires states[k].node.hand.Held? && states[k].node.hand.msg.ReqEnd?
    ensures var n, n' := states[k].node, states[k + 1].node;
      && n'.hand.Nothing? && n'.live == n.live
      && (n.hand.found ==> n'.body.bodyEnded && n'.violations == n.violations && n'.tombstone == n.tombstone)
      && (n.hand.found && !n.body.bodyEnded && !n.body.ring.closed ==> n'.body.ring.ended)
      && (!n.hand.found ==> n'.body == n.body && n'.tombstone.NoTombstone?)
      && (!n.hand.found ==> n'.violations == n.violations + if n.tombstone.Tombstone? then 0 else 1)
  {
    assert Linked(states, steps, k);
  }

  predicate HasEnd(msgs: seq<UpMsg>) {
    exists i :: 0 <= i < |msgs| && msgs[i].ReqEnd?
  }

  lemma HandleKeepsEnded(s: Sys, allow: bool)
    requires !s.node.hand.Nothing? && s.node.body.bodyEnded
    ensures Handle(s, allow).node.body.bodyEnded
  {
  }

  lemma BodyKeepsEnded(b: BodyLifecycle.Body, step: BodyLifecycle.Step)
    requires BodyLifecycle.Can(b, step) && b.bodyEnded
    ensures BodyLifecycle.Do(b, step).bodyEnded
  {
  }

  lemma StepKeepsEnded(s: Sys, step: Step)
    requires Can(s, step) && s.node.body.bodyEnded
    ensures Do(s, step).node.body.bodyEnded
  {
    match step
    case NodeHandle(allow) => HandleKeepsEnded(s, allow);
    case NodeBody(inner) => BodyKeepsEnded(s.node.body, inner);
    case _ =>
  }

  lemma HandledEnd(s: Sys, allow: bool)
    requires !s.node.hand.Nothing? && Inbox(s)[0].ReqEnd? && LookedUp(s.node)
    ensures !Handle(s, allow).node.live || Handle(s, allow).node.body.bodyEnded
  {
  }

  lemma StepKeepsEnding(s: Sys, step: Step)
    requires LookedUp(s.node) && Can(s, step) && (HasEnd(Inbox(s)) || !s.node.live || s.node.body.bodyEnded)
    ensures HasEnd(Inbox(Do(s, step))) || !Do(s, step).node.live || Do(s, step).node.body.bodyEnded
  {
    if !s.node.live {
      StepKeepsGone(s, step);
    } else if s.node.body.bodyEnded {
      StepKeepsEnded(s, step);
    } else {
      var i :| 0 <= i < |Inbox(s)| && Inbox(s)[i].ReqEnd?;
      match step
      case NodeLookup => LookupKeepsInbox(s);
      case NodeHandle(allow) =>
        HandleTakesFirst(s, allow);
        if i == 0 {
          HandledEnd(s, allow);
        } else {
          assert Inbox(s)[1..][i - 1].ReqEnd?;
        }
      case _ =>
        PageKeepsInbox(s, step);
        assert Inbox(Do(s, step))[i].ReqEnd?;
    }
  }

  lemma PageEndSends(s: Sys)
    requires Can(s, PageEnd)
    ensures HasEnd(Inbox(Do(s, PageEnd)))
  {
    var after := Do(s, PageEnd);
    assert Inbox(after)[|Inbox(after)| - 1] == ReqEnd;
  }

  lemma {:induction false} EndIsUnderWay(source: Bytes, states: seq<Sys>, steps: seq<Step>, i: nat, j: nat)
    requires IsRun(source, states, steps) && i < j < |states| && steps[i] == PageEnd
    ensures HasEnd(Inbox(states[j])) || !states[j].node.live || states[j].node.body.bodyEnded
    decreases j
  {
    assert Linked(states, steps, j - 1);
    if j == i + 1 {
      PageEndSends(states[i]);
    } else {
      EndIsUnderWay(source, states, steps, i, j - 1);
      RunInv(source, states, steps, j - 1);
      StepKeepsEnding(states[j - 1], steps[j - 1]);
    }
  }

  /** Once the node has worked through its lane, an upload the page has finished is ended or gone. */
  lemma EndReachesTheNode(source: Bytes, states: seq<Sys>, steps: seq<Step>, i: nat, j: nat)
    requires IsRun(source, states, steps) && i < j < |states| && steps[i] == PageEnd && Inbox(states[j]) == []
    ensures !states[j].node.live || states[j].node.body.bodyEnded
  {
    EndIsUnderWay(source, states, steps, i, j);
  }

  // ---------------------------------------------------------------------------
  // Body frames
  // ---------------------------------------------------------------------------

  /** A frame of a request found in the table is accepted exactly when the body is open and the frame fits; then its
      bytes are queued last and one credit is spent. One that does not fit removes the request. Any other has lost
      a race against the end or the close of the body and is put aside. */
  lemma FrameIsAcceptedExactlyWhen(source: Bytes, states: seq<Sys>, steps: seq<Step>, k: nat)
    requires IsRun(source, states, steps) && k < |steps| && steps[k].NodeHandle?
    requires states[k].node.hand.Held? && states[k].node.hand.msg.ReqBody? && states[k].node.hand.found
    ensures var n, n', payload := states[k].node, states[k + 1].node, states[k].node.hand.msg.payload;
      var isOpen := !n.body.bodyEnded && !n.body.ring.closed;
      var fits := |n.body.accepted| + |payload| <= MAX_BODY;
      && (isOpen && fits ==>
            && n'.body.ring.queue == n.body.ring.queue + [payload] && n'.body.available == n.body.available - 1
            && n'.body.accepted == n.body.accepted + payload && n'.live == n.live && n'.hand.Nothing?)
      && (!(isOpen && fits) ==> n'.body == n.body)
      && (!n.body.bodyEnded && !fits ==> !n'.live && n'.hand.Nothing? && n'.violations == n.violations + 1)
      && (!isOpen && (n.body.bodyEnded || fits) ==>
            n'.hand.Raced? && n'.live == n.live && n'.violations == n.violations && n'.tombstone == n.tombstone)
  {
    RunInv(source, states, steps, k);
    assert Linked(states, steps, k);
    var s := states[k];
    OutstandingWithinWindow(s);
    HandSplits(s);
  }

  /** A frame that is not for the body any more costs the tombstone one frame, or is charged. */
  lemma LateFrameCostsOne(source: Bytes, states: seq<Sys>, steps: seq<Step>, k: nat)
    requires IsRun(source, states, steps) && k < |steps| && steps[k].NodeHandle?
    requires var h := states[k].node.hand; h.Raced? || (h.Held? && h.msg.ReqBody? && !h.found)
    ensures var n, n' := states[k].node, states[k + 1].node;
      var room := n.tombstone.Tombstone? && n.tombstone.remaining > 0;
      && n'.hand.Nothing? && n'.body == n.body
      && n'.violations == n.violations + (if room then 0 else 1)
      && (room ==> n'.tombstone.Tombstone? && n'.tombstone.remaining == n.tombstone.remaining - 1 && n'.live == n.live)
      && (!room && n.hand.Raced? ==> !n'.live)
      && (!room && n.hand.Held? ==> n'.tombstone == n.tombstone && n'.live == n.live)
  {
    assert Linked(states, steps, k);
  }

  /** The step forgets no tombstone and handles no end and no cancel. */
  predicate OnlyFrames(s: Sys, step: Step) {
    && !step.NodeForget?
    && (step.NodeHandle? && s.node.hand.Held? ==> s.node.hand.msg.ReqBody?)
  }

  lemma HandleCountsTrailing(s: Sys, allow: bool)
    requires Inv(s) && |s.source| <= MAX_BODY && !s.node.live && s.node.tombstone.Tombstone?
    requires !s.node.hand.Nothing? && OnlyFrames(s, NodeHandle(allow)) && s.node.tombstone.remaining > 0
    ensures Handle(s, allow).node.tombstone.Tombstone? && Handle(s, allow).node.violations == s.node.violations
    ensures Handle(s, allow).node.tombstone.remaining + Handle(s, allow).refused
            == s.node.tombstone.remaining + s.refused
  {
    if s.node.hand.Held? && s.node.hand.found {
      OnlyTooLargeIsRejectedOutright(s, s.node.hand.msg.payload);
    }
  }

  lemma OthersLeaveTrailing(s: Sys, step: Step)
    requires Can(s, step) && !s.node.live && !step.NodeForget? && !step.NodeHandle?
    ensures Do(s, step).node.tombstone == s.node.tombstone && Do(s, step).refused == s.refused
    ensures Do(s, step).node.violations == s.node.violations
  {
  }

  lemma StepCountsTrailing(s: Sys, step: Step, before: int)
    requires Inv(s) && |s.source| <= MAX_BODY && !s.node.live && Can(s, step) && OnlyFrames(s, step)
    requires 0 <= before && s.node.tombstone == Tombstone(16 - (s.refused - before))
    ensures Do(s, step).node.tombstone == Tombstone(16 - (Do(s, step).refused - before))
    ensures Do(s, step).node.violations == s.node.violations
  {
    if step.NodeHandle? {
      OutstandingWithinWindow(s);
      HandSplits(s);
      HandleCountsTrailing(s, step.allow);
    } else {
      OthersLeaveTrailing(s, step);
    }
  }

  lemma RefusedWithinWindow(source: Bytes, states: seq<Sys>, steps: seq<Step>, i: nat, j: nat)
    requires IsRun(source, states, steps) && i < |states| && j < |states|
    ensures states[j].refused - states[i].refused <= 16
  {
    RunInv(source, states, steps, i);
    RunInv(source, states, steps, j);
    OutstandingWithinWindow(states[j]);
  }

  /** From a removal on, each frame that comes too late uses one of the sixteen, and none is charged. */
  lemma {:induction false} TrailingFramesAreCounted(
      source: Bytes, states: seq<Sys>, steps: seq<Step>, i: nat, j: nat)
    requires IsRun(source, states, steps) && |source| <= MAX_BODY && i <= j < |states|
    requires !states[i].node.live && states[i].node.tombstone == Tombstone(16)
    requires forall k :: i <= k < j ==> OnlyFrames(states[k], steps[k])
    ensures states[j].node.tombstone == Tombstone(16 - (states[j].refused - states[i].refused))
    ensures states[j].refused - states[i].refused <= 16
    ensures states[j].node.violations == states[i].node.violations
    decreases j
  {
    if i < j {
      TrailingFramesAreCounted(source, states, steps, i, j - 1);
      GoneForGood(source, states, steps, i, j - 1);
      RunInv(source, states, steps, j - 1);
      assert Linked(states, steps, j - 1);
      StepCountsTrailing(states[j - 1], steps[j - 1], states[i].refused);
    }
    RefusedWithinWindow(source, states, steps, i, j);
  }

  // ---------------------------------------------------------------------------
  // The page stops
  // ---------------------------------------------------------------------------

  predicate Stops(step: Step) { step.PageEnd? || step.PageCancel? || step.PageAbandon? }

  lemma StepKeepsFinished(s: Sys, step: Step)
    requires Can(s, step) && s.sender.phase.Finished? && !s.sender.open
    ensures Do(s, step).sender == s.sender && !step.PageSend? && !step.PageEnd?
  {
  }

  lemma StoppingFinishes(s: Sys, step: Step)
    requires Can(s, step) && Stops(step)
    ensures Do(s, step).sender.phase.Finished? && !Do(s, step).sender.open
  {
  }

  /** A page that has ended, cancelled or abandoned its upload sends no frame and no end after that, and takes no
      credit. */
  lemma {:induction false} StoppedPageIsSilent(
      source: Bytes, states: seq<Sys>, steps: seq<Step>, i: nat, j: nat)
    requires IsRun(source, states, steps) && i < j < |states| && Stops(steps[i])
    ensures states[j].sender == states[i + 1].sender && states[j].sender.phase.Finished? && !states[j].sender.open
    ensures j < |steps| ==> !steps[j].PageSend? && !steps[j].PageEnd? && !steps[j].PageTake?
    decreases j
  {
    assert Linked(states, steps, j - 1);
    if j == i + 1 {
      StoppingFinishes(states[i], steps[i]);
    } else {
      StoppedPageIsSilent(source, states, steps, i, j - 1);
      StepKeepsFinished(states[j - 1], steps[j - 1]);
    }
    if j < |steps| {
      assert Linked(states, steps, j);
    }
  }

  // ---------------------------------------------------------------------------
  // Removal and timeout by the node itself
  // ---------------------------------------------------------------------------

  /** A request whose handler returns leaves the table, with room for sixteen frames if its body was unfinished. */
  lemma RemovalTakesEffect(source: Bytes, states: seq<Sys>, steps: seq<Step>, k: nat)
    requires IsRun(source, states, steps) && k < |steps| && steps[k].NodeRemove?
    ensures !states[k + 1].node.live && states[k + 1].node.body == states[k].node.body
    ensures states[k].node.live && !states[k].node.body.bodyEnded ==>
              states[k + 1].node.tombstone.Tombstone? && states[k + 1].node.tombstone.remaining == 16
    ensures !states[k].node.live || !steps[k].allow ==> states[k + 1].node.tombstone == states[k].node.tombstone
  {
    assert Linked(states, steps, k);
  }

  /** An upload that stays idle too long ends without reaching its end of file, with the same room. */
  lemma TimeoutTakesEffect(source: Bytes, states: seq<Sys>, steps: seq<Step>, k: nat)
    requires IsRun(source, states, steps) && k < |steps| && steps[k].NodeTimeout?
    ensures states[k + 1].node.body.bodyEnded && states[k + 1].node.body.ring == states[k].node.body.ring
    ensures states[k].node.live ==>
              states[k + 1].node.tombstone.Tombstone? && states[k + 1].node.tombstone.remaining == 16
    ensures states[k + 1].node.live == states[k].node.live
  {
    assert Linked(states, steps, k);
  }
}
