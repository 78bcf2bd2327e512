/** Downloads that are cut short: downstream cancels or aborts the response, or the node reports an error.

The hops are those of `ResponseHops`. On every lane a cancel comes behind all else that its sender has sent for the
request, and nothing of the request follows it. So `stage` tells where it is: posted behind the credit to the page, sent
behind the credit to the node, or arrived. An error takes the place of the end of the response.
 */
module ResponseAborts {
  import opened ByteStrings
  import opened Limits
  import opened AdaptiveWindow
  import opened ResponseHops
  import ResponseCompletes

  /** `Cancelled`: the node has dropped the request. `Late`: the cancel found the response already over. */
  datatype Stage = Running | Posted | Sent | Cancelled | Late

  /** `gone`: the worker has let go of the stream. `failing`: what ends the response is an error. `racing`: when the
      cancel arrived a sender had already looked at the request's context. */
  datatype Download = Download(net: Net, stage: Stage, gone: bool, failing: bool, racing: bool)

  datatype Act =
    | Hop(step: Step)
    | NodeError
    | WorkerCancel
    | PageCancel
    | NodeCancel(racing: bool)

  function Start(initial: int): Download {
    Download(Init(initial), Running, false, false, false)
  }

  predicate Can(d: Download, act: Act, reentrant: bool) {
    match act
    case Hop(step) =>
      && ResponseHops.Can(d.net, step, reentrant)
      && (step.WorkerPull? ==> !d.gone)
      && (step.NodeTake? && d.stage.Cancelled? ==> d.racing)
    case NodeError => d.net.node.begun && !d.net.node.removed && !d.stage.Cancelled?
    case WorkerCancel => !d.gone && !d.net.worker.closed
    case PageCancel => d.stage.Posted? && d.net.toPage == []
    case NodeCancel(_) => d.stage.Sent? && d.net.toNode == []
  }

  /** What the stream's `cancel` and `onAbort` leave behind; nobody looks at the rest of the window again. */
  function Emptied(w: Worker): Worker {
    w.(queue := [], window := w.window.(queued := 0))
  }

  /** A message from the page: one for a stream that is gone is ignored, and an error fails it. */
  function Received(d: Download, step: Step): Download
    requires step.WorkerReceive? && ResponseHops.Can(d.net, step, true)
  {
    var rest := d.net.(toWorker := d.net.toWorker[1..]);
    if d.gone then d.(net := rest)
    else if d.failing && d.net.toWorker[0].End? then
      d.(net := rest.(worker := FailWorker(rest.worker, rest.worker.window)), gone := true)
    else d.(net := ResponseHops.Do(d.net, step))
  }

  function Do(d: Download, act: Act): Download
    requires Can(d, act, true)
  {
    match act
    case Hop(step) =>
      if step.WorkerReceive? then Received(d, step)
      else d.(net := ResponseHops.Do(d.net, step), racing := d.racing && !step.NodeTake?)
    case NodeError => d.(net := ResponseHops.Do(d.net, NodeFinish), failing := true)
    case WorkerCancel =>
      d.(net := d.net.(worker := Emptied(d.net.worker)), gone := true,
         stage := if d.net.worker.ended then Running else Posted)
    case PageCancel =>
      if d.net.page.closed then d.(stage := Late)
      else d.(net := d.net.(page := d.net.page.(closed := true)), stage := Sent)
    case NodeCancel(racing) =>
      if d.net.node.removed then d.(stage := Late) else d.(stage := Cancelled, racing := racing)
  }

  ghost predicate IsRun(initial: int, reentrant: bool, states: seq<Download>, acts: seq<Act>) {
    && |states| == |acts| + 1
    && states[0] == Start(initial)
    && forall i :: 0 <= i < |acts| ==> Can(states[i], acts[i], reentrant) && states[i + 1] == Do(states[i], acts[i])
  }

  // ---------------------------------------------------------------------------
  // The invariant
  // ---------------------------------------------------------------------------

  /** Credits on their way to the node or there, which it may still turn into frames. */
  function Spendable(s: Net): int { Demand(s.toPage) + Demand(s.toNode) + s.node.available + s.node.held }

  /** The page's own view of a request that the worker has let go: its count is exact while it has an entry. */
  ghost predicate PageKeeps(s: Net) {
    && !s.page.rejected
    && Positive(s.toPage) && Positive(s.toNode) && ReqFirst(s.toPage, s.page.begun)
    && 0 <= s.node.available && 0 <= s.lostAtNode
    && (!s.page.begun ==> s.page.credit == 0)
    && (forall i :: 0 <= i < |s.toCarrier| && s.toCarrier[i].End? ==> s.node.removed)
    && (!s.page.closed ==>
          && Demand(s.toPage) + s.page.credit <= MAX_RESPONSE_CREDITS
          && s.page.credit == Demand(s.toNode) + s.node.available + s.node.held + |Frames(s.toCarrier)| + s.lostAtNode)
  }

  ghost predicate Inv(d: Download, reentrant: bool) {
    && (!d.gone ==> ResponseHops.Inv(d.net, reentrant) && d.stage.Running?)
    && (d.gone ==> PageKeeps(d.net))
    && d.net.worker.delivered <= d.net.node.sent
    && (d.net.worker.failed ==> d.failing && d.gone)
    && (d.net.worker.closed ==> !d.gone && !d.failing)
    && (d.failing && !d.gone ==> !d.net.worker.ended)
    && (d.failing ==> d.net.node.removed)
    && (d.stage.Sent? || d.stage.Cancelled? || d.stage.Late? ==> d.net.page.closed && d.net.toPage == [])
    && (d.stage.Cancelled? ==> d.net.toNode == [])
    && (d.racing ==> d.stage.Cancelled?)
    && (d.stage.Late? || (d.net.page.closed && !d.stage.Sent? && !d.stage.Cancelled?) ==> d.net.node.removed)
  }

  lemma StartInv(initial: int, reentrant: bool)
    requires SafeInitial(reentrant) <= initial <= MAX_RESPONSE_CREDITS
    ensures Inv(Start(initial), reentrant)
  {
    InitInv(initial, reentrant);
  }

  /** Letting go leaves the page with an exact count. */
  lemma LettingGo(s: Net, s': Net, reentrant: bool)
    requires ResponseHops.Inv(s, reentrant)
    requires s' == s.(worker := s'.worker, toWorker := s'.toWorker)
    ensures PageKeeps(s')
  {
    DemandNonNegative(s.toPage);
    DemandNonNegative(s.toNode);
    if !s.page.closed {
      assert s.worker.window.balance <= MAX_RESPONSE_CREDITS;
    }
  }

  lemma PageDemandKeeps(s: Net)
    requires PageKeeps(s) && ResponseHops.Can(s, PageDemand, true)
    ensures PageKeeps(ResponseHops.Do(s, PageDemand))
  {
    DemandNonNegative(s.toPage[1..]);
    DemandNonNegative(s.toNode);
    DemandConcat(s.toNode, [s.toPage[0]]);
    assert s.toNode + [] == s.toNode;
  }

  lemma PageFrameKeeps(s: Net)
    requires PageKeeps(s) && ResponseHops.Can(s, PageFrame, true)
    ensures PageKeeps(ResponseHops.Do(s, PageFrame))
  {
    DemandNonNegative(s.toNode);
  }

  lemma NodeKeeps(s: Net, step: Step)
    requires PageKeeps(s) && ResponseHops.Can(s, step, true)
    requires step.NodeDemand? || step.NodeTake? || step.NodeSend? || step.NodeSpendNothing? || step.NodeFinish?
    ensures PageKeeps(ResponseHops.Do(s, step))
  {
    DemandNonNegative(s.toPage);
    if s.toNode != [] {
      DemandNonNegative(s.toNode[1..]);
    }
    if step.NodeSend? {
      FramesConcat(s.toCarrier, [Body(step.frame)]);
    } else if step.NodeFinish? {
      FramesConcat(s.toCarrier, [End]);
    }
  }

  lemma HopKeepsPage(s: Net, step: Step)
    requires PageKeeps(s) && ResponseHops.Can(s, step, true) && !step.WorkerPull? && !step.WorkerReceive?
    ensures PageKeeps(ResponseHops.Do(s, step))
  {
    match step
    case PageDemand => PageDemandKeeps(s);
    case PageFrame => PageFrameKeeps(s);
    case _ => NodeKeeps(s, step);
  }

  lemma GoneHopKeepsInv(d: Download, step: Step, reentrant: bool)
    requires Inv(d, reentrant) && d.gone && Can(d, Hop(step), reentrant)
    ensures Inv(Do(d, Hop(step)), reentrant)
  {
    if !step.WorkerReceive? {
      HopKeepsPage(d.net, step);
      GoneHopStays(d, step);
    }
  }

  /** The hops of a download that is gone hand nothing down and ask for nothing. */
  lemma GoneHopStays(d: Download, step: Step)
    requires d.gone && Can(d, Hop(step), true)
    ensures var s, s' := d.net, Do(d, Hop(step)).net;
      && s'.worker == s.worker && s.node.sent <= s'.node.sent && |s'.toPage| <= |s.toPage|
      && (s.page.closed ==> s'.page.closed)
      && (s.toPage == [] && s.toNode == [] ==> s'.toNode == [])
      && (s.node.removed ==> s'.node.removed)
  {
  }

  lemma LiveHopKeepsInv(d: Download, step: Step, reentrant: bool)
    requires Inv(d, reentrant) && !d.gone && Can(d, Hop(step), reentrant)
    ensures Inv(Do(d, Hop(step)), reentrant)
  {
    StepKeepsInv(d.net, step, reentrant);
    if d.failing && step.WorkerReceive? && d.net.toWorker[0].End? {
      LettingGo(d.net, Do(d, Hop(step)).net, reentrant);
    } else {
      LiveHopStays(d, step, reentrant);
    }
  }

  lemma LiveHopStays(d: Download, step: Step, reentrant: bool)
    requires Inv(d, reentrant) && !d.gone && Can(d, Hop(step), reentrant)
    requires !(d.failing && step.WorkerReceive? && d.net.toWorker[0].End?)
    requires ResponseHops.Inv(ResponseHops.Do(d.net, step), reentrant)
    ensures var d' := Do(d, Hop(step));
      && d'.net == ResponseHops.Do(d.net, step) && !d'.gone && d'.stage == d.stage && d'.failing == d.failing
      && d'.net.worker.delivered <= d'.net.node.sent
      && (d.net.node.removed ==> d'.net.node.removed)
      && (!d.net.worker.ended && d.failing ==> !d'.net.worker.ended)
  {
    var s' := ResponseHops.Do(d.net, step);
    assert s'.worker.delivered + s'.worker.queue + Frames(s'.toWorker) + Frames(s'.toCarrier) == s'.node.sent;
  }

  lemma ErrorKeepsInv(d: Download, reentrant: bool)
    requires Inv(d, reentrant) && Can(d, NodeError, reentrant)
    ensures Inv(Do(d, NodeError), reentrant)
  {
    if d.gone {
      NodeKeeps(d.net, NodeFinish);
    } else {
      StepKeepsInv(d.net, NodeFinish, reentrant);
    }
  }

  lemma ActKeepsInv(d: Download, act: Act, reentrant: bool)
    requires Inv(d, reentrant) && Can(d, act, reentrant)
    ensures Inv(Do(d, act), reentrant)
  {
    match act
    case Hop(step) =>
      if d.gone {
        GoneHopKeepsInv(d, step, reentrant);
      } else {
        LiveHopKeepsInv(d, step, reentrant);
      }
    case NodeError => ErrorKeepsInv(d, reentrant);
    case WorkerCancel => LettingGo(d.net, Do(d, act).net, reentrant);
    case PageCancel =>
    case NodeCancel(_) =>
  }

  lemma RunStep(initial: int, reentrant: bool, states: seq<Download>, acts: seq<Act>, k: nat)
    requires IsRun(initial, reentrant, states, acts) && k < |acts|
    ensures Can(states[k], acts[k], reentrant) && states[k + 1] == Do(states[k], acts[k])
  {
  }

  lemma {:induction false} RunInv(initial: int, reentrant: bool, states: seq<Download>, acts: seq<Act>, k: nat)
    requires SafeInitial(reentrant) <= initial <= MAX_RESPONSE_CREDITS
    requires IsRun(initial, reentrant, states, acts) && k < |states|
    ensures Inv(states[k], reentrant)
    decreases k
  {
    if k == 0 {
      StartInv(initial, reentrant);
    } else {
      RunInv(initial, reentrant, states, acts, k - 1);
      RunStep(initial, reentrant, states, acts, k - 1);
      ActKeepsInv(states[k - 1], acts[k - 1], reentrant);
    }
  }

  // ---------------------------------------------------------------------------
  // Results over every run
  // ---------------------------------------------------------------------------

  /** Whoever cuts the download short, no hop rejects the other's traffic, the stream fails only on the node's error,
      downstream has a prefix of what the node sent, and all of it if it was told that no more will come. */
  lemma CutDownloadsAreUntroubled(initial: int, reentrant: bool, states: seq<Download>, acts: seq<Act>, k: nat)
    requires SafeInitial(reentrant) <= initial <= MAX_RESPONSE_CREDITS
    requires IsRun(initial, reentrant, states, acts) && k < |states|
    ensures var d := states[k];
      && !d.net.page.rejected && (d.net.worker.failed ==> d.failing)
      && d.net.worker.delivered <= d.net.node.sent
      && (d.net.worker.closed ==> d.net.node.removed && d.net.worker.delivered == d.net.node.sent && !d.failing)
  {
    RunInv(initial, reentrant, states, acts, k);
  }

  /** An error is not lost: once the lanes are empty the stream has failed, unless it was cancelled first. */
  lemma ErrorReachesDownstream(initial: int, reentrant: bool, states: seq<Download>, acts: seq<Act>, k: nat)
    requires SafeInitial(reentrant) <= initial <= MAX_RESPONSE_CREDITS
    requires IsRun(initial, reentrant, states, acts) && k < |states|
    requires states[k].failing && states[k].net.toCarrier == [] && states[k].net.toWorker == []
    ensures states[k].net.worker.failed || exists i :: 0 <= i < k && acts[i].WorkerCancel?
  {
    RunInv(initial, reentrant, states, acts, k);
    GoneHasACause(initial, reentrant, states, acts, k);
  }

  lemma ActLetsGo(d: Download, act: Act)
    requires Can(d, act, true) && (d.gone ==> !d.net.worker.failed || d.failing)
    ensures Do(d, act).gone ==> d.gone || act.WorkerCancel? || Do(d, act).net.worker.failed
    ensures d.gone ==> Do(d, act).gone && Do(d, act).net.worker == d.net.worker
  {
    if d.gone && act.Hop? {
      GoneHopStays(d, act.step);
    }
  }

  /** The worker lets go of a stream only because downstream cancels it or an error fails it. */
  lemma {:induction false} GoneHasACause(
      initial: int, reentrant: bool, states: seq<Download>, acts: seq<Act>, k: nat)
    requires SafeInitial(reentrant) <= initial <= MAX_RESPONSE_CREDITS
    requires IsRun(initial, reentrant, states, acts) && k < |states|
    ensures states[k].gone ==> states[k].net.worker.failed || exists i :: 0 <= i < k && acts[i].WorkerCancel?
    decreases k
  {
    if k > 0 {
      GoneHasACause(initial, reentrant, states, acts, k - 1);
      RunInv(initial, reentrant, states, acts, k - 1);
      RunStep(initial, reentrant, states, acts, k - 1);
      ActLetsGo(states[k - 1], acts[k - 1]);
    }
  }

  lemma PageDemandSpends(s: Net)
    requires Positive(s.toPage) && s.toPage != []
    ensures Spendable(ResponseHops.Do(s, PageDemand)) <= Spendable(s)
    ensures ResponseHops.Do(s, PageDemand).node == s.node
  {
    DemandConcat(s.toNode, [s.toPage[0]]);
    assert s.toNode + [] == s.toNode;
  }

  lemma HopSpends(s: Net, step: Step)
    requires Positive(s.toPage) && Positive(s.toNode) && 0 <= s.node.available
    requires ResponseHops.Can(s, step, true) && !step.WorkerPull? && !step.WorkerReceive?
    ensures var s' := ResponseHops.Do(s, step);
      |s'.node.sent| + Spendable(s') <= |s.node.sent| + Spendable(s)
  {
    if step.PageDemand? {
      PageDemandSpends(s);
    }
  }

  /** What a node may still send, for a stream that is gone. */
  lemma GoneActSpends(d: Download, act: Act, reentrant: bool)
    requires Inv(d, reentrant) && d.gone && Can(d, act, reentrant)
    ensures var d' := Do(d, act);
      && d'.gone && d'.net.worker == d.net.worker
      && |d'.net.node.sent| + Spendable(d'.net) <= |d.net.node.sent| + Spendable(d.net)
  {
    ActLetsGo(d, act);
    if act.Hop? && !act.step.WorkerReceive? {
      HopSpends(d.net, act.step);
    }
  }

  lemma GoneSpends(initial: int, reentrant: bool, states: seq<Download>, acts: seq<Act>, k: nat)
    requires SafeInitial(reentrant) <= initial <= MAX_RESPONSE_CREDITS
    requires IsRun(initial, reentrant, states, acts) && k < |acts| && states[k].gone
    ensures states[k + 1].gone && states[k + 1].net.worker == states[k].net.worker
    ensures |states[k + 1].net.node.sent| + Spendable(states[k + 1].net)
         <= |states[k].net.node.sent| + Spendable(states[k].net)
  {
    RunInv(initial, reentrant, states, acts, k);
    RunStep(initial, reentrant, states, acts, k);
    GoneActSpends(states[k], acts[k], reentrant);
  }

  lemma SpendableIsBounded(s: Net, reentrant: bool)
    requires ResponseHops.Inv(s, reentrant) && !s.worker.ended
    ensures Spendable(s) <= s.worker.window.balance <= MAX_RESPONSE_CREDITS
  {
  }

  lemma {:induction false} GoneForGood(
      initial: int, reentrant: bool, states: seq<Download>, acts: seq<Act>, i: nat, j: nat)
    requires SafeInitial(reentrant) <= initial <= MAX_RESPONSE_CREDITS
    requires IsRun(initial, reentrant, states, acts) && i <= j < |states| && states[i].gone
    ensures states[j].gone && states[j].net.worker == states[i].net.worker
    ensures |states[j].net.node.sent| + Spendable(states[j].net)
         <= |states[i].net.node.sent| + Spendable(states[i].net)
    decreases j
  {
    if i < j {
      GoneForGood(initial, reentrant, states, acts, i, j - 1);
      GoneSpends(initial, reentrant, states, acts, j - 1);
    }
  }

  lemma SpendableNonNegative(s: Net)
    requires PageKeeps(s)
    ensures Spendable(s) >= 0
  {
    DemandNonNegative(s.toPage);
    DemandNonNegative(s.toNode);
  }

  /** From a cancel on nothing is handed down and nothing asked for, and the node sends at most what the window had
      outstanding: never more than 64 frames. */
  lemma CancelBoundsTheTransfer(
      initial: int, reentrant: bool, states: seq<Download>, acts: seq<Act>, i: nat, j: nat)
    requires SafeInitial(reentrant) <= initial <= MAX_RESPONSE_CREDITS
    requires IsRun(initial, reentrant, states, acts) && i < j < |states| && acts[i].WorkerCancel?
    requires !states[i].net.worker.ended
    ensures states[j].net.worker.delivered == states[i].net.worker.delivered
    ensures states[j].net.worker.queue == [] && states[j].net.worker.window.queued == 0
    ensures |states[j].net.node.sent| - |states[i].net.node.sent| <= states[i].net.worker.window.balance <= 64
  {
    RunInv(initial, reentrant, states, acts, i);
    RunInv(initial, reentrant, states, acts, j);
    RunStep(initial, reentrant, states, acts, i);
    SpendableIsBounded(states[i].net, reentrant);
    GoneForGood(initial, reentrant, states, acts, i + 1, j);
    SpendableNonNegative(states[j].net);
  }

  /** Frames that a node may still send after it has dropped the request: those of senders that hold a credit, and one
      more if a sender was past its check. */
  function Lingering(d: Download): int { d.net.node.held + if d.racing then 1 else 0 }

  lemma CancelledActLingers(d: Download, act: Act, reentrant: bool)
    requires Inv(d, reentrant) && d.stage.Cancelled? && Can(d, act, reentrant)
    ensures Do(d, act).stage.Cancelled?
    ensures |Do(d, act).net.node.sent| + Lingering(Do(d, act)) <= |d.net.node.sent| + Lingering(d)
  {
  }

  lemma CancelledLingersOnce(initial: int, reentrant: bool, states: seq<Download>, acts: seq<Act>, k: nat)
    requires SafeInitial(reentrant) <= initial <= MAX_RESPONSE_CREDITS
    requires IsRun(initial, reentrant, states, acts) && k < |acts| && states[k].stage.Cancelled?
    ensures states[k + 1].stage.Cancelled?
    ensures |states[k + 1].net.node.sent| + Lingering(states[k + 1]) <= |states[k].net.node.sent| + Lingering(states[k])
  {
    RunInv(initial, reentrant, states, acts, k);
    RunStep(initial, reentrant, states, acts, k);
    CancelledActLingers(states[k], acts[k], reentrant);
  }

  lemma {:induction false} CancelledLingers(
      initial: int, reentrant: bool, states: seq<Download>, acts: seq<Act>, i: nat, j: nat)
    requires SafeInitial(reentrant) <= initial <= MAX_RESPONSE_CREDITS
    requires IsRun(initial, reentrant, states, acts) && i <= j < |states| && states[i].stage.Cancelled?
    ensures states[j].stage.Cancelled?
    ensures |states[j].net.node.sent| + Lingering(states[j]) <= |states[i].net.node.sent| + Lingering(states[i])
    decreases j
  {
    if i < j {
      CancelledLingers(initial, reentrant, states, acts, i, j - 1);
      CancelledLingersOnce(initial, reentrant, states, acts, j - 1);
    }
  }

  /** A cancel that reaches the node stops the transfer: at most one frame more than its senders hold credits for. */
  lemma CancelStopsTheNode(initial: int, reentrant: bool, states: seq<Download>, acts: seq<Act>, i: nat, j: nat)
    requires SafeInitial(reentrant) <= initial <= MAX_RESPONSE_CREDITS
    requires IsRun(initial, reentrant, states, acts) && i < j < |states| && acts[i].NodeCancel?
    requires !states[i].net.node.removed
    ensures |states[j].net.node.sent| <= |states[i].net.node.sent| + states[i].net.node.held + 1
  {
    RunStep(initial, reentrant, states, acts, i);
    CancelledLingers(initial, reentrant, states, acts, i + 1, j);
  }

  // ---------------------------------------------------------------------------
  // Progress
  // ---------------------------------------------------------------------------

  predicate CanAll(reentrant: bool, d: Download, acts: seq<Act>)
    decreases |acts|
  {
    acts == [] || (Can(d, acts[0], reentrant) && CanAll(reentrant, Do(d, acts[0]), acts[1..]))
  }

  function DoAll(reentrant: bool, d: Download, acts: seq<Act>): Download
    requires CanAll(reentrant, d, acts)
    decreases |acts|
  {
    if acts == [] then d else DoAll(reentrant, Do(d, acts[0]), acts[1..])
  }

  ghost predicate Leads(reentrant: bool, d: Download, d': Download) {
    exists acts :: CanAll(reentrant, d, acts) && DoAll(reentrant, d, acts) == d'
  }

  lemma LeadsToSelf(reentrant: bool, d: Download)
    ensures Leads(reentrant, d, d)
  {
    assert CanAll(reentrant, d, []) && DoAll(reentrant, d, []) == d;
  }

  lemma LeadsFirst(reentrant: bool, d: Download, act: Act, d': Download)
    requires Can(d, act, reentrant) && Leads(reentrant, Do(d, act), d')
    ensures Leads(reentrant, d, d')
  {
    var rest :| CanAll(reentrant, Do(d, act), rest) && DoAll(reentrant, Do(d, act), rest) == d';
    var acts := [act] + rest;
    assert acts[1..] == rest;
    assert CanAll(reentrant, d, acts) && DoAll(reentrant, d, acts) == d';
  }

  /** The next act that brings a cancel closer to the node. */
  function NextCancelling(d: Download): Act {
    if d.stage.Posted? then (if d.net.toPage != [] then Hop(PageDemand) else PageCancel)
    else if d.net.toNode != [] then Hop(NodeDemand) else NodeCancel(false)
  }

  function CancelLeft(d: Download): nat {
    2 * |d.net.toPage| + |d.net.toNode| + if d.stage.Posted? then 2 else if d.stage.Sent? then 1 else 0
  }

  lemma {:induction false} CancelArrives(d: Download, reentrant: bool) returns (d': Download)
    requires Inv(d, reentrant) && !d.stage.Running?
    ensures Leads(reentrant, d, d') && (d'.stage.Cancelled? || d'.stage.Late?)
    decreases CancelLeft(d)
  {
    if d.stage.Cancelled? || d.stage.Late? {
      d' := d;
      LeadsToSelf(reentrant, d);
    } else {
      var act := NextCancelling(d);
      ActKeepsInv(d, act, reentrant);
      d' := CancelArrives(Do(d, act), reentrant);
      LeadsFirst(reentrant, d, act, d');
    }
  }

  /** Each hop passes a cancel on exactly while it still has the request. */
  lemma CancelPassesOnExactlyWhen(initial: int, reentrant: bool, states: seq<Download>, acts: seq<Act>, k: nat)
    requires SafeInitial(reentrant) <= initial <= MAX_RESPONSE_CREDITS
    requires IsRun(initial, reentrant, states, acts) && k < |acts|
    ensures var d, d' := states[k], states[k + 1];
      && (acts[k].WorkerCancel? ==> d'.gone && (d'.stage.Posted? <==> !d.net.worker.ended))
      && (acts[k].PageCancel? ==> d'.net.page.closed && (d'.stage.Sent? <==> !d.net.page.closed))
      && (acts[k].NodeCancel? ==> (d'.stage.Cancelled? <==> !d.net.node.removed))
    ensures states[k + 1].stage.Late? ==> states[k + 1].net.node.removed
  {
    RunInv(initial, reentrant, states, acts, k);
    RunInv(initial, reentrant, states, acts, k + 1);
    RunStep(initial, reentrant, states, acts, k);
  }

  /** What a node can still send, it may: every sender that holds a credit, and one that was past its check. */
  lemma {:induction false} HeldFramesGoOut(d: Download, reentrant: bool) returns (d': Download)
    requires !d.net.node.removed
    ensures Leads(reentrant, d, d') && |d'.net.node.sent| == |d.net.node.sent| + d.net.node.held
    ensures d'.stage == d.stage
    decreases d.net.node.held
  {
    if d.net.node.held == 0 {
      d' := d;
      LeadsToSelf(reentrant, d);
    } else {
      d' := HeldFramesGoOut(Do(d, Hop(NodeSend([]))), reentrant);
      LeadsFirst(reentrant, d, Hop(NodeSend([])), d');
    }
  }

  /** The bound of `CancelStopsTheNode` is reached: a cancel may find a sender between its check and its credit. */
  lemma OneFrameMaySlipThrough(
      initial: int, reentrant: bool, states: seq<Download>, acts: seq<Act>, k: nat) returns (d': Download)
    requires IsRun(initial, reentrant, states, acts) && k < |states|
    requires var d := states[k];
      d.stage.Sent? && d.net.toNode == [] && d.net.node.begun && !d.net.node.removed && d.net.node.available > 0
    ensures Leads(reentrant, states[k], d') && d'.stage.Cancelled?
    ensures |d'.net.node.sent| == |states[k].net.node.sent| + states[k].net.node.held + 1
  {
    var cancelled := Do(states[k], NodeCancel(true));
    var taken := Do(cancelled, Hop(NodeTake));
    d' := HeldFramesGoOut(taken, reentrant);
    LeadsFirst(reentrant, cancelled, Hop(NodeTake), d');
    LeadsFirst(reentrant, states[k], NodeCancel(true), d');
  }

  /** The next hop of what is under way in a download that is gone. */
  function NextDraining(s: Net): Step {
    if s.toPage != [] then PageDemand
    else if s.toNode != [] then NodeDemand
    else if s.toCarrier != [] then PageFrame
    else WorkerReceive(false, false)
  }

  function UnderWay(s: Net): nat { 2 * |s.toPage| + |s.toNode| + 2 * |s.toCarrier| + |s.toWorker| }

  lemma DrainingHops(d: Download, reentrant: bool)
    requires Inv(d, reentrant) && d.gone && UnderWay(d.net) > 0
    ensures Can(d, Hop(NextDraining(d.net)), reentrant)
    ensures var d' := Do(d, Hop(NextDraining(d.net)));
      UnderWay(d'.net) < UnderWay(d.net) && d'.gone && d'.net.node.sent == d.net.node.sent && d'.stage == d.stage
  {
  }

  /** Nothing of a download that is gone stays under way. */
  lemma {:induction false} GoneDownloadDrains(d: Download, reentrant: bool) returns (d': Download)
    requires Inv(d, reentrant) && d.gone
    ensures Leads(reentrant, d, d') && d'.net.toPage == d'.net.toNode == [] && d'.net.toCarrier == d'.net.toWorker == []
    ensures d'.net.node.sent == d.net.node.sent && d'.stage == d.stage
    decreases UnderWay(d.net)
  {
    if UnderWay(d.net) == 0 {
      d' := d;
      LeadsToSelf(reentrant, d);
    } else {
      DrainingHops(d, reentrant);
      var act := Hop(NextDraining(d.net));
      ActKeepsInv(d, act, reentrant);
      d' := GoneDownloadDrains(Do(d, act), reentrant);
      LeadsFirst(reentrant, d, act, d');
    }
  }

  /** From every state of a download that was cut short all lanes can run empty without a further frame. */
  lemma CutDownloadsDrain(
      initial: int, reentrant: bool, states: seq<Download>, acts: seq<Act>, k: nat) returns (d': Download)
    requires SafeInitial(reentrant) <= initial <= MAX_RESPONSE_CREDITS
    requires IsRun(initial, reentrant, states, acts) && k < |states| && states[k].gone
    ensures Leads(reentrant, states[k], d') && d'.net.node.sent == states[k].net.node.sent
    ensures d'.net.toPage == d'.net.toNode == [] && d'.net.toCarrier == d'.net.toWorker == []
  {
    RunInv(initial, reentrant, states, acts, k);
    d' := GoneDownloadDrains(states[k], reentrant);
  }

  /** A response that is under way may be cancelled at any moment, and every cancel can get through to the node, or
      finds that the response is over. */
  lemma EveryCancelGetsThrough(
      initial: int, reentrant: bool, states: seq<Download>, acts: seq<Act>, k: nat) returns (d': Download)
    requires SafeInitial(reentrant) <= initial <= MAX_RESPONSE_CREDITS
    requires IsRun(initial, reentrant, states, acts) && k < |states|
    requires !states[k].stage.Running? || (!states[k].gone && !states[k].net.worker.ended)
    ensures Leads(reentrant, states[k], d') && (d'.stage.Cancelled? || d'.stage.Late?)
  {
    RunInv(initial, reentrant, states, acts, k);
    var d := states[k];
    if d.stage.Running? {
      ActKeepsInv(d, WorkerCancel, reentrant);
      d' := CancelArrives(Do(d, WorkerCancel), reentrant);
      LeadsFirst(reentrant, d, WorkerCancel, d');
    } else {
      d' := CancelArrives(d, reentrant);
    }
  }

  lemma {:induction false} FailureArrives(d: Download, reentrant: bool) returns (d': Download)
    requires Inv(d, reentrant) && d.failing && (d.gone ==> d.net.worker.failed)
    ensures Leads(reentrant, d, d') && Inv(d', reentrant) && d'.net.worker.failed && d'.net.node == d.net.node
    decreases 2 * |d.net.toCarrier| + |d.net.toWorker|
  {
    if d.gone {
      d' := d;
      LeadsToSelf(reentrant, d);
    } else {
      var act := Hop(if d.net.toCarrier != [] then PageFrame else WorkerReceive(false, false));
      ActKeepsInv(d, act, reentrant);
      d' := FailureArrives(Do(d, act), reentrant);
      LeadsFirst(reentrant, d, act, d');
    }
  }

  /** A node that serves a request may report an error at any moment, behind the frames it has sent, and every error can
      get through to downstream. */
  lemma EveryErrorGetsThrough(
      initial: int, reentrant: bool, states: seq<Download>, acts: seq<Act>, k: nat) returns (d': Download)
    requires SafeInitial(reentrant) <= initial <= MAX_RESPONSE_CREDITS
    requires IsRun(initial, reentrant, states, acts) && k < |states| && !states[k].gone
    requires states[k].failing || (states[k].net.node.begun && !states[k].net.node.removed)
    ensures Leads(reentrant, states[k], d') && d'.net.worker.failed && d'.net.node.removed
    ensures d'.net.node.sent == states[k].net.node.sent && d'.net.worker.delivered <= states[k].net.node.sent
  {
    RunInv(initial, reentrant, states, acts, k);
    var d := states[k];
    if d.failing {
      d' := FailureArrives(d, reentrant);
    } else {
      ActKeepsInv(d, NodeError, reentrant);
      d' := FailureArrives(Do(d, NodeError), reentrant);
      LeadsFirst(reentrant, d, NodeError, d');
    }
  }

  function StepOf(act: Act): Step { if act.Hop? then act.step else NodeFinish }

  lemma UncutActIsAStep(d: Download, act: Act, reentrant: bool)
    requires Inv(d, reentrant) && Can(d, act, reentrant) && !Do(d, act).gone
    ensures !d.gone && ResponseHops.Can(d.net, StepOf(act), reentrant)
    ensures Do(d, act).net == ResponseHops.Do(d.net, StepOf(act))
  {
  }

  /** Until someone cuts it short, a download is a run of `ResponseHops`. */
  lemma {:induction false} UncutIsARun(
      initial: int, reentrant: bool, states: seq<Download>, acts: seq<Act>, k: nat)
    requires SafeInitial(reentrant) <= initial <= MAX_RESPONSE_CREDITS
    requires IsRun(initial, reentrant, states, acts) && k < |states| && !states[k].gone
    ensures Reaches(initial, reentrant, states[k].net)
    decreases k
  {
    if k == 0 {
      assert ResponseHops.IsRun(initial, reentrant, [Init(initial)], []);
    } else {
      RunInv(initial, reentrant, states, acts, k - 1);
      RunStep(initial, reentrant, states, acts, k - 1);
      UncutActIsAStep(states[k - 1], acts[k - 1], reentrant);
      UncutIsARun(initial, reentrant, states, acts, k - 1);
      ReachesNext(initial, reentrant, states[k - 1].net, StepOf(acts[k - 1]));
    }
  }

  /** And its hops can go on as they would there. */
  lemma {:induction false} UncutHopsLift(reentrant: bool, d: Download, steps: seq<Step>)
    requires !d.gone && !d.failing && !d.racing && d.stage.Running?
    requires ResponseCompletes.CanAll(reentrant, d.net, steps)
    ensures Leads(reentrant, d, d.(net := ResponseCompletes.DoAll(reentrant, d.net, steps)))
    decreases |steps|
  {
    if steps == [] {
      LeadsToSelf(reentrant, d);
    } else {
      var next := Do(d, Hop(steps[0]));
      assert next == d.(net := ResponseHops.Do(d.net, steps[0]));
      UncutHopsLift(reentrant, next, steps[1..]);
      LeadsFirst(reentrant, d, Hop(steps[0]), d.(net := ResponseCompletes.DoAll(reentrant, d.net, steps)));
    }
  }

  /** A download that nobody has cut short can be brought to its close with every frame handed down. */
  lemma UncutDownloadCanComplete(
      initial: int, reentrant: bool, states: seq<Download>, acts: seq<Act>, k: nat) returns (d': Download)
    requires SafeInitial(reentrant) <= initial <= MAX_RESPONSE_CREDITS
    requires IsRun(initial, reentrant, states, acts) && k < |states| && !states[k].gone && !states[k].failing
    ensures Leads(reentrant, states[k], d')
    ensures d'.net.worker.closed && d'.net.worker.delivered == states[k].net.node.sent
  {
    var d := states[k];
    RunInv(initial, reentrant, states, acts, k);
    UncutIsARun(initial, reentrant, states, acts, k);
    var nets: seq<Net>, steps: seq<Step> :|
      ResponseHops.IsRun(initial, reentrant, nets, steps) && nets[|nets| - 1] == d.net;
    var net' := ResponseCompletes.EveryResponseCanComplete(initial, reentrant, nets, steps, |steps|, []);
    var more :| ResponseCompletes.CanAll(reentrant, d.net, more)
                && ResponseCompletes.DoAll(reentrant, d.net, more) == net';
    UncutHopsLift(reentrant, d, more);
    d' := d.(net := net');
    assert d.net.node.sent + [] == d.net.node.sent;
  }
}
