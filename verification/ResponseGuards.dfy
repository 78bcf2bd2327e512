/** Each hop of a response against peers that keep no rule.

`ResponseHops` shows that compliant peers never meet a guard. Here a peer sends what it likes. The page passes on
exactly the traffic that comes before the first breach of its window, the worker accepts no frame that it did not ask
for, and the node never holds more than 64 credits.
 */
module ResponseGuards {
  import opened ByteStrings
  import opened Limits
  import opened Sums
  import opened AdaptiveWindow
  import opened ResponseHops

  // ---------------------------------------------------------------------------
  // The page
  // ---------------------------------------------------------------------------

  /** A credit message of the worker, a body frame of the node, or its end. */
  datatype Traffic = Granted(n: int) | Framed(frame: Frame) | Over

  /** The page's entry for a request and all it has passed on. */
  datatype Hop = Hop(page: Page, toNode: seq<Credit>, toWorker: seq<Answer>)

  function Handled(h: Hop, e: Traffic): Hop {
    match e
    case Granted(n) => var (page, passed) := GrantPage(h.page, n); Hop(page, h.toNode + passed, h.toWorker)
    case Framed(frame) => var (page, passed) := BodyPage(h.page, frame); Hop(page, h.toNode, h.toWorker + passed)
    case Over => var (page, passed) := EndPage(h.page); Hop(page, h.toNode, h.toWorker + passed)
  }

  /** A request that began with `initial` credits, after any traffic. */
  function Carried(initial: int, traffic: seq<Traffic>): Hop {
    if traffic == [] then Hop(Page(true, false, false, initial), [], [])
    else Handled(Carried(initial, traffic[..|traffic| - 1]), traffic[|traffic| - 1])
  }

  /** The credit that the traffic leaves, whatever the page makes of it. */
  function Ledger(initial: int, traffic: seq<Traffic>): int {
    if traffic == [] then initial
    else
      Ledger(initial, traffic[..|traffic| - 1])
      + match traffic[|traffic| - 1] case Granted(n) => n case Framed(_) => -1 case Over => 0
  }

  /** A grant of at least one credit that leaves at most 64, or a frame against a credit. */
  predicate KeepsWindow(credit: int, e: Traffic) {
    match e
    case Granted(n) => 1 <= n && credit + n <= 64
    case Framed(_) => 1 <= credit
    case Over => false
  }

  /** Traffic of a response under way that stays within the window throughout. */
  predicate Orderly(initial: int, traffic: seq<Traffic>) {
    forall k :: 0 <= k < |traffic| ==> KeepsWindow(Ledger(initial, traffic[..k]), traffic[k])
  }

  function Grantings(traffic: seq<Traffic>): seq<Credit> {
    if traffic == [] then []
    else
      var last := traffic[|traffic| - 1];
      Grantings(traffic[..|traffic| - 1]) + if last.Granted? then [Grant(last.n)] else []
  }

  function Framings(traffic: seq<Traffic>): seq<Answer> {
    if traffic == [] then []
    else
      var last := traffic[|traffic| - 1];
      Framings(traffic[..|traffic| - 1]) + if last.Framed? then [Body(last.frame)] else []
  }

  /** How far the traffic is orderly, looked at from message `k` on. */
  function ReachFrom(initial: int, traffic: seq<Traffic>, k: nat): (m: nat)
    requires k <= |traffic|
    ensures k <= m <= |traffic|
    ensures forall i :: k <= i < m ==> KeepsWindow(Ledger(initial, traffic[..i]), traffic[i])
    ensures m < |traffic| ==> !KeepsWindow(Ledger(initial, traffic[..m]), traffic[m])
    decreases |traffic| - k
  {
    if k < |traffic| && KeepsWindow(Ledger(initial, traffic[..k]), traffic[k])
    then ReachFrom(initial, traffic, k + 1) else k
  }

  function Reach(initial: int, traffic: seq<Traffic>): (m: nat)
    ensures m <= |traffic|
  {
    ReachFrom(initial, traffic, 0)
  }

  lemma ReachIsOrderly(initial: int, traffic: seq<Traffic>)
    ensures Orderly(initial, traffic[..Reach(initial, traffic)])
  {
    var m := Reach(initial, traffic);
    assert forall k :: 0 <= k < m ==> traffic[..m][..k] == traffic[..k];
  }

  /** An orderly message is passed on and moves the page's count as it moves the ledger. */
  lemma OrderlyMessagePasses(h: Hop, credit: int, e: Traffic)
    requires h.page == Page(true, false, false, credit) && 0 <= credit <= 64 && KeepsWindow(credit, e)
    ensures Handled(h, e)
         == Hop(Page(true, false, false, credit + match e case Granted(n) => n case Framed(_) => -1 case Over => 0),
                h.toNode + (if e.Granted? then [Grant(e.n)] else []),
                h.toWorker + (if e.Framed? then [Body(e.frame)] else []))
  {
    assert h.toNode + [] == h.toNode && h.toWorker + [] == h.toWorker;
  }

  lemma OrderlyBefore(initial: int, traffic: seq<Traffic>)
    requires traffic != [] && Orderly(initial, traffic)
    ensures Orderly(initial, traffic[..|traffic| - 1])
    ensures KeepsWindow(Ledger(initial, traffic[..|traffic| - 1]), traffic[|traffic| - 1])
  {
    var most := traffic[..|traffic| - 1];
    assert forall k :: 0 <= k < |most| ==> most[..k] == traffic[..k];
  }

  lemma {:induction false} OrderlyTrafficPasses(initial: int, traffic: seq<Traffic>)
    requires 0 <= initial <= 64 && Orderly(initial, traffic)
    ensures 0 <= Ledger(initial, traffic) <= 64
    ensures Carried(initial, traffic)
         == Hop(Page(true, false, false, Ledger(initial, traffic)), Grantings(traffic), Framings(traffic))
    decreases |traffic|
  {
    if traffic != [] {
      var most := traffic[..|traffic| - 1];
      OrderlyBefore(initial, traffic);
      OrderlyTrafficPasses(initial, most);
      OrderlyMessagePasses(Carried(initial, most), Ledger(initial, most), traffic[|most|]);
    }
  }

  lemma {:induction false} NothingPassesAfter(initial: int, traffic: seq<Traffic>, more: seq<Traffic>)
    requires Carried(initial, traffic).page.closed || Carried(initial, traffic).page.rejected
    ensures Carried(initial, traffic + more) == Carried(initial, traffic)
    decreases |more|
  {
    if more == [] {
      assert traffic + more == traffic;
    } else {
      var most := more[..|more| - 1];
      NothingPassesAfter(initial, traffic, most);
      assert (traffic + more)[..|traffic + more| - 1] == traffic + most;
    }
  }

  /** The first message out of order is the last that the page looks at. */
  lemma FirstBreachIsFinal(initial: int, traffic: seq<Traffic>, m: nat)
    requires 0 <= initial <= 64 && m < |traffic| && Orderly(initial, traffic[..m])
    requires !KeepsWindow(Ledger(initial, traffic[..m]), traffic[m])
    ensures Carried(initial, traffic)
         == Hop(Page(true, traffic[m].Over?, !traffic[m].Over?, Ledger(initial, traffic[..m])),
                Grantings(traffic[..m]), Framings(traffic[..m]) + if traffic[m].Over? then [End] else [])
  {
    var before, upTo := traffic[..m], traffic[..m + 1];
    OrderlyTrafficPasses(initial, before);
    assert upTo[..m] == before && upTo[m] == traffic[m];
    assert Carried(initial, upTo) == Handled(Carried(initial, before), traffic[m]);
    assert Framings(before) + [] == Framings(before) && Grantings(before) + [] == Grantings(before);
    NothingPassesAfter(initial, upTo, traffic[m + 1..]);
    assert upTo + traffic[m + 1..] == traffic;
  }

  /** Whatever comes, the page passes on exactly the traffic before the first message out of order. An end of the
      response goes on as well and closes the entry; anything else fails the request. */
  lemma PagePassesExactlyTheOrderly(initial: int, traffic: seq<Traffic>)
    requires 0 <= initial <= 64
    ensures var h, m := Carried(initial, traffic), Reach(initial, traffic);
      && 0 <= h.page.credit == Ledger(initial, traffic[..m]) <= 64
      && h.toNode == Grantings(traffic[..m])
      && h.toWorker == Framings(traffic[..m]) + (if m < |traffic| && traffic[m].Over? then [End] else [])
      && (h.page.closed <==> m < |traffic| && traffic[m].Over?)
      && (h.page.rejected <==> m < |traffic| && !traffic[m].Over?)
  {
    var m := Reach(initial, traffic);
    ReachIsOrderly(initial, traffic);
    OrderlyTrafficPasses(initial, traffic[..m]);
    if m < |traffic| {
      FirstBreachIsFinal(initial, traffic, m);
    } else {
      assert traffic[..m] == traffic;
    }
  }

  // ---------------------------------------------------------------------------
  // The worker
  // ---------------------------------------------------------------------------

  datatype Happening = Pulls(fast: bool) | Arrives(frame: Frame, fast: bool, reenter: bool) | Ends

  /** A response stream and the credit it has asked for since the request. */
  datatype Stream = Stream(worker: Worker, posts: seq<int>)

  /** After the end no frame reaches the stream; downstream can only call back while it waits. */
  predicate Feasible(w: Worker, e: Happening) {
    match e
    case Pulls(_) => true
    case Arrives(_, _, reenter) => !w.ended && (reenter ==> w.window.waiting)
    case Ends => !w.ended
  }

  function Answered(s: Stream, e: Happening): Stream {
    match e
    case Pulls(fast) => var (w, posts) := PullWorker(s.worker, fast); Stream(w, s.posts + posts)
    case Arrives(frame, fast, reenter) =>
      var (w, posts) := ChunkWorker(s.worker, frame, fast, reenter); Stream(w, s.posts + posts)
    case Ends => Stream(EndWorker(s.worker), s.posts)
  }

  ghost predicate IsStream(initial: int, states: seq<Stream>, es: seq<Happening>) {
    && |states| == |es| + 1
    && states[0] == Stream(NewWorker(initial), [])
    && forall i :: 0 <= i < |es| ==> Feasible(states[i].worker, es[i]) && states[i + 1] == Answered(states[i], es[i])
  }

  /** What the worker has taken in so far was asked for, frame by frame, and fits. */
  ghost predicate Stocked(s: Stream, initial: int) {
    var w := s.worker;
    && |w.queue| == w.window.queued && (w.window.waiting ==> w.queue == [])
    && initial <= w.window.target <= 64 && w.window.initial == initial
    && |w.queue| <= 64
    && WithinLimit(w.delivered) && WithinLimit(w.queue)
    && 0 <= w.window.balance
    && (w.failed ==> w.queue == [] && |w.delivered| <= initial + Sum(s.posts))
    && (!w.failed ==> |w.delivered| + |w.queue| + w.window.balance == initial + Sum(s.posts))
    && (w.closed ==> w.ended && w.queue == [] && !w.window.waiting)
    && (w.ended && w.queue == [] && !w.failed ==> w.closed)
  }

  /** The part of the stock that the window keeps for itself. */
  predicate Bounded(w: Window) {
    w.initial <= w.target <= 64 && (w.waiting ==> w.queued == 0) && 0 <= w.balance
  }

  lemma ConsumeBounded(w: Window, fast: bool)
    requires Bounded(w)
    ensures Bounded(Consume(w, fast).window) && Consume(w, fast).window.initial == w.initial
    ensures Consume(w, fast).window.waiting == w.waiting && Consume(w, fast).window.queued == w.queued
  {
  }

  lemma PullBounded(w: Window, fast: bool)
    requires Bounded(w) && 0 <= w.queued
    ensures Bounded(OnPull(w, fast).window) && OnPull(w, fast).window.initial == w.initial
  {
    if w.queued > 0 {
      ConsumeBounded(w.(queued := w.queued - 1), fast);
    }
  }

  lemma ChunkBounded(w: Window, fast: bool, reenter: bool)
    requires Bounded(w) && 0 <= w.queued && !OnChunk(w, fast, reenter).exceeded
    ensures Bounded(OnChunk(w, fast, reenter).window) && OnChunk(w, fast, reenter).window.initial == w.initial
    ensures !w.waiting ==> w.queued < w.target
  {
    if w.waiting {
      var delivered := w.(balance := w.balance - 1, waiting := false);
      var pulled := if reenter then OnPull(delivered, false).window else delivered;
      if reenter {
        PullBounded(delivered, false);
      }
      ConsumeBounded(pulled, fast);
    }
  }

  /** After the end a pull only hands out what is queued. */
  lemma LatePullStocked(s: Stream, fast: bool, initial: int)
    requires Stocked(s, initial) && (s.worker.failed || s.worker.ended)
    ensures Stocked(Answered(s, Pulls(fast)), initial)
  {
    assert s.posts + [] == s.posts;
  }

  /** What a pull of a live stream answers with. */
  lemma LivePullStocked(s: Stream, reply: Reply, initial: int)
    requires Stocked(s, initial) && !s.worker.failed && !s.worker.ended
    requires Booked(s.worker.window, reply) && Bounded(reply.window) && reply.window.initial == initial
    requires reply.window.queued == if s.worker.queue == [] then 0 else |s.worker.queue| - 1
    ensures var w := s.worker;
      var w' := if w.queue == [] then w.(window := reply.window)
                else w.(window := reply.window, queue := w.queue[1..], delivered := w.delivered + [w.queue[0]]);
      Stocked(Stream(w', s.posts + reply.posts), initial)
  {
    SumConcat(s.posts, reply.posts);
  }

  lemma PullStocked(s: Stream, fast: bool, initial: int)
    requires Stocked(s, initial)
    ensures Stocked(Answered(s, Pulls(fast)), initial)
  {
    if s.worker.failed || s.worker.ended {
      LatePullStocked(s, fast, initial);
    } else {
      PullBooked(s.worker.window, fast);
      PullBounded(s.worker.window, fast);
      LivePullStocked(s, OnPull(s.worker.window, fast), initial);
    }
  }

  /** A frame that is taken in joins what was delivered or queued, and costs a credit. */
  lemma TakenStocked(s: Stream, frame: Frame, reply: Reply, initial: int)
    requires Stocked(s, initial) && !s.worker.failed && !s.worker.ended && |frame| <= MAX_PAYLOAD_BYTES
    requires Booked(s.worker.window.(balance := s.worker.window.balance - 1), reply)
    requires Bounded(reply.window) && reply.window.initial == initial
    requires var w := s.worker.window;
      reply.window.queued == (if w.waiting then 0 else w.queued + 1) && (!w.waiting ==> w.queued < w.target)
    ensures var w := s.worker;
      var w' := if w.window.waiting then w.(window := reply.window, delivered := w.delivered + [frame])
                else w.(window := reply.window, queue := w.queue + [frame]);
      Stocked(Stream(w', s.posts + reply.posts), initial)
  {
    SumConcat(s.posts, reply.posts);
  }

  lemma ArrivalStocked(s: Stream, frame: Frame, fast: bool, reenter: bool, initial: int)
    requires Stocked(s, initial) && Feasible(s.worker, Arrives(frame, fast, reenter))
    ensures Stocked(Answered(s, Arrives(frame, fast, reenter)), initial)
  {
    var w, reply := s.worker, OnChunk(s.worker.window, fast, reenter);
    assert s.posts + [] == s.posts;
    if !w.failed && |frame| <= MAX_PAYLOAD_BYTES && !reply.exceeded {
      ChunkBooked(w.window, fast, reenter);
      ChunkBounded(w.window, fast, reenter);
      TakenStocked(s, frame, reply, initial);
    } else if !w.failed && |frame| <= MAX_PAYLOAD_BYTES {
      ExceededKeepsBounds(w.window, fast, reenter);
    }
  }

  lemma ExceededKeepsBounds(w: Window, fast: bool, reenter: bool)
    requires OnChunk(w, fast, reenter).exceeded && Bounded(w)
    ensures OnChunk(w, fast, reenter).window == w.(balance := OnChunk(w, fast, reenter).window.balance)
    ensures 0 <= OnChunk(w, fast, reenter).window.balance <= w.balance
  {
  }

  lemma StepStocked(s: Stream, e: Happening, initial: int)
    requires Stocked(s, initial) && Feasible(s.worker, e)
    ensures Stocked(Answered(s, e), initial)
  {
    match e
    case Pulls(fast) => PullStocked(s, fast, initial);
    case Arrives(frame, fast, reenter) => ArrivalStocked(s, frame, fast, reenter, initial);
    case Ends =>
  }

  lemma {:induction false} StreamStocked(initial: int, states: seq<Stream>, es: seq<Happening>, k: nat)
    requires 1 <= initial <= 64 && IsStream(initial, states, es) && k < |states|
    ensures Stocked(states[k], initial)
  {
    if k > 0 {
      StreamStocked(initial, states, es, k - 1);
      StepStocked(states[k - 1], es[k - 1], initial);
    }
  }

  /** Whatever the node sends, the worker takes in at most as many frames as it granted credits, queues at most 64,
      and lets no frame over the payload limit through. A stream closed to downstream leaves nothing behind. */
  lemma WorkerTakesOnlyWhatItAskedFor(initial: int, states: seq<Stream>, es: seq<Happening>, k: nat)
    requires 1 <= initial <= 64 && IsStream(initial, states, es) && k < |states|
    ensures var w := states[k].worker;
      && |w.delivered| + |w.queue| <= initial + Sum(states[k].posts)
      && |w.queue| <= 64
      && (w.closed ==> w.ended && w.queue == [] && !w.window.waiting)
      && forall i :: 0 <= i < |w.delivered| ==> |w.delivered[i]| <= MAX_PAYLOAD_BYTES
  {
    StreamStocked(initial, states, es, k);
  }

  /** A frame fails the stream exactly when it is too large, was not asked for, or finds the window's queue full. Then
      what was queued is gone and nothing more is asked for. */
  lemma FrameFailsExactlyWhen(initial: int, states: seq<Stream>, es: seq<Happening>, k: nat)
    requires 1 <= initial <= 64 && IsStream(initial, states, es) && k < |es| && es[k].Arrives?
    requires !states[k].worker.failed
    ensures var w, w', frame := states[k].worker, states[k + 1].worker, es[k].frame;
      var taken := |w.delivered| + |w.queue|;
      && (w'.failed <==>
            || |frame| > MAX_PAYLOAD_BYTES || taken >= initial + Sum(states[k].posts)
            || (!w.window.waiting && |w.queue| >= w.window.target))
      && (w'.failed ==>
            && w'.queue == [] && w'.delivered == w.delivered && !w'.window.waiting
            && states[k + 1].posts == states[k].posts)
  {
    StreamStocked(initial, states, es, k);
    assert states[k + 1] == Answered(states[k], es[k]);
    assert states[k].posts + [] == states[k].posts;
  }

  /** A failed stream stays as it failed. */
  lemma {:induction false} FailedForGood(initial: int, states: seq<Stream>, es: seq<Happening>, i: nat, j: nat)
    requires IsStream(initial, states, es) && i <= j < |states| && states[i].worker.failed
    ensures states[j].worker == states[i].worker && states[j].posts == states[i].posts
    decreases j
  {
    if i < j {
      FailedForGood(initial, states, es, i, j - 1);
      assert states[j] == Answered(states[j - 1], es[j - 1]);
    }
  }

  lemma StepAfterEnd(s: Stream, e: Happening)
    requires s.worker.ended && Feasible(s.worker, e)
    ensures var s' := Answered(s, e);
      && s'.worker.ended && s'.posts == s.posts && s'.worker.window.balance == s.worker.window.balance
      && s'.worker.window.target == s.worker.window.target
      && s'.worker.window.sampleConsumed == s.worker.window.sampleConsumed
  {
    assert s.posts + [] == s.posts;
  }

  /** From the end on the stream asks for no credit and adapts nothing; it only hands out what it has. */
  lemma {:induction false} EndedAsksForNothing(initial: int, states: seq<Stream>, es: seq<Happening>, i: nat, j: nat)
    requires IsStream(initial, states, es) && i <= j < |states| && states[i].worker.ended
    ensures states[j].worker.ended && states[j].posts == states[i].posts
    ensures states[j].worker.window.balance == states[i].worker.window.balance
    ensures states[j].worker.window.target == states[i].worker.window.target
    decreases j
  {
    if i < j {
      EndedAsksForNothing(initial, states, es, i, j - 1);
      assert Feasible(states[j - 1].worker, es[j - 1]) && states[j] == Answered(states[j - 1], es[j - 1]);
      StepAfterEnd(states[j - 1], es[j - 1]);
    }
  }

  // ---------------------------------------------------------------------------
  // The node
  // ---------------------------------------------------------------------------

  /** Grants add up to at most 64 credits; what goes beyond is dropped. */
  lemma NodeCapsCredit(available: int, n: int)
    requires 0 <= available <= 64 && 0 <= n
    ensures GrantNode(available, n) == Min(64, available + n)
  {
  }

  /** In a run of compliant peers nothing goes beyond: every credit that reaches a live node is added. */
  lemma DemandArrivesWhole(initial: int, reentrant: bool, states: seq<Net>, steps: seq<Step>, k: nat)
    requires SafeInitial(reentrant) <= initial <= MAX_RESPONSE_CREDITS
    requires IsRun(initial, reentrant, states, steps) && k < |steps| && steps[k].NodeDemand?
    requires !states[k].node.removed
    ensures states[k].toNode != []
    ensures states[k + 1].node.available == states[k].node.available + states[k].toNode[0].n <= 64
  {
    RunInv(initial, reentrant, states, steps, k);
    RunInv(initial, reentrant, states, steps, k + 1);
    assert Can(states[k], steps[k], reentrant) && states[k + 1] == Do(states[k], steps[k]);
    DemandNonNegative(states[k].toPage);
    DemandNonNegative(states[k].toNode[1..]);
  }

  predicate Asked(steps: seq<Step>, k: nat) {
    exists i :: 0 <= i < k && i < |steps| && steps[i].NodeDemand?
  }

  /** The node knows of a request exactly from the first credit message on. */
  lemma {:induction false} NodeBeginsExactlyWhenAsked(
      initial: int, reentrant: bool, states: seq<Net>, steps: seq<Step>, k: nat)
    requires IsRun(initial, reentrant, states, steps) && k < |states|
    ensures states[k].node.begun <==> Asked(steps, k)
    ensures states[k].node.removed ==> states[k].node.begun
  {
    if k > 0 {
      NodeBeginsExactlyWhenAsked(initial, reentrant, states, steps, k - 1);
      assert Can(states[k - 1], steps[k - 1], reentrant) && states[k] == Do(states[k - 1], steps[k - 1]);
      if steps[k - 1].NodeDemand? {
        assert Asked(steps, k);
      }
    }
  }
}
