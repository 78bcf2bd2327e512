/** Response credit across three hops: service worker, page, content node.

The worker grants credit through the page to the node; the node answers each credit with at
most one body frame that travels back through the page. Every hop guards a local bound. The
conservation laws below show that for compliant peers none of those guards ever fires.

Both message ports and the data-channel lane are ordered and reliable.
 */
module ResponseHops {
  import opened ByteStrings
  import opened Limits
  import opened Sums
  import opened AdaptiveWindow

  type Frame = Bytes

  datatype Credit = Req(n: int) | Grant(n: int)
  datatype Answer = Body(frame: Frame) | End

  /** `queue` holds the frames that `window.queued` counts; `delivered` is what downstream has been handed, and
      `closed` says that downstream has been told that no more will come. */
  datatype Worker = Worker(
    window: Window, queue: seq<Frame>, delivered: seq<Frame>, ended: bool, closed: bool, failed: bool)

  function NewWorker(initial: int): Worker {
    Worker(Start(initial), [], [], false, false, false)
  }

  /** The page's per-request `Outbound` entry. `rejected` is the `failRequest` path. */
  datatype Page = Page(begun: bool, closed: bool, rejected: bool, credit: int)

  /** The node's request: its credit window, credits taken by a sender, and the frames sent so far. */
  datatype Node = Node(begun: bool, removed: bool, available: int, held: nat, sent: seq<Frame>)

  /** `toPage`/`toNode` carry demand, `toCarrier`/`toWorker` carry frames; the two counters are credits
      that reached a peer which no longer tracks the request, or that the node spent without sending. */
  datatype Net = Net(
    worker: Worker, toPage: seq<Credit>,
    page: Page, toNode: seq<Credit>,
    node: Node, toCarrier: seq<Answer>, toWorker: seq<Answer>,
    lostAtPage: int, lostAtNode: int)

  datatype Step =
    | WorkerPull(fast: bool)
    | WorkerReceive(fast: bool, reenter: bool)
    | PageDemand
    | PageFrame
    | NodeDemand
    | NodeTake
    | NodeSend(frame: Frame)
    | NodeSpendNothing
    | NodeFinish

  function Init(initial: int): Net {
    Net(NewWorker(initial), [Req(initial)],
        Page(false, false, false, 0), [],
        Node(false, false, 0, 0, []), [], [],
        0, 0)
  }

  // ---------------------------------------------------------------------------
  // Handlers
  // ---------------------------------------------------------------------------

  function Grants(posts: seq<int>): seq<Credit> {
    seq(|posts|, i requires 0 <= i < |posts| => Grant(posts[i]))
  }

  /** `closeIfDrained`. */
  function CloseIfDrained(w: Worker): Worker {
    if w.ended && w.queue == [] then w.(window := w.window.(waiting := false), closed := true) else w
  }

  /** `entry.onEnd`. */
  function EndWorker(w: Worker): Worker {
    if w.failed then w else CloseIfDrained(w.(ended := true))
  }

  /** `entry.onPull`: once the response has ended the queue drains without touching credit. */
  function PullWorker(w: Worker, fast: bool): (Worker, seq<int>) {
    if w.failed then (w, [])
    else if w.queue != [] then
      var popped := w.(queue := w.queue[1..], delivered := w.delivered + [w.queue[0]]);
      if w.ended then (CloseIfDrained(popped.(window := w.window.(queued := w.window.queued - 1))), [])
      else
        var reply := OnPull(w.window, fast);
        (popped.(window := reply.window), reply.posts)
    else if w.ended then (CloseIfDrained(w), [])
    else
      var reply := OnPull(w.window, fast);
      (w.(window := reply.window), reply.posts)
  }

  /** `entry.onError` after the request has been dropped. */
  function FailWorker(w: Worker, window: Window): Worker {
    w.(window := window.(queued := 0, waiting := false), queue := [], failed := true)
  }

  /** `entry.onChunk`. */
  function ChunkWorker(w: Worker, frame: Frame, fast: bool, reenter: bool): (Worker, seq<int>) {
    if w.failed then (w, [])
    else if |frame| > MAX_PAYLOAD_BYTES then (FailWorker(w, w.window), [])
    else
      var reply := OnChunk(w.window, fast, reenter);
      if reply.exceeded then (FailWorker(w, reply.window), [])
      else if w.window.waiting then (w.(window := reply.window, delivered := w.delivered + [frame]), reply.posts)
      else (w.(window := reply.window, queue := w.queue + [frame]), reply.posts)
  }

  /** The page's `credit` case of `onSwMessage`: reject a grant that leaves the 64-credit window, else forward it. */
  function GrantPage(p: Page, n: int): (Page, seq<Credit>) {
    if p.closed || p.rejected then (p, [])
    else if n <= 0 || n > MAX_RESPONSE_CREDITS || p.credit > MAX_RESPONSE_CREDITS - n then (p.(rejected := true), [])
    else (p.(credit := p.credit + n), [Grant(n)])
  }

  /** The page's `ResBody` case of `onFrame`. */
  function BodyPage(p: Page, frame: Frame): (Page, seq<Answer>) {
    if p.closed || p.rejected then (p, [])
    else if p.credit <= 0 then (p.(rejected := true), [])
    else (p.(credit := p.credit - 1), [Body(frame)])
  }

  /** The page's `ResEnd` case of `onFrame`. */
  function EndPage(p: Page): (Page, seq<Answer>) {
    if p.closed || p.rejected then (p, []) else (p.(closed := true), [End])
  }

  /** `responseCreditWindow.grant`, which silently clamps at the cap. */
  function GrantNode(available: int, n: int): int {
    if n == 0 || available >= MAX_RESPONSE_CREDITS then available
    else if n > MAX_RESPONSE_CREDITS - available then MAX_RESPONSE_CREDITS
    else available + n
  }

  // ---------------------------------------------------------------------------
  // Steps
  // ---------------------------------------------------------------------------

  predicate Can(s: Net, step: Step, reentrant: bool) {
    match step
    case WorkerPull(_) => true
    case WorkerReceive(_, reenter) => s.toWorker != [] && (reenter ==> reentrant && s.worker.window.waiting)
    case PageDemand => s.toPage != []
    case PageFrame => s.toCarrier != []
    case NodeDemand => s.toNode != []
    case NodeTake => s.node.begun && !s.node.removed && s.node.available > 0
    case NodeSend(frame) => !s.node.removed && s.node.held > 0 && |frame| <= MAX_PAYLOAD_BYTES
    case NodeSpendNothing => s.node.held > 0
    case NodeFinish => s.node.begun && !s.node.removed
  }

  function Do(s: Net, step: Step): Net
    requires Can(s, step, true)
  {
    match step
    case WorkerPull(fast) =>
      var (w, posts) := PullWorker(s.worker, fast);
      s.(worker := w, toPage := s.toPage + Grants(posts))
    case WorkerReceive(fast, reenter) =>
      if s.toWorker[0].End? then s.(worker := EndWorker(s.worker), toWorker := s.toWorker[1..])
      else
        var (w, posts) := ChunkWorker(s.worker, s.toWorker[0].frame, fast, reenter);
        s.(worker := w, toWorker := s.toWorker[1..], toPage := s.toPage + Grants(posts))
    case PageDemand =>
      if s.toPage[0].Req? then
        s.(toPage := s.toPage[1..], toNode := s.toNode + [s.toPage[0]],
           page := s.page.(begun := true, credit := s.toPage[0].n))
      else
        var (p, forward) := GrantPage(s.page, s.toPage[0].n);
        s.(toPage := s.toPage[1..], page := p, toNode := s.toNode + forward,
           lostAtPage := s.lostAtPage + if forward == [] then s.toPage[0].n else 0)
    case PageFrame =>
      var (p, forward) := if s.toCarrier[0].End? then EndPage(s.page) else BodyPage(s.page, s.toCarrier[0].frame);
      s.(toCarrier := s.toCarrier[1..], page := p, toWorker := s.toWorker + forward)
    case NodeDemand =>
      var n := s.toNode[0].n;
      if s.node.removed then s.(toNode := s.toNode[1..], lostAtNode := s.lostAtNode + n)
      else
        var available := GrantNode(s.node.available, n);
        s.(toNode := s.toNode[1..], node := s.node.(begun := true, available := available))
    case NodeTake => s.(node := s.node.(available := s.node.available - 1, held := s.node.held + 1))
    case NodeSend(frame) =>
      s.(node := s.node.(held := s.node.held - 1, sent := s.node.sent + [frame]),
         toCarrier := s.toCarrier + [Body(frame)])
    case NodeSpendNothing => s.(node := s.node.(held := s.node.held - 1), lostAtNode := s.lostAtNode + 1)
    case NodeFinish => s.(node := s.node.(removed := true), toCarrier := s.toCarrier + [End])
  }

  ghost predicate IsRun(initial: int, reentrant: bool, states: seq<Net>, steps: seq<Step>) {
    && |states| == |steps| + 1
    && states[0] == Init(initial)
    && forall i :: 0 <= i < |steps| ==> Can(states[i], steps[i], reentrant) && states[i + 1] == Do(states[i], steps[i])
  }

  // ---------------------------------------------------------------------------
  // Conservation
  // ---------------------------------------------------------------------------

  function Demand(cs: seq<Credit>): int {
    if cs == [] then 0 else cs[0].n + Demand(cs[1..])
  }

  function Frames(answers: seq<Answer>): seq<Frame> {
    if answers == [] then []
    else if answers[0].Body? then [answers[0].frame] + Frames(answers[1..])
    else Frames(answers[1..])
  }

  lemma {:induction false} DemandConcat(a: seq<Credit>, b: seq<Credit>)
    ensures Demand(a + b) == Demand(a) + Demand(b)
    decreases |a|
  {
    if a == [] {
      assert a + b == b;
    } else {
      DemandConcat(a[1..], b);
      assert (a + b)[1..] == a[1..] + b;
    }
  }

  lemma {:induction false} FramesConcat(a: seq<Answer>, b: seq<Answer>)
    ensures Frames(a + b) == Frames(a) + Frames(b)
    decreases |a|
  {
    if a == [] {
      assert a + b == b;
    } else {
      FramesConcat(a[1..], b);
      assert (a + b)[1..] == a[1..] + b;
    }
  }

  /** A stream of bodies, closed by one `End` exactly when the sender behind it has finished. */
  predicate EndsWhen(answers: seq<Answer>, finished: bool) {
    && (finished ==> answers != [])
    && forall i :: 0 <= i < |answers| ==> (answers[i].End? <==> finished && i == |answers| - 1)
  }

  predicate Positive(cs: seq<Credit>) {
    forall i :: 0 <= i < |cs| ==> cs[i].n >= 1
  }

  /** Only the opening message, and only until the page has seen it, is a `Req`. */
  predicate ReqFirst(cs: seq<Credit>, begun: bool) {
    && (!begun ==> cs != [] && cs[0].Req?)
    && forall i :: (if begun then 0 else 1) <= i < |cs| ==> cs[i].Grant?
  }

  /** Who has seen the end of the response, hop by hop. */
  ghost predicate Ordered(s: Net) {
    && ReqFirst(s.toPage, s.page.begun)
    && (s.worker.ended ==> s.page.closed)
    && (s.page.closed ==> s.node.removed && s.toCarrier == [])
    && (!s.page.closed ==> EndsWhen(s.toCarrier, s.node.removed))
    && (s.worker.ended ==> s.toWorker == [])
    && (!s.worker.ended ==> EndsWhen(s.toWorker, s.page.closed))
  }

  /** The two partial sums: what the page counts, and what the worker counts on top of it. */
  ghost predicate Conserved(s: Net) {
    && s.page.credit == Demand(s.toNode) + s.node.available + s.node.held + |Frames(s.toCarrier)| + s.lostAtNode
    && s.worker.window.balance == Demand(s.toPage) + s.lostAtPage + s.page.credit + |Frames(s.toWorker)|
    && Positive(s.toPage) && Positive(s.toNode)
    && 0 <= s.node.available && 0 <= s.lostAtPage && 0 <= s.lostAtNode
    && (!s.page.begun ==> s.page.credit == 0)
    && (s.lostAtPage > 0 ==> s.page.closed)
  }

  /** Frames reach downstream in the order they were sent, none lost and none repeated. */
  ghost predicate InOrder(s: Net) {
    s.node.sent == s.worker.delivered + s.worker.queue + Frames(s.toWorker) + Frames(s.toCarrier)
  }

  predicate WithinLimit(frames: seq<Frame>) {
    forall i :: 0 <= i < |frames| ==> |frames[i]| <= MAX_PAYLOAD_BYTES
  }

  /** No guard of any hop has fired. */
  predicate Untroubled(s: Net) {
    !s.worker.failed && !s.page.rejected
  }

  ghost predicate Inv(s: Net, reentrant: bool) {
    && Untroubled(s)
    && Ordered(s)
    && Conserved(s)
    && InOrder(s)
    && WithinLimit(s.node.sent)
    && |s.worker.queue| == s.worker.window.queued
    && (s.worker.closed <==> s.worker.ended && s.worker.queue == [])
    && (!s.worker.ended ==> Aligned(s.worker.window, reentrant))
  }

  lemma {:induction false} DemandNonNegative(cs: seq<Credit>)
    requires Positive(cs)
    ensures Demand(cs) >= |cs|
    decreases |cs|
  {
    if cs != [] {
      DemandNonNegative(cs[1..]);
    }
  }

  lemma {:induction false} GrantsDemand(posts: seq<int>)
    ensures Demand(Grants(posts)) == Sum(posts)
    decreases |posts|
  {
    if posts != [] {
      GrantsDemand(posts[1..]);
      assert Grants(posts)[1..] == Grants(posts[1..]);
    }
  }

  predicate Positives(posts: seq<int>) {
    forall i :: 0 <= i < |posts| ==> posts[i] >= 1
  }

  /** A reply is booked when what it posted is what it added to the balance. */
  ghost predicate Booked(before: Window, r: Reply) {
    r.window.balance == before.balance + Sum(r.posts) && Positives(r.posts)
  }

  lemma RefillBooked(w: Window, force: bool, flush: bool)
    ensures Booked(w, Refill(w, force, flush))
    ensures Refill(w, force, flush).window.queued == w.queued
  {
  }

  lemma ConsumeBooked(w: Window, fast: bool)
    ensures Booked(w, Consume(w, fast))
    ensures Consume(w, fast).window.queued == w.queued
  {
    var (recorded, grew) := Record(w, fast);
    RefillBooked(recorded, false, grew);
  }

  lemma PullBooked(w: Window, fast: bool)
    requires w.queued >= 0
    ensures Booked(w, OnPull(w, fast))
    ensures OnPull(w, fast).window.queued == if w.queued > 0 then w.queued - 1 else 0
  {
    if w.queued > 0 {
      ConsumeBooked(w.(queued := w.queued - 1), fast);
    } else {
      RefillBooked(w.(waiting := true), true, false);
    }
  }

  lemma ChunkBooked(w: Window, fast: bool, reenter: bool)
    requires w.waiting ==> w.queued == 0
    requires w.balance > 0 && !OnChunk(w, fast, reenter).exceeded
    ensures Booked(w.(balance := w.balance - 1), OnChunk(w, fast, reenter))
    ensures OnChunk(w, fast, reenter).window.queued == if w.waiting then 0 else w.queued + 1
  {
    if w.waiting {
      var delivered := w.(balance := w.balance - 1, waiting := false);
      if reenter {
        PullBooked(delivered, false);
        var pulled := OnPull(delivered, false);
        ConsumeBooked(pulled.window, fast);
        SumConcat(pulled.posts, Consume(pulled.window, fast).posts);
      } else {
        ConsumeBooked(delivered, fast);
        assert [] + Consume(delivered, fast).posts == Consume(delivered, fast).posts;
      }
    }
  }

  // ---------------------------------------------------------------------------
  // Every step keeps the invariant
  // ---------------------------------------------------------------------------

  lemma InitInv(initial: int, reentrant: bool)
    requires SafeInitial(reentrant) <= initial <= MAX_RESPONSE_CREDITS
    ensures Inv(Init(initial), reentrant)
  {
    StartAligned(initial, reentrant);
  }

  /** The worker posts at the back of an ordered port. */
  lemma PostsAtBack(cs: seq<Credit>, posts: seq<int>, begun: bool)
    requires ReqFirst(cs, begun) && Positive(cs) && Positives(posts)
    ensures ReqFirst(cs + Grants(posts), begun) && Positive(cs + Grants(posts))
    ensures Demand(cs + Grants(posts)) == Demand(cs) + Sum(posts)
  {
    DemandConcat(cs, Grants(posts));
    GrantsDemand(posts);
  }

  /** One worker callback: booked, aligned while the response lasts, and `received` appended to what it has seen. */
  ghost predicate WorkerKept(w: Worker, w': Worker, posts: seq<int>, received: seq<Frame>, reentrant: bool) {
    && w'.window.balance == w.window.balance - |received| + Sum(posts)
    && Positives(posts)
    && |w'.queue| == w'.window.queued
    && w'.delivered + w'.queue == w.delivered + w.queue + received
    && w'.ended == w.ended && !w'.failed && (w'.closed <==> w'.ended && w'.queue == [])
    && (!w'.ended ==> Aligned(w'.window, reentrant))
  }

  lemma PullWorkerKept(w: Worker, fast: bool, reentrant: bool)
    requires !w.failed && |w.queue| == w.window.queued && (!w.ended ==> Aligned(w.window, reentrant))
    requires w.closed <==> w.ended && w.queue == []
    ensures var (w', posts) := PullWorker(w, fast);
            WorkerKept(w, w', posts, [], reentrant)
  {
    if !w.ended {
      PullKeepsAligned(w.window, fast, reentrant);
      PullBooked(w.window, fast);
    }
  }

  lemma ChunkWorkerKept(w: Worker, frame: Frame, fast: bool, reenter: bool, reentrant: bool)
    requires !w.failed && !w.ended && !w.closed && |w.queue| == w.window.queued && Aligned(w.window, reentrant)
    requires Legal(w.window, Chunk(fast, reenter), reentrant) && |frame| <= MAX_PAYLOAD_BYTES
    ensures var (w', posts) := ChunkWorker(w, frame, fast, reenter);
            WorkerKept(w, w', posts, [frame], reentrant)
  {
    NextKeepsAligned(w.window, Chunk(fast, reenter), reentrant);
    ChunkBooked(w.window, fast, reenter);
    ReplyKept(w, frame, OnChunk(w.window, fast, reenter), reentrant);
  }

  /** An accepted frame either passes straight through or joins the queue. */
  lemma ReplyKept(w: Worker, frame: Frame, reply: Reply, reentrant: bool)
    requires !w.failed && !w.ended && !w.closed && |w.queue| == w.window.queued
    requires w.window.waiting ==> w.queue == []
    requires Aligned(reply.window, reentrant) && Booked(w.window.(balance := w.window.balance - 1), reply)
    requires reply.window.queued == if w.window.waiting then 0 else w.window.queued + 1
    ensures var w' := if w.window.waiting then w.(window := reply.window, delivered := w.delivered + [frame])
                      else w.(window := reply.window, queue := w.queue + [frame]);
            WorkerKept(w, w', reply.posts, [frame], reentrant)
  {
  }

  lemma PullKeepsInv(s: Net, fast: bool, reentrant: bool)
    requires Inv(s, reentrant)
    ensures Inv(Do(s, WorkerPull(fast)), reentrant)
  {
    var (w', posts) := PullWorker(s.worker, fast);
    PullWorkerKept(s.worker, fast, reentrant);
    PostsAtBack(s.toPage, posts, s.page.begun);
    assert s.worker.delivered + s.worker.queue + [] == s.worker.delivered + s.worker.queue;
    WorkerStepKeepsInv(s, s.(worker := w', toPage := s.toPage + Grants(posts)), posts, reentrant);
  }

  lemma WorkerStepKeepsInv(s: Net, s': Net, posts: seq<int>, reentrant: bool)
    requires Inv(s, reentrant)
    requires WorkerKept(s.worker, s'.worker, posts, [], reentrant)
    requires s' == s.(worker := s'.worker, toPage := s'.toPage)
    requires ReqFirst(s'.toPage, s.page.begun) && Positive(s'.toPage)
    requires Demand(s'.toPage) == Demand(s.toPage) + Sum(posts)
    ensures Inv(s', reentrant)
  {
    assert s.worker.delivered + s.worker.queue + [] == s.worker.delivered + s.worker.queue;
  }

  /** Taking the head of a stream of bodies: either a body with the rest still a stream, or the final `End`. */
  lemma PopAnswer(answers: seq<Answer>, finished: bool)
    requires answers != [] && EndsWhen(answers, finished)
    ensures answers[0].Body? ==>
              EndsWhen(answers[1..], finished) && Frames(answers) == [answers[0].frame] + Frames(answers[1..])
    ensures answers[0].End? ==> finished && answers == [End] && Frames(answers) == []
  {
    assert answers[0].End? ==> answers[1..] == [];
  }

  lemma PushBody(answers: seq<Answer>, frame: Frame)
    requires EndsWhen(answers, false)
    ensures EndsWhen(answers + [Body(frame)], false)
    ensures Frames(answers + [Body(frame)]) == Frames(answers) + [frame]
  {
    FramesConcat(answers, [Body(frame)]);
  }

  lemma PushEnd(answers: seq<Answer>)
    requires EndsWhen(answers, false)
    ensures EndsWhen(answers + [End], true)
    ensures Frames(answers + [End]) == Frames(answers)
  {
    FramesConcat(answers, [End]);
  }

  lemma ReceiveBodyKeepsInv(s: Net, fast: bool, reenter: bool, reentrant: bool)
    requires Inv(s, reentrant) && Can(s, WorkerReceive(fast, reenter), reentrant) && s.toWorker[0].Body?
    ensures Inv(Do(s, WorkerReceive(fast, reenter)), reentrant)
  {
    PopAnswer(s.toWorker, s.page.closed);
    DemandNonNegative(s.toPage);
    DemandNonNegative(s.toNode);
    var f := s.toWorker[0].frame;
    assert f == s.node.sent[|s.worker.delivered + s.worker.queue|];
    var (w', posts) := ChunkWorker(s.worker, f, fast, reenter);
    ChunkWorkerKept(s.worker, f, fast, reenter, reentrant);
    PostsAtBack(s.toPage, posts, s.page.begun);
    OrderAfterReceive(s, w');
  }

  lemma ReceiveKeepsInv(s: Net, fast: bool, reenter: bool, reentrant: bool)
    requires Inv(s, reentrant) && Can(s, WorkerReceive(fast, reenter), reentrant)
    ensures Inv(Do(s, WorkerReceive(fast, reenter)), reentrant)
  {
    if s.toWorker[0].Body? {
      ReceiveBodyKeepsInv(s, fast, reenter, reentrant);
    } else {
      PopAnswer(s.toWorker, s.page.closed);
    }
  }

  lemma OrderAfterReceive(s: Net, w': Worker)
    requires s.toWorker != [] && s.toWorker[0].Body? && InOrder(s)
    requires w'.delivered + w'.queue == s.worker.delivered + s.worker.queue + [s.toWorker[0].frame]
    ensures s.node.sent == w'.delivered + w'.queue + Frames(s.toWorker[1..]) + Frames(s.toCarrier)
  {
    var f := [s.toWorker[0].frame];
    assert Frames(s.toWorker) == f + Frames(s.toWorker[1..]);
    assert s.worker.delivered + s.worker.queue + (f + Frames(s.toWorker[1..]))
        == s.worker.delivered + s.worker.queue + f + Frames(s.toWorker[1..]);
  }

  /** The page accepts every grant: what it counts plus the grant is still part of the worker's balance. */
  lemma GrantFitsPage(s: Net, reentrant: bool)
    requires Inv(s, reentrant) && s.toPage != [] && s.toPage[0].Grant? && !s.page.closed
    ensures GrantPage(s.page, s.toPage[0].n) == (s.page.(credit := s.page.credit + s.toPage[0].n), [s.toPage[0]])
  {
    DemandNonNegative(s.toPage[1..]);
    DemandNonNegative(s.toNode);
    assert s.page.credit + s.toPage[0].n <= s.worker.window.balance <= MAX_RESPONSE_CREDITS;
  }

  lemma PageDemandKeepsInv(s: Net, reentrant: bool)
    requires Inv(s, reentrant) && Can(s, PageDemand, reentrant)
    ensures Inv(Do(s, PageDemand), reentrant)
  {
    DemandConcat(s.toNode, [s.toPage[0]]);
    if s.toPage[0].Grant? && !s.page.closed {
      GrantFitsPage(s, reentrant);
    }
    assert s.toNode + [] == s.toNode;
  }

  lemma PageFrameKeepsInv(s: Net, reentrant: bool)
    requires Inv(s, reentrant) && Can(s, PageFrame, reentrant)
    ensures Inv(Do(s, PageFrame), reentrant)
  {
    PopAnswer(s.toCarrier, s.node.removed);
    DemandNonNegative(s.toNode);
    if s.toCarrier[0].Body? {
      var f := s.toCarrier[0].frame;
      PushBody(s.toWorker, f);
      var front := s.worker.delivered + s.worker.queue;
      assert front + Frames(s.toWorker) + ([f] + Frames(s.toCarrier[1..]))
          == front + (Frames(s.toWorker) + [f]) + Frames(s.toCarrier[1..]);
    } else {
      PushEnd(s.toWorker);
    }
  }

  /** The clamp at 64 never discards a credit: the node's window is a part of the worker's balance. */
  lemma NodeDemandKeepsInv(s: Net, reentrant: bool)
    requires Inv(s, reentrant) && Can(s, NodeDemand, reentrant)
    ensures Inv(Do(s, NodeDemand), reentrant)
  {
    DemandNonNegative(s.toPage);
    DemandNonNegative(s.toNode[1..]);
    if !s.node.removed {
      assert s.node.available + s.toNode[0].n <= s.worker.window.balance <= MAX_RESPONSE_CREDITS;
    }
  }

  lemma NodeSendsKeepInv(s: Net, step: Step, reentrant: bool)
    requires Inv(s, reentrant) && Can(s, step, reentrant)
    requires step.NodeTake? || step.NodeSend? || step.NodeSpendNothing? || step.NodeFinish?
    ensures Inv(Do(s, step), reentrant)
  {
    if step.NodeSend? {
      PushBody(s.toCarrier, step.frame);
      var front := s.worker.delivered + s.worker.queue + Frames(s.toWorker);
      assert front + (Frames(s.toCarrier) + [step.frame]) == front + Frames(s.toCarrier) + [step.frame];
    } else if step.NodeFinish? {
      PushEnd(s.toCarrier);
    }
  }

  lemma StepKeepsInv(s: Net, step: Step, reentrant: bool)
    requires Inv(s, reentrant) && Can(s, step, reentrant)
    ensures Inv(Do(s, step), reentrant)
  {
    match step
    case WorkerPull(fast) => PullKeepsInv(s, fast, reentrant);
    case WorkerReceive(fast, reenter) => ReceiveKeepsInv(s, fast, reenter, reentrant);
    case PageDemand => PageDemandKeepsInv(s, reentrant);
    case PageFrame => PageFrameKeepsInv(s, reentrant);
    case NodeDemand => NodeDemandKeepsInv(s, reentrant);
    case NodeTake => NodeSendsKeepInv(s, step, reentrant);
    case NodeSend(_) => NodeSendsKeepInv(s, step, reentrant);
    case NodeSpendNothing => NodeSendsKeepInv(s, step, reentrant);
    case NodeFinish => NodeSendsKeepInv(s, step, reentrant);
  }

  // ---------------------------------------------------------------------------
  // Results over every run
  // ---------------------------------------------------------------------------

  lemma {:induction false} RunInv(initial: int, reentrant: bool, states: seq<Net>, steps: seq<Step>, k: nat)
    requires SafeInitial(reentrant) <= initial <= MAX_RESPONSE_CREDITS
    requires IsRun(initial, reentrant, states, steps) && k < |states|
    ensures Inv(states[k], reentrant)
    decreases k
  {
    if k == 0 {
      InitInv(initial, reentrant);
    } else {
      RunInv(initial, reentrant, states, steps, k - 1);
      StepKeepsInv(states[k - 1], steps[k - 1], reentrant);
    }
  }

  /** In every run no hop rejects or overflows, and downstream sees a prefix of what the node sent; once it is told
      that no more will come, all of it. */
  lemma CompliantRunsAreUntroubled(initial: int, reentrant: bool, states: seq<Net>, steps: seq<Step>, k: nat)
    requires SafeInitial(reentrant) <= initial <= MAX_RESPONSE_CREDITS
    requires IsRun(initial, reentrant, states, steps) && k < |states|
    ensures Untroubled(states[k])
    ensures states[k].worker.delivered <= states[k].node.sent
    ensures states[k].worker.ended ==> states[k].node.sent == states[k].worker.delivered + states[k].worker.queue
    ensures states[k].worker.closed ==> states[k].node.removed && states[k].worker.delivered == states[k].node.sent
  {
    RunInv(initial, reentrant, states, steps, k);
  }

  /** Credit or a frame is in flight, or the node can send. */
  predicate Moving(s: Net) {
    || s.toPage != [] || s.toNode != [] || s.toCarrier != [] || s.toWorker != []
    || s.node.held > 0 || s.node.available > 0
  }

  /** A worker that waits on an empty queue is left with nothing to wait for exactly when a live node has spent every
      credit of its on empty reads. */
  lemma StarvedExactlyWhen(initial: int, reentrant: bool, states: seq<Net>, steps: seq<Step>, k: nat)
    requires SafeInitial(reentrant) <= initial <= MAX_RESPONSE_CREDITS
    requires IsRun(initial, reentrant, states, steps) && k < |states|
    requires states[k].worker.window.waiting && !states[k].worker.ended
    ensures var s := states[k];
            && s.worker.window.balance >= 1
            && (!Moving(s) <==> !s.node.removed && s.lostAtNode == s.worker.window.balance)
  {
    RunInv(initial, reentrant, states, steps, k);
    var s := states[k];
    EmptyQueueHasCredit(s.worker.window, reentrant);
    DemandNonNegative(s.toPage);
    DemandNonNegative(s.toNode);
    if !s.node.removed {
      OnlyBodies(s.toCarrier);
      OnlyBodies(s.toWorker);
    }
  }

  lemma {:induction false} OnlyBodies(answers: seq<Answer>)
    requires EndsWhen(answers, false)
    ensures |Frames(answers)| == |answers|
    decreases |answers|
  {
    if answers != [] {
      assert answers[0].Body?;
      OnlyBodies(answers[1..]);
    }
  }

  /** Short of empty reads by a live node, a waiting worker is never starved. */
  lemma WaitingWorkerIsNeverStarved(initial: int, reentrant: bool, states: seq<Net>, steps: seq<Step>, k: nat)
    requires SafeInitial(reentrant) <= initial <= MAX_RESPONSE_CREDITS
    requires IsRun(initial, reentrant, states, steps) && k < |states|
    requires states[k].worker.window.waiting && !states[k].worker.ended
    requires states[k].node.removed || states[k].lostAtNode == 0
    ensures Moving(states[k])
  {
    StarvedExactlyWhen(initial, reentrant, states, steps, k);
  }

  ghost predicate Reaches(initial: int, reentrant: bool, s: Net) {
    exists states: seq<Net>, steps: seq<Step> ::
      IsRun(initial, reentrant, states, steps) && states[|states| - 1] == s
  }

  lemma ReachesNext(initial: int, reentrant: bool, s: Net, step: Step)
    requires Reaches(initial, reentrant, s) && Can(s, step, reentrant)
    ensures Reaches(initial, reentrant, Do(s, step))
  {
    var states: seq<Net>, steps: seq<Step> :| IsRun(initial, reentrant, states, steps) && states[|states| - 1] == s;
    var states', steps' := states + [Do(s, step)], steps + [step];
    forall i | 0 <= i < |steps'|
      ensures Can(states'[i], steps'[i], reentrant) && states'[i + 1] == Do(states'[i], steps'[i])
    {
      if i < |steps| {
        assert states'[i] == states[i] && states'[i + 1] == states[i + 1] && steps'[i] == steps[i];
      }
    }
    assert IsRun(initial, reentrant, states', steps') && states'[|states'| - 1] == Do(s, step);
  }

  /** A node that has begun with the whole window and read nothing `n` times. */
  function ReadNothing(initial: int, n: int): Net {
    Net(NewWorker(initial), [], Page(true, false, false, initial), [],
        Node(true, false, initial - n, 0, []), [], [], 0, n)
  }

  lemma {:induction false} ReadsNothing(initial: int, reentrant: bool, n: nat)
    requires 1 <= initial <= MAX_RESPONSE_CREDITS && n <= initial
    ensures Reaches(initial, reentrant, ReadNothing(initial, n))
    decreases n
  {
    if n == 0 {
      var s := Init(initial);
      assert IsRun(initial, reentrant, [s], []);
      ReachesNext(initial, reentrant, s, PageDemand);
      s := Do(s, PageDemand);
      ReachesNext(initial, reentrant, s, NodeDemand);
      assert Do(s, NodeDemand) == ReadNothing(initial, 0);
    } else {
      var s := ReadNothing(initial, n - 1);
      ReadsNothing(initial, reentrant, n - 1);
      ReachesNext(initial, reentrant, s, NodeTake);
      s := Do(s, NodeTake);
      ReachesNext(initial, reentrant, s, NodeSpendNothing);
      assert Do(s, NodeSpendNothing) == ReadNothing(initial, n);
    }
  }

  /** A source that keeps yielding nothing starves the worker for good. */
  lemma EmptyReadsStarve(initial: int, reentrant: bool)
    requires 1 <= initial <= MAX_RESPONSE_CREDITS
    ensures exists s :: Reaches(initial, reentrant, s) && s.worker.window.waiting && !s.worker.ended && !Moving(s)
  {
    ReadsNothing(initial, reentrant, initial);
    var s := ReadNothing(initial, initial);
    ReachesNext(initial, reentrant, s, WorkerPull(false));
    var starved := Do(s, WorkerPull(false));
    assert starved.worker.window.waiting && !Moving(starved);
  }
}
