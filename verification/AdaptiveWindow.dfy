/** The service worker's adaptive response window.

One `Window` is the set of closure variables that `SwBridge.request` keeps for a
response stream. A `Pull` is the downstream demand callback, a `Chunk` is a body
frame that the page forwarded. Wall-clock time only decides whether a sample
counts as fast, so `fast` is a free choice of the environment.

`controller.enqueue` may call `pull` synchronously, before the consumption of the
chunk just delivered is recorded. `reenter` says that it did.
 */
module AdaptiveWindow {
  import opened Limits

  const CREDIT_REFILL := 8
  const CREDIT_SAMPLE_FRAMES := 16
  const CREDIT_GROWTH_STEP := 8

  datatype Window = Window(
    initial: int,
    target: int,
    balance: int,
    queued: int,
    waiting: bool,
    sampleConsumed: int,
    samplePeak: int)
  {
    /** Frames of the window that are neither outstanding credit nor queued. */
    function Slack(): int { target - balance - queued }
  }

  datatype Event = Chunk(fast: bool, reenter: bool) | Pull(fast: bool)

  /** What one callback did: the new window, the credit messages it posted, and whether it failed the stream. */
  datatype Reply = Reply(window: Window, posts: seq<int>, exceeded: bool)

  function Start(initial: int): Window {
    Window(initial, initial, initial, 0, false, 0, 0)
  }

  function Min(a: int, b: int): int { if a <= b then a else b }
  function Max(a: int, b: int): int { if a <= b then b else a }
  function HalfUp(n: int): int { (n + 1) / 2 }

  function Threshold(target: int): int { Min(CREDIT_REFILL, HalfUp(target)) }

  /** `refillCredit`: tops the balance up to the target once a whole batch is free. */
  function Refill(w: Window, force: bool, flushGrowth: bool): Reply {
    var available := w.Slack();
    if available <= 0 then Reply(w, [], false)
    else if available < Threshold(w.target) && !flushGrowth && !(force && w.balance == 0) then Reply(w, [], false)
    else Reply(w.(balance := w.balance + available), [available], false)
  }

  /** `recordConsumption`: counts one consumed frame and adapts the target at the end of a sample. */
  function Record(w: Window, fast: bool): (Window, bool) {
    var consumed := w.sampleConsumed + 1;
    if consumed < CREDIT_SAMPLE_FRAMES then (w.(sampleConsumed := consumed), false)
    else
      var grow := fast && w.samplePeak <= 2 && w.target < MAX_RESPONSE_CREDITS;
      var shrink := !grow && w.samplePeak >= HalfUp(w.target) && w.target > w.initial;
      var target :=
        if grow then Min(MAX_RESPONSE_CREDITS, w.target + CREDIT_GROWTH_STEP)
        else if shrink then Max(w.initial, w.target - CREDIT_GROWTH_STEP)
        else w.target;
      (w.(target := target, sampleConsumed := 0, samplePeak := w.queued), grow)
  }

  /** Records a consumption, then refills; the tail shared by both callbacks. */
  function Consume(w: Window, fast: bool): Reply {
    var (recorded, grew) := Record(w, fast);
    Refill(recorded, false, grew)
  }

  /** `onPull`. */
  function OnPull(w: Window, fast: bool): Reply {
    if w.queued > 0 then Consume(w.(queued := w.queued - 1), fast)
    else Refill(w.(waiting := true), true, false)
  }

  /** `onChunk`, with the optional synchronous `pull` made by `controller.enqueue`. */
  function OnChunk(w: Window, fast: bool, reenter: bool): Reply {
    if w.balance <= 0 then Reply(w, [], true)
    else
      var spent := w.(balance := w.balance - 1);
      if spent.waiting then
        var delivered := spent.(waiting := false);
        var pulled := if reenter then OnPull(delivered, false) else Reply(delivered, [], false);
        var rest := Consume(pulled.window, fast);
        Reply(rest.window, pulled.posts + rest.posts, false)
      else if spent.queued >= spent.target then Reply(spent, [], true)
      else Reply(spent.(queued := spent.queued + 1, samplePeak := Max(spent.samplePeak, spent.queued + 1)), [], false)
  }

  function Next(w: Window, e: Event): Reply {
    match e
    case Chunk(fast, reenter) => OnChunk(w, fast, reenter)
    case Pull(fast) => OnPull(w, fast)
  }

  /** A compliant node sends a frame only against an outstanding credit. */
  predicate Legal(w: Window, e: Event, reentrant: bool) {
    e.Chunk? ==> w.balance > 0 && (e.reenter ==> reentrant && w.waiting)
  }

  function Play(w: Window, es: seq<Event>): Window
    decreases |es|
  {
    if es == [] then w else Play(Next(w, es[0]).window, es[1..])
  }

  predicate LegalRun(w: Window, es: seq<Event>, reentrant: bool)
    decreases |es|
  {
    es == [] || (Legal(w, es[0], reentrant) && LegalRun(Next(w, es[0]).window, es[1..], reentrant))
  }

  /** The window the code means to keep: what is outstanding or queued fits the target, the target the cap. */
  predicate InBound(w: Window) {
    w.balance + w.queued <= w.target <= MAX_RESPONSE_CREDITS
  }

  /** The smallest initial window for which the bound survives every run. */
  function SafeInitial(reentrant: bool): int { if reentrant then 24 else 7 }

  // ---------------------------------------------------------------------------
  // The alignment invariant
  // ---------------------------------------------------------------------------

  /** The part of the invariant that a consumption leaves alone. */
  ghost predicate Shaped(w: Window, reentrant: bool) {
    && SafeInitial(reentrant) <= w.initial <= w.target <= MAX_RESPONSE_CREDITS
    && 0 <= w.balance
    && 0 <= w.queued
    && (w.waiting ==> w.queued == 0)
    && 0 <= w.sampleConsumed < CREDIT_SAMPLE_FRAMES
    && OnGrid(w.initial, w.target)
  }

  /** The slack is the number of frames consumed since the last refill. */
  ghost predicate InPhase(w: Window, slack: int) {
    && 0 <= slack < Threshold(w.target)
    && (w.target > w.initial ==> slack == Phase(w.target, w.sampleConsumed))
  }

  /** Above its initial value the target moves only at sample boundaries where the slack is a whole refill batch. */
  ghost predicate Aligned(w: Window, reentrant: bool) {
    && Shaped(w, reentrant)
    && InPhase(w, w.Slack())
    && 0 <= w.samplePeak <= w.queued + w.sampleConsumed
  }

  /** The positive multiples of the growth step up to the cap. */
  predicate Eights(n: int) {
    n == 8 || n == 16 || n == 24 || n == 32 || n == 40 || n == 48 || n == 56 || n == 64
  }

  /** Targets climb in steps from the initial window and descend in steps from the cap. */
  predicate OnGrid(initial: int, target: int) {
    target == initial || Eights(target) || Eights(target - initial)
  }

  /** Frames consumed since the last refill, for the targets above an initial window of at least 7. */
  function Phase(target: int, consumed: int): int {
    if consumed < 4 then consumed
    else if target == 8 then
      (if consumed < 8 then consumed - 4 else if consumed < 12 then consumed - 8 else consumed - 12)
    else if consumed < 8 then consumed else consumed - 8
  }

  lemma StartAligned(initial: int, reentrant: bool)
    requires SafeInitial(reentrant) <= initial <= MAX_RESPONSE_CREDITS
    ensures Aligned(Start(initial), reentrant)
  {
  }

  /** Above the initial window the refill batch is a whole eight, except at target 8 where it is four. */
  lemma ThresholdAboveInitial(initial: int, target: int)
    requires 7 <= initial < target <= MAX_RESPONSE_CREDITS && OnGrid(initial, target)
    ensures target == 8 || target >= 15
    ensures Threshold(target) == if target == 8 then 4 else 8
    ensures initial >= 24 ==> target >= 32
  {
  }

  lemma ShrunkTargetOnGrid(initial: int, target: int)
    requires 7 <= initial < target <= MAX_RESPONSE_CREDITS && OnGrid(initial, target)
    ensures OnGrid(initial, Max(initial, target - CREDIT_GROWTH_STEP))
    ensures target == 8 ==> initial == 7
  {
  }

  /** A frame just left the window, so the slack is one above the aligned value. */
  ghost predicate JustConsumed(w: Window, reentrant: bool) {
    && Shaped(w, reentrant)
    && InPhase(w, w.Slack() - 1)
    && 0 <= w.samplePeak <= w.queued + w.sampleConsumed + 1
  }

  lemma MidSampleKeepsAligned(w: Window, fast: bool, reentrant: bool)
    requires JustConsumed(w, reentrant) && w.sampleConsumed < CREDIT_SAMPLE_FRAMES - 1
    ensures Aligned(Consume(w, fast).window, reentrant)
  {
    if w.target > w.initial {
      ThresholdAboveInitial(w.initial, w.target);
    }
  }

  /** A growing sample flushes its new credits, which leaves no slack at all. */
  lemma GrowthKeepsAligned(w: Window, reentrant: bool)
    requires JustConsumed(w, reentrant) && w.sampleConsumed == CREDIT_SAMPLE_FRAMES - 1
    requires Record(w, true).1
    ensures Aligned(Consume(w, true).window, reentrant)
    ensures Consume(w, true).window.Slack() == 0
  {
    var grown := Consume(w, true).window;
    assert grown.target == Min(MAX_RESPONSE_CREDITS, w.target + CREDIT_GROWTH_STEP);
    assert grown.Slack() == 0;
  }

  /** Every other sample ends with exactly one free batch, which the shrink takes back or the refill hands out. */
  lemma ShrinkKeepsAligned(w: Window, fast: bool, reentrant: bool)
    requires JustConsumed(w, reentrant) && w.sampleConsumed == CREDIT_SAMPLE_FRAMES - 1
    requires w.target > w.initial && Record(w, fast).0.target < w.target
    ensures Aligned(Consume(w, fast).window, reentrant)
  {
    ThresholdAboveInitial(w.initial, w.target);
    ShrunkTargetOnGrid(w.initial, w.target);
    var recorded := Record(w, fast).0;
    assert w.Slack() == Threshold(w.target);
    if recorded.target > w.initial {
      assert recorded.Slack() == 0;
    } else {
      assert 0 <= recorded.Slack() < 8;
      RefillSettles(recorded);
    }
  }

  /** Whatever the slack, an unforced refill leaves less than a batch of it. */
  lemma RefillSettles(w: Window)
    requires 1 <= w.target && 0 <= w.Slack()
    ensures 0 <= Refill(w, false, false).window.Slack() < Threshold(w.target)
    ensures Refill(w, false, false).window == w.(balance := Refill(w, false, false).window.balance)
    ensures Refill(w, false, false).window.balance >= w.balance
  {
  }

  lemma SteadyKeepsAligned(w: Window, fast: bool, reentrant: bool)
    requires JustConsumed(w, reentrant) && w.sampleConsumed == CREDIT_SAMPLE_FRAMES - 1
    requires Record(w, fast).0.target == w.target
    ensures Aligned(Consume(w, fast).window, reentrant)
  {
    if w.target > w.initial {
      ThresholdAboveInitial(w.initial, w.target);
    }
  }

  lemma ConsumeKeepsAligned(w: Window, fast: bool, reentrant: bool)
    requires JustConsumed(w, reentrant)
    ensures Aligned(Consume(w, fast).window, reentrant)
  {
    var recorded := Record(w, fast).0;
    if w.sampleConsumed < CREDIT_SAMPLE_FRAMES - 1 {
      MidSampleKeepsAligned(w, fast, reentrant);
    } else if Record(w, fast).1 {
      GrowthKeepsAligned(w, reentrant);
    } else if recorded.target < w.target {
      ShrinkKeepsAligned(w, fast, reentrant);
    } else {
      SteadyKeepsAligned(w, fast, reentrant);
    }
  }

  /** A synchronous pull may refill before the consumption is recorded; the peak bound then rules out a shrink. */
  lemma EarlyRefillKeepsAligned(w: Window, fast: bool)
    requires Shaped(w, true) && w.Slack() == 0 && w.queued == 0
    requires 0 <= w.samplePeak <= w.sampleConsumed
    requires w.target > w.initial ==> Phase(w.target, w.sampleConsumed) == 7
    ensures Aligned(Consume(w, fast).window, true)
  {
    var (recorded, grew) := Record(w, fast);
    if w.target > w.initial {
      ThresholdAboveInitial(w.initial, w.target);
      assert w.samplePeak <= CREDIT_SAMPLE_FRAMES - 1 < HalfUp(w.target);
    }
    if grew {
      assert Consume(w, fast).window.Slack() == 0;
    } else {
      assert recorded.target == w.target;
      assert Consume(w, fast).window == recorded;
    }
  }

  /** What a synchronous pull sees: an empty queue, one frame of extra slack, and perhaps a whole batch to refill. */
  function Repulled(w: Window): Window {
    if w.Slack() + 1 < Threshold(w.target) then w.(balance := w.balance - 1) else w.(balance := w.target)
  }

  lemma ReenterPull(w: Window, reentrant: bool)
    requires Aligned(w, reentrant) && w.waiting && w.balance > 0
    ensures OnPull(w.(balance := w.balance - 1, waiting := false), false).window == Repulled(w)
  {
    assert Threshold(w.target) <= HalfUp(w.target) < w.target;
  }

  lemma RepulledKeepsAligned(w: Window, fast: bool)
    requires Aligned(w, true) && w.waiting && w.balance > 0
    ensures Aligned(Consume(Repulled(w), fast).window, true)
  {
    if w.target > w.initial {
      ThresholdAboveInitial(w.initial, w.target);
    }
    if w.Slack() + 1 < Threshold(w.target) {
      ConsumeKeepsAligned(Repulled(w), fast, true);
    } else {
      EarlyRefillKeepsAligned(Repulled(w), fast);
    }
  }

  lemma ReenterKeepsAligned(w: Window, fast: bool)
    requires Aligned(w, true) && w.waiting && w.balance > 0
    ensures Aligned(OnChunk(w, fast, true).window, true)
  {
    ReenterPull(w, true);
    RepulledKeepsAligned(w, fast);
  }

  /** An empty queue leaves a frame outstanding: no forced refill fires, and a parked pull has a frame to await. */
  lemma EmptyQueueHasCredit(w: Window, reentrant: bool)
    requires Aligned(w, reentrant) && w.queued == 0
    ensures w.balance >= 1
    ensures OnPull(w, false) == Reply(w.(waiting := true), [], false)
  {
    assert Threshold(w.target) <= HalfUp(w.target) <= w.target;
  }

  lemma PullKeepsAligned(w: Window, fast: bool, reentrant: bool)
    requires Aligned(w, reentrant)
    ensures Aligned(OnPull(w, fast).window, reentrant)
  {
    if w.queued > 0 {
      ConsumeKeepsAligned(w.(queued := w.queued - 1), fast, reentrant);
    } else {
      EmptyQueueHasCredit(w, reentrant);
    }
  }

  /** A frame that finds no parked pull moves from outstanding to queued. */
  lemma QueueingKeepsAligned(w: Window, w': Window, reentrant: bool)
    requires Aligned(w, reentrant) && w.balance > 0 && !w.waiting
    requires w' == w.(balance := w.balance - 1, queued := w.queued + 1, samplePeak := w'.samplePeak)
    requires w'.samplePeak == Max(w.samplePeak, w.queued + 1)
    ensures Aligned(w', reentrant)
  {
  }

  lemma DeliveryConsumes(w: Window, fast: bool)
    requires w.balance > 0 && w.waiting
    ensures OnChunk(w, fast, false).window == Consume(w.(balance := w.balance - 1, waiting := false), fast).window
  {
  }

  lemma DeliveryKeepsAligned(w: Window, fast: bool, reentrant: bool)
    requires Aligned(w, reentrant) && w.balance > 0 && w.waiting
    ensures Aligned(OnChunk(w, fast, false).window, reentrant)
  {
    var delivered := w.(balance := w.balance - 1, waiting := false);
    assert Aligned(Consume(delivered, fast).window, reentrant) by {
      ConsumeKeepsAligned(delivered, fast, reentrant);
    }
    DeliveryConsumes(w, fast);
  }

  lemma ChunkKeepsAligned(w: Window, fast: bool, reentrant: bool)
    requires Aligned(w, reentrant) && w.balance > 0
    ensures Aligned(OnChunk(w, fast, false).window, reentrant)
  {
    if w.waiting {
      DeliveryKeepsAligned(w, fast, reentrant);
    } else {
      QueueingKeepsAligned(w, OnChunk(w, fast, false).window, reentrant);
    }
  }

  /** No legal callback breaks the alignment or fails the stream. */
  lemma NextKeepsAligned(w: Window, e: Event, reentrant: bool)
    requires Aligned(w, reentrant) && Legal(w, e, reentrant)
    ensures Aligned(Next(w, e).window, reentrant)
    ensures !Next(w, e).exceeded
  {
    match e
    case Pull(fast) => PullKeepsAligned(w, fast, reentrant);
    case Chunk(fast, reenter) =>
      if reenter {
        ReenterKeepsAligned(w, fast);
      } else {
        ChunkKeepsAligned(w, fast, reentrant);
      }
  }

  lemma {:induction false} RunKeepsAligned(w: Window, es: seq<Event>, reentrant: bool)
    requires Aligned(w, reentrant) && LegalRun(w, es, reentrant)
    ensures Aligned(Play(w, es), reentrant)
    decreases |es|
  {
    if es != [] {
      NextKeepsAligned(w, es[0], reentrant);
      RunKeepsAligned(Next(w, es[0]).window, es[1..], reentrant);
    }
  }
}
