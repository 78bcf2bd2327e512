/** For which initial windows the adaptive window keeps its bound: exactly those of at least
7 frames, or at least 24 when `controller.enqueue` re-enters `pull`.

The failing windows are shown by explicit runs, built from four phases: grow the target,
fill the queue to half the target, drain it, and let the sample end shrink the target while
less than a whole batch is free.
 */
module WindowLimits {
  import opened Limits
  import opened AdaptiveWindow

  ghost predicate Reach(w: Window, w': Window, reentrant: bool) {
    exists es: seq<Event> :: LegalRun(w, es, reentrant) && Play(w, es) == w'
  }

  lemma ReachSelf(w: Window, reentrant: bool)
    ensures Reach(w, w, reentrant)
  {
    assert LegalRun(w, [], reentrant) && Play(w, []) == w;
  }

  lemma {:induction false} PlayConcat(w: Window, a: seq<Event>, b: seq<Event>, reentrant: bool)
    requires LegalRun(w, a, reentrant) && LegalRun(Play(w, a), b, reentrant)
    ensures LegalRun(w, a + b, reentrant) && Play(w, a + b) == Play(Play(w, a), b)
    decreases |a|
  {
    if a == [] {
      assert a + b == b;
    } else {
      PlayConcat(Next(w, a[0]).window, a[1..], b, reentrant);
      assert (a + b)[1..] == a[1..] + b;
    }
  }

  lemma ReachThen(w: Window, w': Window, e: Event, reentrant: bool)
    requires Reach(w, w', reentrant) && Legal(w', e, reentrant)
    ensures Reach(w, Next(w', e).window, reentrant)
  {
    var es :| LegalRun(w, es, reentrant) && Play(w, es) == w';
    assert Play(w', [e]) == Play(Next(w', e).window, [e][1..]) == Next(w', e).window;
    assert LegalRun(Next(w', e).window, [e][1..], reentrant);
    PlayConcat(w, es, [e], reentrant);
    assert LegalRun(w, es + [e], reentrant);
  }

  /** Mid-sample, with `queued` frames waiting and less than a batch of slack; in phase once batches are eight. */
  ghost predicate Midway(w: Window, initial: int, target: int, queued: int, consumed: int, peak: int) {
    && w == Window(initial, target, w.balance, queued, false, consumed, peak)
    && 1 <= initial <= target <= MAX_RESPONSE_CREDITS
    && 0 <= queued && 0 <= consumed < CREDIT_SAMPLE_FRAMES
    && 0 <= w.Slack() < Threshold(target)
    && (target >= 15 ==> w.Slack() == Phase(target, consumed))
    && (queued == 0 ==> w.balance >= 1)
  }

  /** A sample has just begun with a whole window committed. */
  function Settled(initial: int, target: int, queued: int): Window {
    Window(initial, target, target - queued, queued, false, 0, queued)
  }

  lemma EmptyMidwayHasCredit(w: Window)
    requires 1 <= w.target && w.queued == 0 && 0 <= w.Slack() < Threshold(w.target)
    ensures w.balance >= 1
  {
    assert Threshold(w.target) <= HalfUp(w.target) <= w.target;
  }

  /** One mid-sample consumption, in terms of the slack alone. */
  lemma ConsumeMidway(w: Window, fast: bool)
    requires 1 <= w.target <= MAX_RESPONSE_CREDITS
    requires 0 <= w.sampleConsumed < CREDIT_SAMPLE_FRAMES - 1
    requires 0 < w.Slack() <= Threshold(w.target)
    ensures var full := w.Slack() == Threshold(w.target);
            Consume(w, fast).window
            == w.(sampleConsumed := w.sampleConsumed + 1, balance := if full then w.balance + w.Slack() else w.balance)
  {
  }

  lemma Drain(w: Window, start: Window, target: int, reentrant: bool, peak: int) returns (w': Window)
    requires Reach(start, w, reentrant)
    requires Midway(w, start.initial, target, 0, w.sampleConsumed, peak) && w.sampleConsumed < CREDIT_SAMPLE_FRAMES - 1
    ensures Reach(start, w', reentrant)
    ensures Midway(w', start.initial, target, 0, w.sampleConsumed + 1, peak)
  {
    var parked := w.(waiting := true);
    assert OnPull(w, false).window == parked;
    ReachThen(start, w, Pull(false), reentrant);
    var spent := w.(balance := w.balance - 1);
    ConsumeMidway(spent, false);
    w' := Consume(spent, false).window;
    assert Next(parked, Chunk(false, false)).window == w';
    ReachThen(start, parked, Chunk(false, false), reentrant);
    EmptyMidwayHasCredit(w');
  }

  lemma {:induction false} DrainToSampleEnd(w: Window, start: Window, target: int, reentrant: bool, peak: int)
    returns (w': Window)
    requires Reach(start, w, reentrant)
    requires Midway(w, start.initial, target, 0, w.sampleConsumed, peak)
    ensures Reach(start, w', reentrant)
    ensures Midway(w', start.initial, target, 0, CREDIT_SAMPLE_FRAMES - 1, peak)
    decreases CREDIT_SAMPLE_FRAMES - w.sampleConsumed
  {
    if w.sampleConsumed == CREDIT_SAMPLE_FRAMES - 1 {
      w' := w;
    } else {
      w' := Drain(w, start, target, reentrant, peak);
      w' := DrainToSampleEnd(w', start, target, reentrant, peak);
    }
  }

  lemma {:induction false} Push(w: Window, start: Window, n: nat, reentrant: bool)
    requires Reach(start, w, reentrant) && !w.waiting
    requires n <= w.balance && w.samplePeak <= w.queued + n && w.queued + n <= w.target
    requires n == 0 ==> w.samplePeak == w.queued
    ensures Reach(start, w.(balance := w.balance - n, queued := w.queued + n, samplePeak := w.queued + n), reentrant)
    decreases n
  {
    if n == 0 {
      assert w == w.(balance := w.balance - n, queued := w.queued + n, samplePeak := w.queued + n);
    } else {
      ReachThen(start, w, Chunk(false, false), reentrant);
      var w' := Next(w, Chunk(false, false)).window;
      if n == 1 {
        assert w' == w.(balance := w.balance - n, queued := w.queued + n, samplePeak := w.queued + n);
      } else {
        Push(w', start, n - 1, reentrant);
      }
    }
  }

  lemma {:induction false} Pop(w: Window, start: Window, target: int, n: nat, reentrant: bool) returns (w': Window)
    requires Reach(start, w, reentrant)
    requires Midway(w, start.initial, target, w.queued, w.sampleConsumed, w.samplePeak)
    requires n <= w.queued && w.sampleConsumed + n < CREDIT_SAMPLE_FRAMES
    ensures Reach(start, w', reentrant)
    ensures Midway(w', start.initial, target, w.queued - n, w.sampleConsumed + n, w.samplePeak)
    decreases n
  {
    w' := w;
    if n > 0 {
      ReachThen(start, w, Pull(false), reentrant);
      w' := OnPull(w, false).window;
      ConsumeMidway(w.(queued := w.queued - 1), false);
      if w'.queued == 0 {
        EmptyMidwayHasCredit(w');
      }
      w' := Pop(w', start, target, n - 1, reentrant);
    }
  }

  /** A fast sample on an idle queue raises the target by one step. */
  lemma Grow(start: Window, target: int, reentrant: bool)
    requires 1 <= start.initial <= target < MAX_RESPONSE_CREDITS
    requires Reach(start, Settled(start.initial, target, 0), reentrant)
    ensures Reach(start, Settled(start.initial, Min(MAX_RESPONSE_CREDITS, target + 8), 0), reentrant)
  {
    var w := DrainToSampleEnd(Settled(start.initial, target, 0), start, target, reentrant, 0);
    ReachThen(start, w, Pull(false), reentrant);
    var parked := w.(waiting := true);
    assert OnPull(w, false).window == parked;
    ReachThen(start, parked, Chunk(true, false), reentrant);
  }

  /** A sample whose queue held half the window lowers the target by one step, and here takes back exactly one batch. */
  lemma Shrink(start: Window, target: int, queued: nat, reentrant: bool)
    requires 1 <= start.initial <= target - 8 && 31 <= target <= MAX_RESPONSE_CREDITS
    requires queued < HalfUp(target)
    requires Reach(start, Settled(start.initial, target, queued), reentrant)
    ensures Reach(start, Settled(start.initial, target - 8, HalfUp(target) - CREDIT_SAMPLE_FRAMES), reentrant)
  {
    var half := HalfUp(target);
    Push(Settled(start.initial, target, queued), start, half - queued, reentrant);
    var full := Settled(start.initial, target, half);
    var w := Pop(full, start, target, CREDIT_SAMPLE_FRAMES - 1, reentrant);
    ReachThen(start, w, Pull(false), reentrant);
    assert OnPull(w, false).window == Settled(start.initial, target - 8, half - CREDIT_SAMPLE_FRAMES);
  }

  /** Fills half the window, drains it, and stops one consumption short of the sample end. */
  lemma PeakThenDrain(start: Window, target: int, reentrant: bool) returns (w: Window)
    requires 1 <= start.initial < target <= 30
    requires Reach(start, Settled(start.initial, target, 0), reentrant)
    ensures Reach(start, w, reentrant)
    ensures Midway(w, start.initial, target, 0, CREDIT_SAMPLE_FRAMES - 1, HalfUp(target))
  {
    var half := HalfUp(target);
    Push(Settled(start.initial, target, 0), start, half, reentrant);
    var full := Settled(start.initial, target, half);
    w := Pop(full, start, target, half, reentrant);
    w := DrainToSampleEnd(w, start, target, reentrant, half);
  }

  ghost predicate Breaks(initial: int, reentrant: bool) {
    exists w :: Reach(Start(initial), w, reentrant) && !InBound(w)
  }

  /** A legal run ends in a frame that the worker answers by failing the stream. */
  ghost predicate Fails(initial: int, reentrant: bool) {
    exists w :: Reach(Start(initial), w, reentrant) && w.balance > 0 && OnChunk(w, false, false).exceeded
  }

  /** More credit than window on an idle queue lets a compliant node overfill the queue. */
  lemma ExcessFails(w: Window, initial: int, reentrant: bool)
    requires Reach(Start(initial), w, reentrant)
    requires !w.waiting && w.queued == 0 && w.samplePeak == 0 && 1 <= w.target < w.balance
    ensures Fails(initial, reentrant)
  {
    Push(w, Start(initial), w.target, reentrant);
    var full := w.(balance := w.balance - w.target, queued := w.queued + w.target, samplePeak := w.queued + w.target);
    assert OnChunk(full, false, false).exceeded;
  }

  lemma StartSettled(initial: int, reentrant: bool)
    ensures Reach(Start(initial), Settled(initial, initial, 0), reentrant)
  {
    ReachSelf(Start(initial), reentrant);
  }

  /** Below 7 the first grown target still refills in batches of less than eight, so its sample ends out of phase. */
  lemma SmallWindowBreaks(initial: int, reentrant: bool)
    requires 1 <= initial < 7
    ensures Breaks(initial, reentrant) && Fails(initial, reentrant)
  {
    var start := Start(initial);
    StartSettled(initial, reentrant);
    Grow(start, initial, reentrant);
    var w := PeakThenDrain(start, initial + 8, reentrant);
    var parked := w.(waiting := true);
    assert OnPull(w, false).window == parked;
    ReachThen(start, w, Pull(false), reentrant);
    ReachThen(start, parked, Chunk(false, false), reentrant);
    assert Next(parked, Chunk(false, false)).window.target == initial;
    assert !InBound(Next(parked, Chunk(false, false)).window);
    ExcessFails(Next(parked, Chunk(false, false)).window, initial, reentrant);
  }

  /** A synchronous pull refills the last batch of a sample before the shrink can take it back. */
  lemma ReentryBreaks(start: Window, target: int)
    requires start == Start(start.initial) && 1 <= start.initial < target && 15 <= target <= 30
    requires Reach(start, Settled(start.initial, target, 0), true)
    ensures Breaks(start.initial, true)
    ensures target == start.initial + 8 ==> Fails(start.initial, true)
  {
    var w := PeakThenDrain(start, target, true);
    var parked := w.(waiting := true);
    assert OnPull(w, false).window == parked;
    ReachThen(start, w, Pull(false), true);
    ReachThen(start, parked, Chunk(false, true), true);
    var shrunk := Next(parked, Chunk(false, true)).window;
    assert !InBound(shrunk);
    if target == start.initial + 8 {
      assert shrunk == Window(start.initial, start.initial, target, 0, true, 0, 0);
      ReachThen(start, shrunk, Chunk(false, false), true);
      ExcessFails(Next(shrunk, Chunk(false, false)).window, start.initial, true);
    }
  }

  lemma {:induction false} GrowToCap(start: Window, target: int, reentrant: bool)
    requires 1 <= start.initial <= target <= MAX_RESPONSE_CREDITS
    requires Reach(start, Settled(start.initial, target, 0), reentrant)
    ensures Reach(start, Settled(start.initial, MAX_RESPONSE_CREDITS, 0), reentrant)
    decreases MAX_RESPONSE_CREDITS - target
  {
    if target < MAX_RESPONSE_CREDITS {
      Grow(start, target, reentrant);
      GrowToCap(start, Min(MAX_RESPONSE_CREDITS, target + 8), reentrant);
    }
  }

  /** From the cap the target can be stepped down to 24 with the queue drained. */
  lemma ShrinkFromCap(start: Window, reentrant: bool)
    requires 1 <= start.initial <= 24
    requires Reach(start, Settled(start.initial, MAX_RESPONSE_CREDITS, 0), reentrant)
    ensures Reach(start, Settled(start.initial, 24, 0), reentrant)
  {
    Shrink(start, 64, 0, reentrant);
    Shrink(start, 56, 16, reentrant);
    Shrink(start, 48, 12, reentrant);
    Shrink(start, 40, 8, reentrant);
    Shrink(start, 32, 4, reentrant);
  }

  /** An initial window of 23 needs the long way round: up to the cap, down to 24, and one short step back. */
  lemma TwentyThreeBreaks()
    ensures Breaks(23, true)
  {
    StartSettled(23, true);
    GrowToCap(Start(23), 23, true);
    ShrinkFromCap(Start(23), true);
    ReentryBreaks(Start(23), 24);
  }

  lemma UnsafeInitialBreaks(initial: int, reentrant: bool)
    requires 1 <= initial < SafeInitial(reentrant)
    ensures Breaks(initial, reentrant)
    ensures initial != 23 ==> Fails(initial, reentrant)
  {
    if initial < 7 {
      SmallWindowBreaks(initial, reentrant);
    } else if initial == 23 {
      TwentyThreeBreaks();
    } else {
      StartSettled(initial, true);
      Grow(Start(initial), initial, true);
      ReentryBreaks(Start(initial), initial + 8);
    }
  }

  // ---------------------------------------------------------------------------
  // Window 23: the bound breaks, the stream survives
  // ---------------------------------------------------------------------------

  /** The one excess: a single credit too many, and a parked pull that takes the next frame off the queue's hands. */
  predicate OneOver(w: Window) {
    && w.initial == w.target == 23 && w.balance == 24 && w.queued == 0 && w.waiting
    && w.sampleConsumed == 0 && w.samplePeak == 0
  }

  ghost predicate Nearly(w: Window) {
    w.initial == 23 && (Aligned(w, false) || OneOver(w))
  }

  /** From target 24 the early refill can be followed by a shrink to 23; nowhere else does it matter. */
  lemma EarlyRefillKeepsNearly(w: Window, fast: bool)
    requires Shaped(w, false) && w.initial == 23 && w.Slack() == 0 && w.queued == 0 && w.waiting
    requires 0 <= w.samplePeak <= w.sampleConsumed
    requires w.target > w.initial ==> Phase(w.target, w.sampleConsumed) == 7
    ensures Nearly(Consume(w, fast).window)
  {
    var (recorded, grew) := Record(w, fast);
    if w.target > w.initial {
      ThresholdAboveInitial(w.initial, w.target);
    }
    if grew {
      assert Consume(w, fast).window.Slack() == 0;
    } else if recorded.target == w.target {
      assert Consume(w, fast).window == recorded;
    } else {
      assert w.target == 24;
      assert OneOver(Consume(w, fast).window);
    }
  }

  lemma ReenterKeepsNearly(w: Window, fast: bool)
    requires Aligned(w, false) && w.initial == 23 && w.waiting && w.balance > 0
    ensures Nearly(OnChunk(w, fast, true).window)
  {
    ReenterPull(w, false);
    if w.target > w.initial {
      ThresholdAboveInitial(w.initial, w.target);
    }
    if w.Slack() + 1 < Threshold(w.target) {
      ConsumeKeepsAligned(Repulled(w), fast, false);
    } else {
      EarlyRefillKeepsNearly(Repulled(w), fast);
    }
  }

  /** The next frame goes to the parked pull and the excess is gone; another pull changes nothing. */
  lemma OneOverSettles(w: Window, e: Event)
    requires OneOver(w)
    ensures Nearly(Next(w, e).window) && !Next(w, e).exceeded
  {
    match e
    case Pull(fast) =>
      OneOverPull(w, fast);
      assert Nearly(w);
    case Chunk(fast, reenter) =>
      OneOverChunk(w, fast, reenter);
      BackInStep(w.(balance := 23, sampleConsumed := 1, waiting := reenter));
  }

  lemma BackInStep(w: Window)
    requires w.initial == w.target == w.balance == 23 && w.queued == 0 && w.sampleConsumed == 1 && w.samplePeak == 0
    ensures Aligned(w, false)
  {
  }

  lemma OneOverPull(w: Window, fast: bool)
    requires OneOver(w)
    ensures OnPull(w, fast) == Reply(w, [], false)
  {
  }

  lemma OneOverChunk(w: Window, fast: bool, reenter: bool)
    requires OneOver(w)
    ensures OnChunk(w, fast, reenter)
         == Reply(w.(balance := 23, sampleConsumed := 1, waiting := reenter), [], false)
  {
    var delivered := w.(balance := 23, waiting := false);
    assert OnPull(delivered, false) == Reply(delivered.(waiting := true), [], false);
    assert Consume(delivered, fast) == Reply(delivered.(sampleConsumed := 1), [], false);
    assert Consume(delivered.(waiting := true), fast)
        == Reply(delivered.(waiting := true, sampleConsumed := 1), [], false);
  }

  lemma NearlyDoesNotFail(w: Window)
    requires Nearly(w) && w.balance > 0
    ensures !OnChunk(w, false, false).exceeded
  {
    if OneOver(w) {
      OneOverSettles(w, Chunk(false, false));
    } else {
      NextKeepsAligned(w, Chunk(false, false), false);
    }
  }

  lemma NextKeepsInitial(w: Window, e: Event)
    ensures Next(w, e).window.initial == w.initial
  {
  }

  lemma NextKeepsNearly(w: Window, e: Event)
    requires Nearly(w) && Legal(w, e, true)
    ensures Nearly(Next(w, e).window)
  {
    NextKeepsInitial(w, e);
    if OneOver(w) {
      OneOverSettles(w, e);
    } else if e.Chunk? && e.reenter {
      ReenterKeepsNearly(w, e.fast);
    } else {
      NextKeepsAligned(w, e, false);
    }
  }

  lemma {:induction false} RunKeepsNearly(w: Window, es: seq<Event>)
    requires Nearly(w) && LegalRun(w, es, true)
    ensures Nearly(Play(w, es))
    decreases |es|
  {
    if es != [] {
      NextKeepsNearly(w, es[0]);
      RunKeepsNearly(Next(w, es[0]).window, es[1..]);
    }
  }

  lemma TwentyThreeSurvives()
    ensures !Fails(23, true)
  {
    forall w | Reach(Start(23), w, true) && w.balance > 0 ensures !OnChunk(w, false, false).exceeded {
      var es :| LegalRun(Start(23), es, true) && Play(Start(23), es) == w;
      StartAligned(23, false);
      RunKeepsNearly(Start(23), es);
      NearlyDoesNotFail(w);
    }
  }

  lemma SafeInitialSurvives(initial: int, reentrant: bool)
    requires SafeInitial(reentrant) <= initial <= MAX_RESPONSE_CREDITS
    ensures !Fails(initial, reentrant)
  {
    forall w | Reach(Start(initial), w, reentrant) && w.balance > 0 ensures !OnChunk(w, false, false).exceeded {
      var es :| LegalRun(Start(initial), es, reentrant) && Play(Start(initial), es) == w;
      StartAligned(initial, reentrant);
      RunKeepsAligned(Start(initial), es, reentrant);
      NextKeepsAligned(w, Chunk(false, false), reentrant);
    }
  }

  /** The overflow error can be provoked from every unsafe initial window but 23. */
  lemma FailsExactlyWhen(initial: int, reentrant: bool)
    requires 1 <= initial <= MAX_RESPONSE_CREDITS
    ensures Fails(initial, reentrant) <==> initial < SafeInitial(reentrant) && initial != 23
  {
    if initial >= SafeInitial(reentrant) {
      SafeInitialSurvives(initial, reentrant);
    } else if initial == 23 {
      TwentyThreeSurvives();
    } else {
      UnsafeInitialBreaks(initial, reentrant);
    }
  }

  /** Every legal run from this initial window stays inside the bound. */
  ghost predicate BoundKept(initial: int, reentrant: bool) {
    forall es: seq<Event> :: LegalRun(Start(initial), es, reentrant) ==> InBound(Play(Start(initial), es))
  }

  /** The window bound holds over every legal run exactly from the safe initial window on. */
  lemma BoundKeptExactlyFromSafeInitial(initial: int, reentrant: bool)
    requires 1 <= initial <= MAX_RESPONSE_CREDITS
    ensures BoundKept(initial, reentrant) <==> initial >= SafeInitial(reentrant)
  {
    var start := Start(initial);
    if initial >= SafeInitial(reentrant) {
      forall es: seq<Event> | LegalRun(start, es, reentrant)
        ensures InBound(Play(start, es))
      {
        StartAligned(initial, reentrant);
        RunKeepsAligned(start, es, reentrant);
      }
    } else {
      UnsafeInitialBreaks(initial, reentrant);
      var w :| Reach(start, w, reentrant) && !InBound(w);
      var es :| LegalRun(start, es, reentrant) && Play(start, es) == w;
      assert !InBound(Play(Start(initial), es));
    }
  }
}
