/** When the adaptive target moves, told from the run alone.

A sample is sixteen consecutive consumptions. The window keeps two running values for it, how many frames of the
sample were consumed and the longest queue it has seen. Here both are recomputed from the states of the run, and the
target is shown to move exactly at the end of a sample, in the direction that its states call for.
 */
module Samples {
  import opened AdaptiveWindow

  predicate Linked(states: seq<Window>, es: seq<Event>, i: nat)
    requires |states| == |es| + 1 && i < |es|
  {
    states[i + 1] == Next(states[i], es[i]).window
  }

  /** A stream from its start: the windows between its callbacks. */
  ghost predicate IsTrace(initial: int, states: seq<Window>, es: seq<Event>) {
    && |states| == |es| + 1
    && states[0] == Start(initial)
    && forall i :: 0 <= i < |es| ==> Linked(states, es, i)
  }

  /** The callback hands a frame to the consumer: from the queue, or straight to a parked pull. */
  predicate Consumes(w: Window, e: Event) {
    match e
    case Pull(_) => w.queued > 0
    case Chunk(_, _) => w.balance > 0 && w.waiting
  }

  /** Frames consumed by the first `k` callbacks. */
  function Consumed(states: seq<Window>, es: seq<Event>, k: nat): nat
    requires |states| == |es| + 1 && k <= |es|
  {
    if k == 0 then 0
    else Consumed(states, es, k - 1) + if Consumes(states[k - 1], es[k - 1]) then 1 else 0
  }

  /** Callback `k` consumes the sixteenth frame of a sample. */
  predicate Closes(states: seq<Window>, es: seq<Event>, k: nat)
    requires |states| == |es| + 1 && k < |es|
  {
    Consumes(states[k], es[k]) && (Consumed(states, es, k) + 1) % 16 == 0
  }

  /** The first state of the sample that state `k` belongs to. */
  function SampleStart(states: seq<Window>, es: seq<Event>, k: nat): (start: nat)
    requires |states| == |es| + 1 && k <= |es|
    ensures start <= k && (start == 0 || Closes(states, es, start - 1))
    ensures forall j :: start <= j < k ==> !Closes(states, es, j)
  {
    if k == 0 || Closes(states, es, k - 1) then k else SampleStart(states, es, k - 1)
  }

  /** `peak` is the longest queue of the states from `from` to `k`. */
  ghost predicate Longest(states: seq<Window>, from: nat, k: nat, peak: int)
    requires from <= k < |states|
  {
    && (forall i :: from <= i <= k ==> states[i].queued <= peak)
    && (exists i :: from <= i <= k && states[i].queued == peak)
  }

  /** The running values are what the run says. */
  ghost predicate Sampled(states: seq<Window>, es: seq<Event>, k: nat)
    requires |states| == |es| + 1 && k <= |es|
  {
    var w := states[k];
    && Sound(w)
    && w.sampleConsumed == Consumed(states, es, k) % 16
    && Longest(states, SampleStart(states, es, k), k, w.samplePeak)
  }

  // ---------------------------------------------------------------------------
  // One callback
  // ---------------------------------------------------------------------------

  /** A window whose parked pull has nothing queued. */
  predicate Sound(w: Window) { 0 <= w.queued && (w.waiting ==> w.queued == 0) }

  /** A callback that consumes nothing leaves the sample alone, but for a longer queue. */
  predicate Idles(w: Window, w': Window) {
    && w.queued <= w'.queued
    && w'.target == w.target && w'.sampleConsumed == w.sampleConsumed
    && w'.samplePeak == if w'.queued > w.queued then Max(w.samplePeak, w'.queued) else w.samplePeak
  }

  /** A consumption within a sample counts its frame; the sixteenth starts a new sample. */
  predicate Counts(w: Window, w': Window) {
    && w'.queued <= w.queued
    && (w.sampleConsumed < 15 ==>
          w'.target == w.target && w'.sampleConsumed == w.sampleConsumed + 1 && w'.samplePeak == w.samplePeak)
    && (w.sampleConsumed == 15 ==> w'.sampleConsumed == 0 && w'.samplePeak == w'.queued)
  }

  lemma IdleCallback(w: Window, e: Event)
    requires Sound(w) && !Consumes(w, e)
    ensures Sound(Next(w, e).window) && Next(w, e).window.initial == w.initial
    ensures Idles(w, Next(w, e).window)
  {
  }

  lemma ConsumingCallback(w: Window, e: Event)
    requires Sound(w) && Consumes(w, e)
    ensures Sound(Next(w, e).window) && Next(w, e).window.initial == w.initial
    ensures Counts(w, Next(w, e).window)
  {
  }

  lemma Callback(states: seq<Window>, es: seq<Event>, k: nat)
    requires |states| == |es| + 1 && k < |es| && Linked(states, es, k) && Sound(states[k])
    ensures Sound(states[k + 1]) && states[k + 1].initial == states[k].initial
    ensures if Consumes(states[k], es[k]) then Counts(states[k], states[k + 1]) else Idles(states[k], states[k + 1])
  {
    if Consumes(states[k], es[k]) {
      ConsumingCallback(states[k], es[k]);
    } else {
      IdleCallback(states[k], es[k]);
    }
  }

  /** How the sixteenth frame moves the target, in terms of the peak it finds. */
  function Moved(w: Window, fast: bool): int {
    if fast && w.samplePeak <= 2 && w.target < 64 then Min(64, w.target + 8)
    else if 2 * w.samplePeak >= w.target && w.target > w.initial then Max(w.initial, w.target - 8)
    else w.target
  }

  lemma ClosingMoves(states: seq<Window>, es: seq<Event>, k: nat)
    requires |states| == |es| + 1 && k < |es| && Linked(states, es, k) && Sound(states[k])
    requires Consumes(states[k], es[k]) && states[k].sampleConsumed == 15
    ensures states[k + 1].target == Moved(states[k], es[k].fast)
  {
  }

  // ---------------------------------------------------------------------------
  // Every run
  // ---------------------------------------------------------------------------

  lemma LongestExtends(states: seq<Window>, from: nat, k: nat, peak: int, peak': int)
    requires from <= k && k + 1 < |states| && Longest(states, from, k, peak)
    requires peak' == Max(peak, states[k + 1].queued)
    ensures Longest(states, from, k + 1, peak')
  {
    var i :| from <= i <= k && states[i].queued == peak;
    if peak' == peak {
      assert states[i].queued == peak';
    } else {
      assert states[k + 1].queued == peak';
    }
  }

  lemma StepKeepsCount(states: seq<Window>, es: seq<Event>, k: nat)
    requires |states| == |es| + 1 && k < |es| && states[k].sampleConsumed == Consumed(states, es, k) % 16
    requires if Consumes(states[k], es[k]) then Counts(states[k], states[k + 1]) else Idles(states[k], states[k + 1])
    ensures states[k + 1].sampleConsumed == Consumed(states, es, k + 1) % 16
    ensures Closes(states, es, k) <==> Consumes(states[k], es[k]) && states[k].sampleConsumed == 15
  {
  }

  lemma StepKeepsSampled(states: seq<Window>, es: seq<Event>, k: nat)
    requires |states| == |es| + 1 && k < |es| && Linked(states, es, k) && Sampled(states, es, k)
    ensures Sampled(states, es, k + 1) && states[k + 1].initial == states[k].initial
  {
    Callback(states, es, k);
    StepKeepsCount(states, es, k);
    if Closes(states, es, k) {
      assert states[k + 1].queued == states[k + 1].samplePeak;
    } else {
      LongestExtends(states, SampleStart(states, es, k), k, states[k].samplePeak, states[k + 1].samplePeak);
    }
  }

  lemma {:induction false} RunSampled(initial: int, states: seq<Window>, es: seq<Event>, k: nat)
    requires IsTrace(initial, states, es) && k < |states|
    ensures Sampled(states, es, k) && states[k].initial == initial
  {
    if k == 0 {
      assert states[0].queued == states[0].samplePeak;
    } else {
      RunSampled(initial, states, es, k - 1);
      StepKeepsSampled(states, es, k - 1);
    }
  }

  /** Some state of the sample held at least half the target. */
  ghost predicate Backlogged(states: seq<Window>, from: nat, k: nat)
    requires from <= k < |states|
  {
    exists i :: from <= i <= k && 2 * states[i].queued >= states[k].target
  }

  /** The two thresholds on the peak are statements about the states. */
  lemma LongestDecides(states: seq<Window>, from: nat, k: nat)
    requires from <= k < |states| && Longest(states, from, k, states[k].samplePeak)
    ensures states[k].samplePeak <= 2 <==> forall i :: from <= i <= k ==> states[i].queued <= 2
    ensures 2 * states[k].samplePeak >= states[k].target <==> Backlogged(states, from, k)
  {
  }

  /** The target rises by eight, up to 64, exactly at the sixteenth frame of a fast sample that never had more than
      two frames queued; it falls by eight, down to the initial window, exactly when it does not rise and some state
      of the sample held at least half the target. */
  lemma TargetMovesExactlyWhen(initial: int, states: seq<Window>, es: seq<Event>, k: nat)
    requires IsTrace(initial, states, es) && k < |es|
    ensures var w, from := states[k], SampleStart(states, es, k);
      var rises := Closes(states, es, k) && es[k].fast && w.target < 64
                   && forall i :: from <= i <= k ==> states[i].queued <= 2;
      var falls := Closes(states, es, k) && !rises && w.target > initial && Backlogged(states, from, k);
      states[k + 1].target
      == if rises then Min(64, w.target + 8) else if falls then Max(initial, w.target - 8) else w.target
  {
    RunSampled(initial, states, es, k);
    assert Linked(states, es, k);
    Callback(states, es, k);
    StepKeepsCount(states, es, k);
    LongestDecides(states, SampleStart(states, es, k), k);
    if Closes(states, es, k) {
      ClosingMoves(states, es, k);
    }
  }
}
