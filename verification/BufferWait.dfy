/** `waitForBuffer`: senders pause on the sum of four lanes but are woken by each lane alone.

A lane's callback fires only when that lane drains from above the low threshold to at most
it. A sender sums the lanes one at a time while they move, so the sum it acts on may never have
been true at any instant.
 */
module BufferWait {
  const LANES := 4
  const AGGREGATE_HIGH_WATER := 4 * 1024 * 1024
  const BULK_HIGH_WATER := 3 * 1024 * 1024
  const LOW_THRESHOLD := BULK_HIGH_WATER / LANES

  /** A writer that captured wake generation `gen` re-measures lane by lane, then parks on that generation. */
  datatype Writer =
    | Running
    | Measuring(limit: int, gen: nat, next: nat, sum: int)
    | Parked(gen: nat)

  /** `owed` counts callbacks that have been triggered but have not closed the generation yet. */
  datatype Buffers = Buffers(amounts: seq<int>, generation: nat, owed: nat, writers: seq<Writer>)

  datatype Step =
    | Send(lane: nat, bytes: nat)
    | Drain(lane: nat, bytes: nat)
    | Detach(lane: nat)
    | CloseAll
    | Fire
    | Capture(writer: nat, control: bool)
    | Measure(writer: nat)
    | Settle(writer: nat)
    | Wake(writer: nat)
    | GiveUp(writer: nat)

  function Init(writers: nat): Buffers {
    Buffers([0, 0, 0, 0], 0, 0, seq(writers, _ => Running))
  }

  /** The wait limit of the sender's lane. */
  function Limit(control: bool): int {
    if control then AGGREGATE_HIGH_WATER else BULK_HIGH_WATER
  }

  predicate Can(s: Buffers, step: Step) {
    |s.amounts| == LANES &&
    match step
    case Send(lane, _) => lane < LANES
    case Drain(lane, bytes) => lane < LANES && bytes <= s.amounts[lane]
    case Detach(lane) => lane < LANES
    case CloseAll => true
    case Fire => s.owed > 0
    case Capture(w, _) => w < |s.writers| && s.writers[w].Running?
    case Measure(w) => w < |s.writers| && s.writers[w].Measuring? && s.writers[w].next < LANES
    case Settle(w) => w < |s.writers| && s.writers[w].Measuring? && s.writers[w].next == LANES
    case Wake(w) => w < |s.writers| && s.writers[w].Parked? && s.writers[w].gen < s.generation
    case GiveUp(w) => w < |s.writers| && s.writers[w].Parked?
  }

  function Do(s: Buffers, step: Step, threshold: int): Buffers
    requires Can(s, step)
  {
    match step
    case Send(lane, bytes) => s.(amounts := s.amounts[lane := s.amounts[lane] + bytes])
    case Drain(lane, bytes) =>
      var left := s.amounts[lane] - bytes;
      s.(amounts := s.amounts[lane := left], owed := s.owed + if s.amounts[lane] > threshold >= left then 1 else 0)
    case Detach(lane) => s.(amounts := s.amounts[lane := 0], owed := s.owed + 1)
    case CloseAll => s.(amounts := [0, 0, 0, 0], owed := s.owed + 1)
    case Fire => s.(owed := s.owed - 1, generation := s.generation + 1)
    case Capture(w, control) => s.(writers := s.writers[w := Measuring(Limit(control), s.generation, 0, 0)])
    case Measure(w) =>
      var m := s.writers[w];
      s.(writers := s.writers[w := m.(next := m.next + 1, sum := m.sum + s.amounts[m.next])])
    case Settle(w) =>
      var m := s.writers[w];
      s.(writers := s.writers[w := if m.sum <= m.limit then Running else Parked(m.gen)])
    case Wake(w) => s.(writers := s.writers[w := Running])
    case GiveUp(w) => s.(writers := s.writers[w := Running])
  }

  /** A writer parked on `gen` will be woken: `gen` is closed, a callback is owed, or a lane must still cross. */
  ghost predicate Alert(s: Buffers, gen: nat, threshold: int) {
    gen < s.generation || s.owed > 0 || exists lane :: 0 <= lane < |s.amounts| && s.amounts[lane] > threshold
  }

  predicate Sound(w: Writer) {
    w.Measuring? ==> w.next <= LANES && BULK_HIGH_WATER <= w.limit
  }

  /** A writer whose readings so far average above the threshold has seen a lane above it. */
  ghost predicate Watched(s: Buffers, w: Writer, threshold: int) {
    && Sound(w)
    && (!w.Running? ==> w.gen <= s.generation)
    && (w.Measuring? && w.sum > w.next * threshold ==> Alert(s, w.gen, threshold))
    && (w.Parked? ==> Alert(s, w.gen, threshold))
  }

  ghost predicate Inv(s: Buffers, threshold: int) {
    && |s.amounts| == LANES
    && forall w :: 0 <= w < |s.writers| ==> Watched(s, s.writers[w], threshold)
  }

  /** Whatever happens to the lanes, an alert stays an alert. */
  lemma AlertPersists(s: Buffers, step: Step, gen: nat, threshold: int)
    requires Can(s, step) && Alert(s, gen, threshold)
    requires 0 <= threshold && gen <= s.generation
    ensures Alert(Do(s, step, threshold), gen, threshold)
  {
    var s' := Do(s, step, threshold);
    if gen >= s.generation && s.owed == 0 {
      var lane :| 0 <= lane < |s.amounts| && s.amounts[lane] > threshold;
      assert s'.owed > 0 || s'.amounts[lane] > threshold;
    }
  }

  /** The writer that moves keeps its own promise; a reading above the threshold is itself the alert. */
  lemma MoverWatched(s: Buffers, step: Step, w: nat, threshold: int)
    requires Inv(s, threshold) && Can(s, step) && 0 <= threshold && LANES * threshold <= BULK_HIGH_WATER
    requires step.Capture? || step.Measure? || step.Settle? || step.Wake? || step.GiveUp?
    requires w == step.writer
    ensures Watched(Do(s, step, threshold), Do(s, step, threshold).writers[w], threshold)
  {
    var m, s' := s.writers[w], Do(s, step, threshold);
    assert s'.amounts == s.amounts && s'.generation == s.generation && s'.owed == s.owed;
    if step.Measure? {
      assert (m.next + 1) * threshold == m.next * threshold + threshold;
      if m.sum <= m.next * threshold && m.sum + s.amounts[m.next] > (m.next + 1) * threshold {
        assert s'.amounts[m.next] > threshold;
      }
    }
  }

  lemma StepKeepsInv(s: Buffers, step: Step, threshold: int)
    requires Inv(s, threshold) && Can(s, step) && 0 <= threshold && LANES * threshold <= BULK_HIGH_WATER
    ensures Inv(Do(s, step, threshold), threshold)
  {
    var s' := Do(s, step, threshold);
    forall w | 0 <= w < |s'.writers|
      ensures Watched(s', s'.writers[w], threshold)
    {
      assert Watched(s, s.writers[w], threshold);
      if s'.writers[w] == s.writers[w] {
        if Alert(s, if s.writers[w].Running? then 0 else s.writers[w].gen, threshold) {
          AlertPersists(s, step, if s.writers[w].Running? then 0 else s.writers[w].gen, threshold);
        }
      } else {
        MoverWatched(s, step, w, threshold);
      }
    }
  }

  ghost predicate IsRun(writers: nat, threshold: int, states: seq<Buffers>, steps: seq<Step>) {
    && |states| == |steps| + 1
    && states[0] == Init(writers)
    && forall i :: 0 <= i < |steps| ==> Can(states[i], steps[i]) && states[i + 1] == Do(states[i], steps[i], threshold)
  }

  lemma {:induction false} RunInv(writers: nat, threshold: int, states: seq<Buffers>, steps: seq<Step>, k: nat)
    requires 0 <= threshold && LANES * threshold <= BULK_HIGH_WATER
    requires IsRun(writers, threshold, states, steps) && k < |states|
    ensures Inv(states[k], threshold)
    decreases k
  {
    if k > 0 {
      RunInv(writers, threshold, states, steps, k - 1);
      StepKeepsInv(states[k - 1], steps[k - 1], threshold);
    }
  }

  /** A parked writer that nothing done so far will wake: it depends on traffic that may never come. */
  ghost predicate Stranded(s: Buffers, threshold: int) {
    exists w :: 0 <= w < |s.writers| && s.writers[w].Parked? && !Alert(s, s.writers[w].gen, threshold)
  }

  ghost predicate CanStrand(threshold: int) {
    exists writers: nat, states: seq<Buffers>, steps: seq<Step> ::
      IsRun(writers, threshold, states, steps) && Stranded(states[|steps|], threshold)
  }

  lemma Extend(writers: nat, threshold: int, states: seq<Buffers>, steps: seq<Step>, step: Step)
    returns (states': seq<Buffers>, steps': seq<Step>)
    requires IsRun(writers, threshold, states, steps) && Can(states[|steps|], step)
    ensures IsRun(writers, threshold, states', steps') && steps' == steps + [step]
    ensures states'[|steps'|] == Do(states[|steps|], step, threshold)
  {
    states', steps' := states + [Do(states[|steps|], step, threshold)], steps + [step];
    forall i | 0 <= i < |steps'|
      ensures Can(states'[i], steps'[i]) && states'[i + 1] == Do(states'[i], steps'[i], threshold)
    {
      if i < |steps| {
        assert states'[i] == states[i] && states'[i + 1] == states[i + 1] && steps'[i] == steps[i];
      }
    }
  }

  /** Four lanes filled up to the threshold, none above it. */
  lemma LanesFilled(t: nat) returns (states: seq<Buffers>, steps: seq<Step>)
    ensures IsRun(1, t, states, steps) && states[|steps|] == Buffers([t, t, t, t], 0, 0, [Running])
  {
    states, steps := [Init(1)], [];
    states, steps := Extend(1, t, states, steps, Send(0, t));
    states, steps := Extend(1, t, states, steps, Send(1, t));
    states, steps := Extend(1, t, states, steps, Send(2, t));
    states, steps := Extend(1, t, states, steps, Send(3, t));
  }

  lemma LanesMeasured(t: nat) returns (states: seq<Buffers>, steps: seq<Step>)
    ensures IsRun(1, t, states, steps)
    ensures states[|steps|] == Buffers([t, t, t, t], 0, 0, [Measuring(BULK_HIGH_WATER, 0, 4, 4 * t)])
  {
    states, steps := LanesFilled(t);
    states, steps := Extend(1, t, states, steps, Capture(0, false));
    states, steps := Extend(1, t, states, steps, Measure(0));
    states, steps := Extend(1, t, states, steps, Measure(0));
    states, steps := Extend(1, t, states, steps, Measure(0));
    states, steps := Extend(1, t, states, steps, Measure(0));
  }

  /** A threshold that is too high holds a writer back on lanes that never cross it. */
  lemma HighThresholdStrands(threshold: nat)
    requires LANES * threshold > BULK_HIGH_WATER
    ensures CanStrand(threshold)
  {
    var states, steps := LanesMeasured(threshold);
    states, steps := Extend(1, threshold, states, steps, Settle(0));
    assert states[|steps|].writers[0] == Parked(0);
    assert Stranded(states[|steps|], threshold);
  }

  /** No run strands a writer exactly when the threshold is at most the smallest limit shared by the lanes. */
  lemma NoStrandedWriterExactlyWhen(threshold: nat)
    ensures !CanStrand(threshold) <==> threshold <= LOW_THRESHOLD
  {
    if threshold <= LOW_THRESHOLD {
      if CanStrand(threshold) {
        var writers: nat, states: seq<Buffers>, steps: seq<Step> :|
          IsRun(writers, threshold, states, steps) && Stranded(states[|steps|], threshold);
        RunInv(writers, threshold, states, steps, |steps|);
        assert false;
      }
    } else {
      HighThresholdStrands(threshold);
    }
  }

  // ---- What writers get ----

  /** Lanes carry what was sent and not yet drained; a lane that goes away, or all of them, owes every writer a wake. */
  lemma LanesCountTraffic(writers: nat, threshold: int, states: seq<Buffers>, steps: seq<Step>, k: nat, lane: nat)
    requires IsRun(writers, threshold, states, steps) && k < |steps| && lane < LANES
    ensures |states[k].amounts| == LANES && |states[k + 1].amounts| == LANES
    ensures var before, after := states[k].amounts[lane], states[k + 1].amounts[lane];
      match steps[k]
      case Send(at, bytes) => after == if at == lane then before + bytes else before
      case Drain(at, bytes) => after == if at == lane then before - bytes else before
      case Detach(at) => after == (if at == lane then 0 else before) && states[k + 1].owed == states[k].owed + 1
      case CloseAll => after == 0 && states[k + 1].owed == states[k].owed + 1
      case _ => after == before
  {
    assert Can(states[k], steps[k]) && states[k + 1] == Do(states[k], steps[k], threshold);
  }

  /** A continuation of a run in which the lanes only drain and callbacks and wakes take their course. */
  ghost predicate Settles(writers: nat, threshold: int, steps: seq<Step>, states': seq<Buffers>, steps': seq<Step>) {
    && IsRun(writers, threshold, states', steps') && steps <= steps'
    && forall i :: |steps| <= i < |steps'| ==> steps'[i].Drain? || steps'[i].Fire? || steps'[i].Wake?
  }

  lemma OlderGenerationWakes(writers: nat, threshold: int, states: seq<Buffers>, steps: seq<Step>, w: nat)
    returns (states': seq<Buffers>, steps': seq<Step>)
    requires 0 <= threshold <= LOW_THRESHOLD && IsRun(writers, threshold, states, steps)
    requires w < |states[|steps|].writers| && states[|steps|].writers[w].Parked?
    requires states[|steps|].writers[w].gen < states[|steps|].generation || states[|steps|].owed > 0
    ensures Settles(writers, threshold, steps, states', steps')
    ensures w < |states'[|steps'|].writers| && states'[|steps'|].writers[w].Running?
  {
    RunInv(writers, threshold, states, steps, |steps|);
    states', steps' := states, steps;
    if states[|steps|].writers[w].gen >= states[|steps|].generation {
      assert Watched(states[|steps|], states[|steps|].writers[w], threshold);
      states', steps' := Extend(writers, threshold, states', steps', Fire);
    }
    states', steps' := Extend(writers, threshold, states', steps', Wake(w));
  }

  /** Every parked writer goes on once the lanes drain: the drain that empties a full lane owes a callback, and the
      callback closes the generation the writer waits on. */
  lemma ParkedWriterGoesOn(writers: nat, threshold: int, states: seq<Buffers>, steps: seq<Step>, w: nat)
    returns (states': seq<Buffers>, steps': seq<Step>)
    requires 0 <= threshold <= LOW_THRESHOLD && IsRun(writers, threshold, states, steps)
    requires w < |states[|steps|].writers| && states[|steps|].writers[w].Parked?
    ensures Settles(writers, threshold, steps, states', steps')
    ensures w < |states'[|steps'|].writers| && states'[|steps'|].writers[w].Running?
  {
    RunInv(writers, threshold, states, steps, |steps|);
    var s := states[|steps|];
    assert Watched(s, s.writers[w], threshold);
    if s.writers[w].gen < s.generation || s.owed > 0 {
      states', steps' := OlderGenerationWakes(writers, threshold, states, steps, w);
    } else {
      var lane: nat :| lane < |s.amounts| && s.amounts[lane] > threshold;
      states', steps' := Extend(writers, threshold, states, steps, Drain(lane, s.amounts[lane]));
      var more := steps';
      states', steps' := OlderGenerationWakes(writers, threshold, states', steps', w);
      assert forall i :: |steps| <= i < |steps'| ==> steps'[i] == if i < |more| then more[i] else steps'[i];
    }
  }

  /** A writer left undisturbed while it measures parks exactly when the lanes together exceed its limit: 4 MiB for
      control messages, 3 MiB for others. */
  lemma UndisturbedWriterParksExactlyWhen(writers: nat, threshold: int, states: seq<Buffers>, steps: seq<Step>, w: nat,
                                          control: bool) returns (states': seq<Buffers>, steps': seq<Step>)
    requires IsRun(writers, threshold, states, steps)
    requires w < |states[|steps|].writers| && states[|steps|].writers[w].Running? && |states[|steps|].amounts| == LANES
    ensures IsRun(writers, threshold, states', steps') && w < |states'[|steps'|].writers|
    ensures steps' == steps + [Capture(w, control), Measure(w), Measure(w), Measure(w), Measure(w), Settle(w)]
    ensures var a, limit := states[|steps|].amounts, if control then 4 * 1024 * 1024 else 3 * 1024 * 1024;
      states'[|steps'|].writers[w]
      == if a[0] + a[1] + a[2] + a[3] > limit then Parked(states[|steps|].generation) else Running
  {
    states', steps' := Extend(writers, threshold, states, steps, Capture(w, control));
    states', steps' := Extend(writers, threshold, states', steps', Measure(w));
    states', steps' := Extend(writers, threshold, states', steps', Measure(w));
    states', steps' := Extend(writers, threshold, states', steps', Measure(w));
    states', steps' := Extend(writers, threshold, states', steps', Measure(w));
    states', steps' := Extend(writers, threshold, states', steps', Settle(w));
  }

  // ---- No wake without a cause ----

  /** The step gives writers cause to look again: a lane drains across the threshold, or goes away. */
  predicate Stirs(s: Buffers, step: Step, threshold: int) {
    match step
    case Drain(lane, bytes) =>
      lane < |s.amounts| && threshold < s.amounts[lane] && s.amounts[lane] <= threshold + bytes
    case Detach(_) => true
    case CloseAll => true
    case _ => false
  }

  function Stirrings(states: seq<Buffers>, steps: seq<Step>, threshold: int, k: nat): nat
    requires k <= |steps| < |states|
  {
    if k == 0 then 0
    else Stirrings(states, steps, threshold, k - 1) + if Stirs(states[k - 1], steps[k - 1], threshold) then 1 else 0
  }

  /** Every cause fires one callback, and nothing else does: a generation is closed for each that has fired. */
  lemma {:induction false} CallbacksAreCounted(
      writers: nat, threshold: int, states: seq<Buffers>, steps: seq<Step>, k: nat)
    requires IsRun(writers, threshold, states, steps) && k < |states|
    ensures states[k].generation + states[k].owed == Stirrings(states, steps, threshold, k)
    ensures k > 0 ==> states[k].generation == states[k - 1].generation + if steps[k - 1].Fire? then 1 else 0
  {
    if k > 0 {
      CallbacksAreCounted(writers, threshold, states, steps, k - 1);
      assert Can(states[k - 1], steps[k - 1]) && states[k] == Do(states[k - 1], steps[k - 1], threshold);
    }
  }

  /** A parked writer leaves only when it gives up, or once a callback has fired since it captured its generation;
      then it goes on, alone. */
  lemma ParkedWriterLeavesExactlyWhen(
      writers: nat, threshold: int, states: seq<Buffers>, steps: seq<Step>, k: nat, w: nat)
    requires IsRun(writers, threshold, states, steps) && k < |steps|
    requires w < |states[k].writers| && states[k].writers[w].Parked?
    ensures w < |states[k + 1].writers|
    ensures if steps[k] == GiveUp(w) then states[k + 1].writers[w].Running?
            else if steps[k] == Wake(w)
            then states[k].writers[w].gen < states[k].generation && states[k + 1].writers[w].Running?
            else states[k + 1].writers[w] == states[k].writers[w]
    ensures steps[k] == GiveUp(w) || steps[k] == Wake(w) ==>
              states[k + 1] == states[k].(writers := states[k].writers[w := Running])
  {
    assert Can(states[k], steps[k]) && states[k + 1] == Do(states[k], steps[k], threshold);
  }

  /** Closing the lanes, or losing any one of them, lets every parked writer go on; and it may give up at any time. */
  lemma ClosingLetsWritersGo(
      writers: nat, threshold: int, states: seq<Buffers>, steps: seq<Step>, w: nat, closing: Step)
    returns (states': seq<Buffers>, steps': seq<Step>)
    requires 0 <= threshold <= LOW_THRESHOLD && IsRun(writers, threshold, states, steps)
    requires w < |states[|steps|].writers| && states[|steps|].writers[w].Parked?
    requires closing == CloseAll || (closing.Detach? && closing.lane < LANES) || closing == GiveUp(w)
    ensures IsRun(writers, threshold, states', steps')
    ensures steps' == steps + if closing.GiveUp? then [closing] else [closing, Fire, Wake(w)]
    ensures w < |states'[|steps'|].writers| && states'[|steps'|].writers[w].Running?
  {
    RunInv(writers, threshold, states, steps, |steps|);
    assert Watched(states[|steps|], states[|steps|].writers[w], threshold);
    states', steps' := Extend(writers, threshold, states, steps, closing);
    if !closing.GiveUp? {
      states', steps' := Extend(writers, threshold, states', steps', Fire);
      states', steps' := Extend(writers, threshold, states', steps', Wake(w));
    }
  }
}
