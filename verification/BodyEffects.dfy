/** What becomes of an upload body, over every interleaving: ended it accepts nothing, closed or read to its end it is
released.
 */
module BodyEffects {
  import opened ByteStrings
  import opened RequestBody
  import opened BodyLifecycle

  // ---------------------------------------------------------------------------
  // The end of the body
  // ---------------------------------------------------------------------------

  lemma StepKeepsEnded(b: Body, step: Step)
    requires Can(b, step) && b.bodyEnded
    ensures Do(b, step).bodyEnded && Do(b, step).accepted == b.accepted && Do(b, step).available == b.available
  {
  }

  /** From its end on, however it came about, the body accepts no byte and grants no credit. */
  lemma {:induction false} EndedForGood(states: seq<Body>, steps: seq<Step>, i: nat, j: nat)
    requires IsRun(states, steps) && i < j < |states| && (steps[i].EndFrame? || steps[i].Stop?)
    ensures states[j].bodyEnded
    ensures states[j].accepted == states[i].accepted && states[j].available == states[i].available
    decreases j
  {
    assert states[i + 1] == Do(states[i], steps[i]);
    if i + 1 < j {
      EndedForGood(states, steps, i, j - 1);
      StepKeepsEnded(states[j - 1], steps[j - 1]);
    }
  }

  lemma StepKeepsCancelled(b: Body, step: Step)
    requires Can(b, step) && b.cancelled
    ensures Do(b, step).cancelled && Do(b, step).available <= b.available
  {
  }

  /** A cancelled request grants no credit. */
  lemma {:induction false} CancelledGrantsNothing(states: seq<Body>, steps: seq<Step>, i: nat, j: nat)
    requires IsRun(states, steps) && i < j < |states| && steps[i].Cancel?
    ensures states[j].cancelled && states[j].available <= states[i].available
    decreases j
  {
    assert states[i + 1] == Do(states[i], steps[i]);
    if i + 1 < j {
      CancelledGrantsNothing(states, steps, i, j - 1);
      StepKeepsCancelled(states[j - 1], steps[j - 1]);
    }
  }

  /** A frame that an open body has room for is queued last, as one credit spent. */
  lemma FrameIsQueued(states: seq<Body>, steps: seq<Step>, k: nat)
    requires IsRun(states, steps) && k < |steps| && steps[k].Frame?
    requires var b := states[k]; !b.bodyEnded && !b.ring.closed && b.available > 0
    requires |states[k].accepted| + |steps[k].payload| <= MAX_REQUEST_BODY_BYTES
    ensures states[k + 1].ring.queue == states[k].ring.queue + [steps[k].payload]
    ensures states[k + 1].accepted == states[k].accepted + steps[k].payload
    ensures states[k + 1].available == states[k].available - 1
  {
    RunInv(states, steps, k);
    assert states[k + 1] == Do(states[k], steps[k]);
  }

  // ---------------------------------------------------------------------------
  // Credit
  // ---------------------------------------------------------------------------

  /** A finished chunk is granted back at once when the client is out of credit or it makes a batch of four, together
      with all that were withheld before it; otherwise it is withheld. An upload that is over gets nothing. */
  lemma ReportGrantsExactlyWhen(states: seq<Body>, steps: seq<Step>, k: nat)
    requires IsRun(states, steps) && k < |steps| && steps[k].Report?
    ensures var b, b' := states[k], states[k + 1];
      if b.bodyEnded || b.cancelled then b'.available == b.available && b'.pending == b.pending
      else if b.available == 0 || b.pending == 3 then b'.available == b.available + b.pending + 1 && b'.pending == 0
      else b'.available == b.available && b'.pending == b.pending + 1
    ensures states[k + 1].owner.Consumer?
  {
    RunInv(states, steps, k);
    assert Can(states[k], steps[k]) && states[k + 1] == Do(states[k], steps[k]);
  }

  // ---------------------------------------------------------------------------
  // Release
  // ---------------------------------------------------------------------------

  lemma StepKeepsEofHeld(b: Body, step: Step)
    requires Can(b, step) && (b.owner.AtEof? || b.drained)
    ensures Do(b, step).owner.AtEof? || Do(b, step).drained
  {
  }

  lemma {:induction false} EofIsHeld(states: seq<Body>, steps: seq<Step>, i: nat, j: nat)
    requires IsRun(states, steps) && i < j < |states| && steps[i].SeeEof?
    ensures states[j].owner.AtEof? || states[j].drained
    decreases j
  {
    assert states[i + 1] == Do(states[i], steps[i]);
    if i + 1 < j {
      EofIsHeld(states, steps, i, j - 1);
      StepKeepsEofHeld(states[j - 1], steps[j - 1]);
    }
  }

  /** A consumer that saw the end of file has, when it goes on, released the reservation: closed or not. */
  lemma ReadToTheEndIsReleased(states: seq<Body>, steps: seq<Step>, i: nat, j: nat)
    requires IsRun(states, steps) && i < j < |states| && steps[i].SeeEof? && !states[j].owner.AtEof?
    ensures states[j].drains == 1
  {
    EofIsHeld(states, steps, i, j);
    RunInv(states, steps, j);
  }

  /** A close takes effect at once: nothing stays queued, and it has yet to try for the current chunk. */
  lemma CloseTakesEffect(states: seq<Body>, steps: seq<Step>, k: nat)
    requires IsRun(states, steps) && k < |steps| && steps[k].CloseBegin?
    ensures states[k + 1].ring.closed && states[k + 1].ring.queue == []
    ensures states[k + 1].closing == states[k].closing + 1
  {
    RunInv(states, steps, k + 1);
    assert states[k + 1] == Do(states[k], steps[k]);
  }

  function Count(steps: seq<Step>, k: nat, step: Step): nat
    requires k <= |steps|
  {
    if k == 0 then 0 else Count(steps, k - 1, step) + if steps[k - 1] == step then 1 else 0
  }

  /** Times the current chunk of a closed body was cleared: by a close, or by a consumer on its way out. */
  function Clearings(states: seq<Body>, steps: seq<Step>, k: nat): nat
    requires k <= |steps| < |states|
  {
    if k == 0 then 0
    else
      Clearings(states, steps, k - 1)
      + if steps[k - 1].CloseClear? || (steps[k - 1].Unlock? && states[k - 1].ring.closed) then 1 else 0
  }

  /** Times `readMu` was taken: by a consumer, or by a close that found it free. */
  function Takings(states: seq<Body>, steps: seq<Step>, k: nat): nat
    requires k <= |steps| < |states|
  {
    if k == 0 then 0
    else
      Takings(states, steps, k - 1)
      + if steps[k - 1].Lock? || (steps[k - 1].CloseTry? && states[k - 1].owner.Nobody?) then 1 else 0
  }

  /** One thread at a time holds the body: each that took it has left it again, but for the one that has it. */
  lemma {:induction false} HoldersAreCounted(states: seq<Body>, steps: seq<Step>, k: nat)
    requires IsRun(states, steps) && k < |states|
    ensures Takings(states, steps, k)
         == Count(steps, k, Unlock) + Count(steps, k, CloseClear) + if states[k].owner.Nobody? then 0 else 1
  {
    if k > 0 {
      HoldersAreCounted(states, steps, k - 1);
      assert Can(states[k - 1], steps[k - 1]) && states[k] == Do(states[k - 1], steps[k - 1]);
    }
  }

  /** Every close tries for the current chunk once, and every clearing is followed by one release call. */
  lemma {:induction false} LeaversAreCounted(states: seq<Body>, steps: seq<Step>, k: nat)
    requires IsRun(states, steps) && k < |states|
    ensures states[k].closing + Count(steps, k, CloseTry) == Count(steps, k, CloseBegin)
    ensures states[k].releasing + Count(steps, k, Release) == Clearings(states, steps, k)
  {
    if k > 0 {
      LeaversAreCounted(states, steps, k - 1);
      assert Can(states[k - 1], steps[k - 1]) && states[k] == Do(states[k - 1], steps[k - 1]);
    }
  }

  /** A body may be ended by cleanup and its request cancelled at any time, which moves no byte. */
  lemma BodyMayBeStopped(states: seq<Body>, steps: seq<Step>) returns (states': seq<Body>, steps': seq<Step>)
    requires IsRun(states, steps)
    ensures IsRun(states', steps') && steps' == steps + [Stop, Cancel]
    ensures states'[|steps'|] == states[|steps|].(bodyEnded := true, cancelled := true)
  {
    states', steps' := Extend(states, steps, Stop);
    states', steps' := Extend(states', steps', Cancel);
  }

  /** Steps by which those who are at the body leave it. */
  predicate Leaving(step: Step) {
    step.CloseTry? || step.CloseClear? || step.Report? || step.EofRelease? || step.Unlock? || step.Release?
  }

  /** A continuation of a run by such steps only. */
  ghost predicate Continues(states: seq<Body>, steps: seq<Step>, states': seq<Body>, steps': seq<Step>) {
    && IsRun(states', steps') && steps <= steps'
    && forall i :: |steps| <= i < |steps'| ==> Leaving(steps'[i])
  }

  lemma Extend(states: seq<Body>, steps: seq<Step>, step: Step) returns (states': seq<Body>, steps': seq<Step>)
    requires IsRun(states, steps) && Can(states[|steps|], step)
    ensures IsRun(states', steps') && steps' == steps + [step]
    ensures states'[|steps'|] == Do(states[|steps|], step)
  {
    states', steps' := states + [Do(states[|steps|], step)], steps + [step];
    forall i | 0 <= i < |steps'|
      ensures Can(states'[i], steps'[i]) && states'[i + 1] == Do(states'[i], steps'[i])
    {
      if i < |steps| {
        assert states'[i] == states[i] && states'[i + 1] == states[i + 1] && steps'[i] == steps[i];
      }
    }
  }

  /** How far a closed body is from its release: the holder of the current chunk leaves, then someone releases. */
  function Distance(b: Body): nat {
    if b.drained then 0
    else if b.releasing > 0 || b.owner.AtEof? then 1
    else if b.owner.Consumer? || b.owner.Closer? then 2
    else 3
  }

  function NextLeaving(b: Body): Step {
    if b.releasing > 0 then Release
    else
      match b.owner
      case AtEof => EofRelease
      case Consumer => Unlock
      case Closer => CloseClear
      case Reporting => Report
      case Nobody => CloseTry
  }

  lemma LeavingComesCloser(b: Body)
    requires BodyInv(b) && b.ring.closed && !b.drained
    ensures Can(b, NextLeaving(b)) && Leaving(NextLeaving(b))
    ensures Do(b, NextLeaving(b)).ring.closed && Distance(Do(b, NextLeaving(b))) < Distance(b)
  {
  }

  /** Every run with a closed body can be continued, by those at it leaving, to its release. */
  lemma {:induction false} ClosedBodyGetsReleased(states: seq<Body>, steps: seq<Step>)
    returns (states': seq<Body>, steps': seq<Step>)
    requires IsRun(states, steps) && states[|steps|].ring.closed
    ensures Continues(states, steps, states', steps') && states'[|steps'|].drains == 1
    decreases Distance(states[|steps|])
  {
    RunInv(states, steps, |steps|);
    var b := states[|steps|];
    if b.drained {
      states', steps' := states, steps;
    } else {
      LeavingComesCloser(b);
      states', steps' := Extend(states, steps, NextLeaving(b));
      var more := steps';
      states', steps' := ClosedBodyGetsReleased(states', steps');
      assert forall i :: |steps| <= i < |steps'| ==> steps'[i] == if i < |more| then more[i] else steps'[i];
    }
  }

  // ---------------------------------------------------------------------------
  // The shared reservation
  // ---------------------------------------------------------------------------

  lemma ExtendPool(states: seq<Pool>, steps: seq<PoolStep>, step: PoolStep)
    returns (states': seq<Pool>, steps': seq<PoolStep>)
    requires IsPoolRun(states, steps) && PoolCan(states[|steps|], step)
    ensures IsPoolRun(states', steps') && states'[|steps'|] == PoolDo(states[|steps|], step)
  {
    states', steps' := states + [PoolDo(states[|steps|], step)], steps + [step];
    forall i | 0 <= i < |steps'|
      ensures PoolCan(states'[i], steps'[i]) && states'[i + 1] == PoolDo(states'[i], steps'[i])
    {
      if i < |steps| {
        assert states'[i] == states[i] && states'[i + 1] == states[i + 1] && steps'[i] == steps[i];
      }
    }
  }

  lemma {:induction false} TokensTaken(states: seq<Pool>, steps: seq<PoolStep>, n: nat)
    returns (states': seq<Pool>, steps': seq<PoolStep>)
    requires IsPoolRun(states, steps) && states[|steps|].free >= n
    ensures IsPoolRun(states', steps')
    ensures var p := states[|steps|]; states'[|steps'|] == p.(free := p.free - n, partial := p.partial + n)
    decreases n
  {
    states', steps' := states, steps;
    if n > 0 {
      states', steps' := ExtendPool(states', steps', TakeToken);
      states', steps' := TokensTaken(states', steps', n - 1);
    }
  }

  /** With sixteen frames free a new upload can be admitted, and they are then its own. */
  lemma SixteenFreeAdmit(states: seq<Pool>, steps: seq<PoolStep>)
    returns (states': seq<Pool>, steps': seq<PoolStep>)
    requires IsPoolRun(states, steps) && states[|steps|].free >= 16
    ensures IsPoolRun(states', steps')
    ensures var p := states[|steps|]; states'[|steps'|] == p.(free := p.free - 16, bodies := p.bodies + [FRESH])
  {
    FramesStayWithinReservation(states, steps, |steps|);
    states', steps' := TokensTaken(states, steps, 16);
    states', steps' := ExtendPool(states', steps', Admit);
  }

  /** An attempt that gives up can return each token it took. */
  lemma {:induction false} AttemptReturns(states: seq<Pool>, steps: seq<PoolStep>)
    returns (states': seq<Pool>, steps': seq<PoolStep>)
    requires IsPoolRun(states, steps) && states[|steps|].partial >= 0
    ensures IsPoolRun(states', steps')
    ensures var p := states[|steps|]; states'[|steps'|] == p.(free := p.free + p.partial, partial := 0)
    decreases states[|steps|].partial
  {
    states', steps' := states, steps;
    if states[|steps|].partial > 0 {
      states', steps' := ExtendPool(states', steps', ReturnToken);
      states', steps' := AttemptReturns(states', steps');
    }
  }

  /** Whatever an upload can do alone it can do in the pool, and its release frees its sixteen frames for others. */
  lemma BodyMovesInPool(states: seq<Pool>, steps: seq<PoolStep>, index: nat, inner: Step)
    returns (states': seq<Pool>, steps': seq<PoolStep>)
    requires IsPoolRun(states, steps) && index < |states[|steps|].bodies| && Can(states[|steps|].bodies[index], inner)
    ensures IsPoolRun(states', steps')
    ensures var p, p' := states[|steps|], states'[|steps'|];
      var b, b' := p.bodies[index], Do(p.bodies[index], inner);
      && p'.bodies == p.bodies[index := b'] && p'.partial == p.partial
      && p'.free == p.free + 16 * (b'.drains - b.drains)
  {
    states', steps' := ExtendPool(states, steps, BodyStep(index, inner));
  }

  lemma {:induction false} NothingReserved(bodies: seq<Body>)
    requires forall i :: 0 <= i < |bodies| ==> bodies[i].drained
    ensures Reserved(bodies) == 0
    decreases |bodies|
  {
    if bodies != [] {
      NothingReserved(bodies[1..]);
    }
  }

  /** When every upload has been released and no attempt is under way, all 2048 frames are free again. */
  lemma ReservationsComeBack(states: seq<Pool>, steps: seq<PoolStep>, k: nat)
    requires IsPoolRun(states, steps) && k < |states| && states[k].partial == 0
    requires forall i :: 0 <= i < |states[k].bodies| ==> states[k].bodies[i].drained
    ensures states[k].free == 2048
  {
    FramesStayWithinReservation(states, steps, k);
    NothingReserved(states[k].bodies);
  }
}
