/** `responseCreditWindow`: a counting semaphore whose wake channel has capacity one.

Grants coalesce in the single slot, so a taker that leaves credit behind must pass the wake
on. The step system has any number of granting, arriving and parked threads.
 */
module CreditWake {
  import opened Limits

  /** `owed` counts threads between their unlock and their signal, `checking` takers about to test `available`,
      `parked` takers waiting on the slot; `taken` is the number of credits handed out. */
  datatype Sema = Sema(available: int, slot: bool, owed: nat, checking: nat, parked: nat, taken: int)

  const EMPTY := Sema(0, false, 0, 0, 0, 0)

  datatype Step = Grant(count: nat) | Signal | Arrive | Check | Receive | GiveUp

  /** What a grant may add before it clamps. */
  function Room(available: int, count: nat): int {
    if available >= MAX_RESPONSE_CREDITS then 0
    else if count > MAX_RESPONSE_CREDITS - available then MAX_RESPONSE_CREDITS - available
    else count
  }

  predicate Can(s: Sema, step: Step) {
    match step
    case Grant(_) => true
    case Signal => s.owed > 0
    case Arrive => true
    case Check => s.checking > 0
    case Receive => s.parked > 0 && s.slot
    case GiveUp => s.parked > 0
  }

  function Do(s: Sema, step: Step): Sema
    requires Can(s, step)
  {
    match step
    case Grant(count) =>
      if Room(s.available, count) == 0 then s
      else s.(available := s.available + Room(s.available, count), owed := s.owed + 1)
    case Signal => s.(owed := s.owed - 1, slot := true)
    case Arrive => s.(checking := s.checking + 1)
    case Check =>
      if s.available > 0 then
        s.(available := s.available - 1, taken := s.taken + 1, checking := s.checking - 1,
           owed := s.owed + if s.available > 1 then 1 else 0)
      else s.(checking := s.checking - 1, parked := s.parked + 1)
    case Receive => s.(slot := false, parked := s.parked - 1, checking := s.checking + 1)
    case GiveUp => s.(parked := s.parked - 1)
  }

  /** Someone can still act for a parked taker. */
  predicate Stirring(s: Sema) { s.slot || s.owed > 0 || s.checking > 0 }

  ghost predicate Inv(s: Sema) {
    && 0 <= s.available <= MAX_RESPONSE_CREDITS
    && (s.available > 0 && s.parked > 0 ==> Stirring(s))
  }

  ghost predicate IsRun(states: seq<Sema>, steps: seq<Step>) {
    && |states| == |steps| + 1
    && states[0] == EMPTY
    && forall i :: 0 <= i < |steps| ==> Can(states[i], steps[i]) && states[i + 1] == Do(states[i], steps[i])
  }

  /** Credits that grants have put into the window over a run, after clamping. */
  function Granted(states: seq<Sema>, steps: seq<Step>): int
    requires |states| == |steps| + 1
    decreases |steps|
  {
    if steps == [] then 0
    else
      var last := |steps| - 1;
      Granted(states[..|states| - 1], steps[..last])
      + if steps[last].Grant? then Room(states[last].available, steps[last].count) else 0
  }

  /** No wakeup is lost, and every credit granted is either taken or still available. */
  lemma {:induction false} NoLostWakeup(states: seq<Sema>, steps: seq<Step>)
    requires IsRun(states, steps)
    ensures var s := states[|steps|];
            Inv(s) && s.available + s.taken == Granted(states, steps)
    decreases |steps|
  {
    if steps != [] {
      var last := |steps| - 1;
      assert IsRun(states[..|states| - 1], steps[..last]);
      NoLostWakeup(states[..|states| - 1], steps[..last]);
      assert states[|steps|] == Do(states[last], steps[last]);
    }
  }

  /** A window at rest starves nobody: parked takers mean there is no credit. */
  lemma RestingWindowHasNothingToGive(states: seq<Sema>, steps: seq<Step>)
    requires IsRun(states, steps) && !Stirring(states[|steps|])
    ensures states[|steps|].parked > 0 ==> states[|steps|].available == 0
  {
    NoLostWakeup(states, steps);
  }

  // ---- What takers get ----

  predicate OfTakers(step: Step) { step.Signal? || step.Check? || step.Receive? }

  /** A continuation of a run in which nobody grants, arrives or gives up. */
  ghost predicate Continues(states: seq<Sema>, steps: seq<Step>, states': seq<Sema>, steps': seq<Step>) {
    && IsRun(states', steps') && steps <= steps'
    && forall i :: |steps| <= i < |steps'| ==> OfTakers(steps'[i])
  }

  lemma Extend(states: seq<Sema>, steps: seq<Step>, step: Step) returns (states': seq<Sema>, steps': seq<Step>)
    requires IsRun(states, steps) && Can(states[|steps|], step)
    ensures IsRun(states', steps') && steps' == steps + [step]
    ensures states'[|steps'|] == Do(states[|steps|], step)
  {
    states', steps' := states + [Do(states[|steps|], step)], steps + [step];
    forall i | 0 <= i < |steps'|
      ensures Can(states'[i], steps'[i]) && states'[i + 1] == Do(states'[i], steps'[i])
    {
      if i < |steps| {
        assert states'[i] == states[i] && states'[i + 1] == states[i + 1] && steps'[i] == steps[i];
      }
    }
  }

  /** As long as there is credit and a parked taker, signals, wakes and checks alone get a credit taken. */
  lemma ParkedTakerIsServed(states: seq<Sema>, steps: seq<Step>) returns (states': seq<Sema>, steps': seq<Step>)
    requires IsRun(states, steps) && states[|steps|].available > 0 && states[|steps|].parked > 0
    ensures Continues(states, steps, states', steps')
    ensures states'[|steps'|].taken == states[|steps|].taken + 1
    ensures states'[|steps'|].available == states[|steps|].available - 1
  {
    NoLostWakeup(states, steps);
    states', steps' := states, steps;
    if states[|steps|].checking == 0 {
      if !states[|steps|].slot {
        states', steps' := Extend(states', steps', Signal);
      }
      states', steps' := Extend(states', steps', Receive);
    }
    states', steps' := Extend(states', steps', Check);
  }

  function Count(steps: seq<Step>, k: nat, step: Step): nat
    requires k <= |steps|
  {
    if k == 0 then 0 else Count(steps, k - 1, step) + if steps[k - 1] == step then 1 else 0
  }

  /** Every taker that arrived has a credit, gave up, or is still there. */
  lemma {:induction false} TakersAreAccounted(states: seq<Sema>, steps: seq<Step>, k: nat)
    requires IsRun(states, steps) && k < |states|
    ensures Count(steps, k, Arrive)
         == states[k].taken + states[k].checking + states[k].parked + Count(steps, k, GiveUp)
  {
    if k > 0 {
      TakersAreAccounted(states, steps, k - 1);
      assert states[k] == Do(states[k - 1], steps[k - 1]);
    }
  }

  /** A grant fills the window up to 64 and drops the rest; a check takes one credit, if there is one. Nothing else
      moves a credit. */
  lemma CreditMovesExactlyWhen(states: seq<Sema>, steps: seq<Step>, k: nat)
    requires IsRun(states, steps) && k < |steps|
    ensures var s, s' := states[k], states[k + 1];
      match steps[k]
      case Grant(count) =>
        s'.taken == s.taken && s'.available == if s.available + count <= 64 then s.available + count else 64
      case Check =>
        if s.available > 0 then s'.available == s.available - 1 && s'.taken == s.taken + 1
        else s'.available == s.available && s'.taken == s.taken && s'.parked == s.parked + 1
      case _ => s'.available == s.available && s'.taken == s.taken
  {
    PrefixInv(states, steps, k);
    assert Can(states[k], steps[k]) && states[k + 1] == Do(states[k], steps[k]);
  }

  lemma PrefixInv(states: seq<Sema>, steps: seq<Step>, k: nat)
    requires IsRun(states, steps) && k < |states|
    ensures Inv(states[k])
  {
    assert IsRun(states[..k + 1], steps[..k]);
    NoLostWakeup(states[..k + 1], steps[..k]);
  }

  /** Steps that gave a parked taker something to wake for: credit came, or a taker left some behind. */
  function Causes(states: seq<Sema>, steps: seq<Step>, k: nat): nat
    requires k <= |steps| < |states|
  {
    if k == 0 then 0
    else
      var s, s' := states[k - 1], states[k];
      Causes(states, steps, k - 1)
      + if s'.available > s.available || (s'.available < s.available && s'.available > 0) then 1 else 0
  }

  /** Every cause is signalled once, and nothing else is. The slot is full from a signal to the next wake. */
  lemma {:induction false} SignalsAreCounted(states: seq<Sema>, steps: seq<Step>, k: nat)
    requires IsRun(states, steps) && k < |states|
    ensures Count(steps, k, Signal) + states[k].owed == Causes(states, steps, k)
    ensures k > 0 ==> states[k].slot == (steps[k - 1].Signal? || (states[k - 1].slot && !steps[k - 1].Receive?))
  {
    if k > 0 {
      SignalsAreCounted(states, steps, k - 1);
      PrefixInv(states, steps, k - 1);
      assert Can(states[k - 1], steps[k - 1]) && states[k] == Do(states[k - 1], steps[k - 1]);
    }
  }

  /** A taker that arrives takes a credit at once if there is one, and parks otherwise. Parked it may give up, and any
      grant gets some taker served. */
  lemma ArrivalTakesOrParks(states: seq<Sema>, steps: seq<Step>) returns (states': seq<Sema>, steps': seq<Step>)
    requires IsRun(states, steps)
    ensures IsRun(states', steps') && steps' == steps + [Arrive, Check]
    ensures var s, s' := states[|steps|], states'[|steps'|];
      if s.available > 0 then s'.taken == s.taken + 1 && s'.parked == s.parked
      else s'.taken == s.taken && s'.parked == s.parked + 1
  {
    states', steps' := Extend(states, steps, Arrive);
    states', steps' := Extend(states', steps', Check);
  }

  /** Parked takers may give up at any time, all of them, which costs no credit and no signal. */
  lemma {:induction false} ParkedTakersMayGiveUp(states: seq<Sema>, steps: seq<Step>)
    returns (states': seq<Sema>, steps': seq<Step>)
    requires IsRun(states, steps)
    ensures IsRun(states', steps') && steps <= steps'
    ensures forall i :: |steps| <= i < |steps'| ==> steps'[i] == GiveUp
    ensures states'[|steps'|] == states[|steps|].(parked := 0)
    decreases states[|steps|].parked
  {
    states', steps' := states, steps;
    if states[|steps|].parked > 0 {
      states', steps' := Extend(states, steps, GiveUp);
      var more := steps';
      states', steps' := ParkedTakersMayGiveUp(states', steps');
      assert forall i :: |steps| <= i < |more| ==> steps'[i] == more[i];
    }
  }

  lemma GrantServesParkedTaker(states: seq<Sema>, steps: seq<Step>, count: nat)
    returns (states': seq<Sema>, steps': seq<Step>)
    requires IsRun(states, steps) && states[|steps|].parked > 0 && count > 0
    ensures IsRun(states', steps') && steps + [Grant(count)] <= steps'
    ensures states'[|steps'|].taken == states[|steps|].taken + 1
  {
    PrefixInv(states, steps, |steps|);
    states', steps' := Extend(states, steps, Grant(count));
    states', steps' := ParkedTakerIsServed(states', steps');
  }

  class ResponseCreditWindow {
    var available: int
    var wake: bool

    constructor ()
      ensures Valid() && available == 0 && !wake
    {
      available, wake := 0, false;
    }

    ghost predicate Valid()
      reads this
    {
      0 <= available <= MAX_RESPONSE_CREDITS
    }

    /** A send on a full channel falls through to the default case. */
    method SendWake()
      modifies this`wake
      ensures wake
    {
      if !wake {
        wake := true;
      }
    }

    method GrantCredits(count: nat)
      requires Valid()
      modifies this
      ensures Valid()
      ensures available == old(available) + Room(old(available), count)
      ensures wake == (old(wake) || Room(old(available), count) > 0)
    {
      if count == 0 || available >= MAX_RESPONSE_CREDITS {
        return;
      }
      var n := count;
      if n > MAX_RESPONSE_CREDITS - available {
        n := MAX_RESPONSE_CREDITS - available;
      }
      available := available + n;
      SendWake();
    }

    /** One turn of the `take` loop; false is the wait on the channel. */
    method TryTake() returns (took: bool)
      requires Valid()
      modifies this
      ensures Valid()
      ensures took == (old(available) > 0)
      ensures available == old(available) - if took then 1 else 0
      ensures wake == (old(wake) || (took && available > 0))
    {
      took := available > 0;
      if took {
        available := available - 1;
        if available > 0 {
          SendWake();
        }
      }
    }
  }
}
