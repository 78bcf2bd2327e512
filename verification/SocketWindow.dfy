/** Websocket credit: node to page, one hop.

The node spends one credit per message. The page hands credit back in batches of sixteen
consumed messages. The window opens with whatever `initialCredits` the page asked for.
 */
module SocketWindow {
  import opened Sums

  const MAX_CREDITS := 64
  const WS_CREDIT_BATCH := MAX_CREDITS / 4

  /** `held` counts credits taken by the pump for a message not sent yet, `messages` frames on the lane,
      `refills` credit frames on the way back. */
  datatype Socket = Socket(available: int, held: nat, messages: nat, consumed: int, refills: seq<int>)

  datatype Step = Take | Send | Deliver | Refill

  function Open(initial: int): Socket {
    Socket(initial, 0, 0, 0, [])
  }

  predicate Can(s: Socket, step: Step) {
    match step
    case Take => s.available > 0
    case Send => s.held > 0
    case Deliver => s.messages > 0
    case Refill => s.refills != []
  }

  function Do(s: Socket, step: Step): Socket
    requires Can(s, step)
  {
    match step
    case Take => s.(available := s.available - 1, held := s.held + 1)
    case Send => s.(held := s.held - 1, messages := s.messages + 1)
    case Deliver =>
      var consumed := s.consumed + 1;
      if consumed < WS_CREDIT_BATCH then s.(messages := s.messages - 1, consumed := consumed)
      else s.(messages := s.messages - 1, consumed := 0, refills := s.refills + [consumed])
    case Refill =>
      var available := if s.refills[0] > MAX_CREDITS - s.available then MAX_CREDITS else s.available + s.refills[0];
      s.(available := available, refills := s.refills[1..])
  }

  ghost predicate Inv(s: Socket, initial: int) {
    && s.available + s.held + s.messages + s.consumed + Sum(s.refills) == initial
    && 0 <= s.available && 0 <= s.consumed < WS_CREDIT_BATCH
    && (forall i :: 0 <= i < |s.refills| ==> s.refills[i] >= 1)
  }

  ghost predicate IsRun(initial: int, states: seq<Socket>, steps: seq<Step>) {
    && |states| == |steps| + 1
    && states[0] == Open(initial)
    && forall i :: 0 <= i < |steps| ==> Can(states[i], steps[i]) && states[i + 1] == Do(states[i], steps[i])
  }

  lemma StepKeepsInv(s: Socket, step: Step, initial: int)
    requires 1 <= initial <= MAX_CREDITS && Inv(s, initial) && Can(s, step)
    ensures Inv(Do(s, step), initial)
  {
    if step.Deliver? {
      SumConcat(s.refills, [s.consumed + 1]);
    } else if step.Refill? {
      SumAtLeast(s.refills[1..]);
    }
  }

  /** The window is conserved over every run. */
  lemma {:induction false} WindowConserved(initial: int, states: seq<Socket>, steps: seq<Step>, k: nat)
    requires 1 <= initial <= MAX_CREDITS && IsRun(initial, states, steps) && k < |states|
    ensures Inv(states[k], initial)
    decreases k
  {
    if k > 0 {
      WindowConserved(initial, states, steps, k - 1);
      StepKeepsInv(states[k - 1], steps[k - 1], initial);
    }
  }

  /** So the node's cap discards nothing: every refill of the page is added whole. A page that sends more than it owes
      fills the window up to 64 at most. */
  lemma RefillArrivesWhole(initial: int, states: seq<Socket>, steps: seq<Step>, k: nat)
    requires 1 <= initial <= MAX_CREDITS && IsRun(initial, states, steps) && k < |steps| && steps[k].Refill?
    ensures states[k].refills != []
    ensures states[k + 1].available == states[k].available + states[k].refills[0] <= 64
  {
    WindowConserved(initial, states, steps, k);
    assert Can(states[k], steps[k]) && states[k + 1] == Do(states[k], steps[k]);
    SumAtLeast(states[k].refills[1..]);
  }

  lemma RefillNeverOverfills(s: Socket)
    requires s.available <= 64 && s.refills != []
    ensures Do(s, Refill).available
         == if s.available + s.refills[0] <= 64 then s.available + s.refills[0] else 64
    ensures Do(s, Refill) == s.(available := Do(s, Refill).available, refills := s.refills[1..])
  {
  }

  /** Messages that the page has consumed. */
  function Consumptions(steps: seq<Step>, k: nat): nat
    requires k <= |steps|
  {
    if k == 0 then 0 else Consumptions(steps, k - 1) + if steps[k - 1].Deliver? then 1 else 0
  }

  lemma {:induction false} ConsumedSinceRefill(initial: int, states: seq<Socket>, steps: seq<Step>, k: nat)
    requires 1 <= initial <= MAX_CREDITS && IsRun(initial, states, steps) && k < |states|
    ensures states[k].consumed == Consumptions(steps, k) % 16
    decreases k
  {
    if k > 0 {
      ConsumedSinceRefill(initial, states, steps, k - 1);
      assert Can(states[k - 1], steps[k - 1]) && states[k] == Do(states[k - 1], steps[k - 1]);
    }
  }

  /** The page returns credit exactly with every sixteenth message it consumes, and then sixteen. */
  lemma RefillsExactlyEverySixteenth(initial: int, states: seq<Socket>, steps: seq<Step>, k: nat)
    requires 1 <= initial <= MAX_CREDITS && IsRun(initial, states, steps) && k < |steps| && steps[k].Deliver?
    ensures states[k + 1].refills
         == states[k].refills + if Consumptions(steps, k + 1) % 16 == 0 then [16] else []
    ensures states[k + 1].messages == states[k].messages - 1 && states[k + 1].available == states[k].available
  {
    ConsumedSinceRefill(initial, states, steps, k);
    assert Can(states[k], steps[k]) && states[k + 1] == Do(states[k], steps[k]);
    assert states[k].refills + [] == states[k].refills;
  }

  /** No step is left and the node may never send again. */
  predicate Stalled(s: Socket) {
    s.available == 0 && s.held == 0 && s.messages == 0 && s.refills == []
  }

  ghost predicate CanStall(initial: int) {
    exists states: seq<Socket>, steps: seq<Step> ::
      IsRun(initial, states, steps) && Stalled(states[|steps|])
  }

  /** After `n` messages sent and consumed one by one, from a window smaller than a batch. */
  function Consumed(initial: int, n: int): Socket {
    Socket(initial - n, 0, 0, n, [])
  }

  lemma Extend(initial: int, states: seq<Socket>, steps: seq<Step>, step: Step)
    returns (states': seq<Socket>, steps': seq<Step>)
    requires IsRun(initial, states, steps) && Can(states[|steps|], step)
    ensures IsRun(initial, states', steps') && states'[|steps'|] == Do(states[|steps|], step)
    ensures steps' == steps + [step]
  {
    states', steps' := states + [Do(states[|steps|], step)], steps + [step];
    forall i | 0 <= i < |steps'|
      ensures Can(states'[i], steps'[i]) && states'[i + 1] == Do(states'[i], steps'[i])
    {
      if i < |steps| {
        assert states'[i] == states[i] && states'[i + 1] == states[i + 1] && steps'[i] == steps[i];
      }
    }
  }

  lemma {:induction false} SmallWindowRunsDry(initial: int, n: nat) returns (states: seq<Socket>, steps: seq<Step>)
    requires 1 <= initial < 16 && n <= initial
    ensures IsRun(initial, states, steps) && states[|steps|] == Consumed(initial, n)
    decreases n
  {
    if n == 0 {
      return [Open(initial)], [];
    }
    states, steps := SmallWindowRunsDry(initial, n - 1);
    states, steps := Extend(initial, states, steps, Take);
    states, steps := Extend(initial, states, steps, Send);
    states, steps := Extend(initial, states, steps, Deliver);
  }

  /** A socket can run dry for good exactly when its window is smaller than one batch of sixteen. */
  lemma StallsExactlyBelowOneBatch(initial: int)
    requires 1 <= initial <= MAX_CREDITS
    ensures CanStall(initial) <==> initial < 16
  {
    if initial < WS_CREDIT_BATCH {
      var states, steps := SmallWindowRunsDry(initial, initial);
      assert IsRun(initial, states, steps) && Stalled(states[|steps|]);
    } else if CanStall(initial) {
      var states: seq<Socket>, steps: seq<Step> :| IsRun(initial, states, steps) && Stalled(states[|steps|]);
      WindowConserved(initial, states, steps, |steps|);
    }
  }

  /** Messages and refills still to be worked through. */
  function Work(s: Socket): nat { 3 * s.held + 2 * s.messages + |s.refills| }

  function NextWork(s: Socket): Step {
    if s.refills != [] then Refill else if s.messages > 0 then Deliver else Send
  }

  /** From every state of a window of at least one batch, sending, delivering and refilling what is under way lets the
      node send again. */
  lemma {:induction false} NodeCanSendAgain(initial: int, states: seq<Socket>, steps: seq<Step>)
    returns (states': seq<Socket>, steps': seq<Step>)
    requires 16 <= initial <= MAX_CREDITS && IsRun(initial, states, steps)
    ensures IsRun(initial, states', steps') && steps <= steps' && states'[|steps'|].available > 0
    ensures forall i :: |steps| <= i < |steps'| ==> !steps'[i].Take?
    decreases Work(states[|steps|])
  {
    WindowConserved(initial, states, steps, |steps|);
    states', steps' := states, steps;
    var s := states[|steps|];
    if s.available == 0 {
      states', steps' := Extend(initial, states', steps', NextWork(s));
      var more := steps';
      states', steps' := NodeCanSendAgain(initial, states', steps');
      assert forall i :: |steps| <= i < |steps'| ==> steps'[i] == if i < |more| then more[i] else steps'[i];
    }
  }
}
