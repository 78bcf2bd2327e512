/** What the scheduler gets done, over every run.

The invariant of `Scheduler` says what never happens. Here: a held request starts exactly when it may, a request that
could start is started by the scheduler's own steps, and cancelled or closed requests never start.
 */
module SchedulerEffects {
  import opened Options
  import opened Scheduler
  import Tombstones

  /** What the limits leave room for, counted on the handlers that run. */
  ghost predicate HasRoom(s: Session, priority: nat) {
    |s.running| < 16 && (priority == 0 || |NonInteractiveOf(s.table.reqs, s.running)| < 3)
  }

  /** An open session holds the request, has not started it and has room for it. */
  ghost predicate Startable(s: Session, serial: nat) {
    && !s.table.closed && Live(s.table, serial) && serial !in s.starts
    && HasRoom(s, s.table.reqs[serial].priority)
  }

  lemma StartableIsCanStart(s: Session, serial: nat)
    requires Counted(s) && StartedOnce(s)
    ensures Startable(s, serial) <==> CanStart(s.table, serial)
  {
  }

  // ---------------------------------------------------------------------------
  // A held request
  // ---------------------------------------------------------------------------

  lemma TryStartDoes(s: Session)
    requires Inv(s) && Can(s, TryStart)
    ensures var serial, s' := s.dispatcher.serial, Do(s, TryStart);
      && s'.active == s.active && s'.nonInteractive == s.nonInteractive
      && (Startable(s, serial) ==>
            s'.starts == s.starts + [serial] && s'.running == s.running + {serial} && serial !in s.running
            && s'.dispatcher.Selecting?)
      && (!Startable(s, serial) ==>
            s'.starts == s.starts && s'.running == s.running
            && s'.dispatcher == Releasing(s.table.reqs[serial].priority != 0))
  {
    StartableIsCanStart(s, s.dispatcher.serial);
  }

  /** The request a dispatcher holds tokens for starts exactly when it may; then only that request starts. */
  lemma HeldRequestStartsExactlyWhen(states: seq<Session>, steps: seq<Step>, k: nat)
    requires IsRun(states, steps) && k < |steps| && steps[k].TryStart?
    ensures states[k].dispatcher.Holding? && states[k].dispatcher.serial < |states[k].table.reqs|
    ensures var s, s', serial := states[k], states[k + 1], states[k].dispatcher.serial;
      && (Startable(s, serial) ==>
            s'.starts == s.starts + [serial] && s'.running == s.running + {serial} && serial !in s.running)
      && (!Startable(s, serial) ==>
            s'.starts == s.starts && s'.running == s.running
            && s'.dispatcher == Releasing(s.table.reqs[serial].priority != 0))
  {
    RunInv(states, steps, k);
    assert Linked(states, steps, k);
    TryStartDoes(states[k]);
  }

  lemma OthersKeepDispatcher(s: Session, step: Step)
    requires Can(s, step) && !OfDispatcher(step) && !s.dispatcher.Idle?
    ensures Do(s, step).dispatcher == s.dispatcher
  {
  }

  lemma DispatcherStaysOnce(states: seq<Session>, steps: seq<Step>, k: nat)
    requires IsRun(states, steps) && k < |steps| && !states[k].dispatcher.Idle? && !OfDispatcher(steps[k])
    ensures states[k + 1].dispatcher == states[k].dispatcher
  {
    assert Linked(states, steps, k);
    OthersKeepDispatcher(states[k], steps[k]);
  }

  /** Until the dispatcher moves again it is where it was. */
  lemma {:induction false} DispatcherStays(states: seq<Session>, steps: seq<Step>, i: nat, j: nat)
    requires IsRun(states, steps) && i <= j < |states| && !states[i].dispatcher.Idle?
    requires forall k :: i <= k < j ==> !OfDispatcher(steps[k])
    ensures states[j].dispatcher == states[i].dispatcher
    decreases j
  {
    if i < j {
      DispatcherStays(states, steps, i, j - 1);
      DispatcherStaysOnce(states, steps, j - 1);
    }
  }

  lemma ReleasingReleases(s: Session, step: Step)
    requires Can(s, step) && OfDispatcher(step) && s.dispatcher.Releasing?
    ensures step.Release?
    ensures var s' := Do(s, step);
      && s'.active.free == s.active.free + 1 && s'.dispatcher.Selecting?
      && s'.nonInteractive.free == s.nonInteractive.free + if s.dispatcher.ni then 1 else 0
  {
  }

  /** After a refused start the dispatcher's next step gives both tokens back. */
  lemma RefusedStartReturnsTokens(states: seq<Session>, steps: seq<Step>, i: nat, j: nat)
    requires IsRun(states, steps) && i < j < |steps| && steps[i].TryStart? && OfDispatcher(steps[j])
    requires states[i].dispatcher.Holding? && !Startable(states[i], states[i].dispatcher.serial)
    requires forall k :: i < k < j ==> !OfDispatcher(steps[k])
    ensures states[i].dispatcher.serial < |states[i].table.reqs|
    ensures states[j + 1].active.free == states[j].active.free + 1 && states[j + 1].dispatcher.Selecting?
    ensures var nonInteractive := states[i].table.reqs[states[i].dispatcher.serial].priority != 0;
      states[j + 1].nonInteractive.free == states[j].nonInteractive.free + if nonInteractive then 1 else 0
  {
    HeldRequestStartsExactlyWhen(states, steps, i);
    DispatcherStays(states, steps, i + 1, j);
    assert Linked(states, steps, j);
    ReleasingReleases(states[j], steps[j]);
  }

  // ---------------------------------------------------------------------------
  // What could start is started
  // ---------------------------------------------------------------------------

  /** Who takes part in a continuation: the scheduler's own threads; handlers that return, which removes their request;
      or both, while other peers give tokens back. No request comes, and none that has not run goes. */
  datatype Parties = Threads | Handlers | Everyone

  predicate Own(step: Step) {
    OfDispatcher(step) || step.SendSignal? || step.ReturnAdmission? || step.ReturnPlain? || step.ReturnBoth?
    || step.ReturnLast? || step.ReturnClosed?
  }

  predicate Returns(s: Session, step: Step) {
    step.HandlerExit? || (step.Cancel? && step.serial in s.running)
  }

  predicate By(who: Parties, s: Session, step: Step) {
    match who
    case Threads => Own(step)
    case Handlers => Returns(s, step)
    case Everyone => Own(step) || Returns(s, step) || step.OtherReturns?
  }

  predicate CanAll(who: Parties, s: Session, steps: seq<Step>)
    decreases |steps|
  {
    steps == [] || (Can(s, steps[0]) && By(who, s, steps[0]) && CanAll(who, Do(s, steps[0]), steps[1..]))
  }

  function DoAll(who: Parties, s: Session, steps: seq<Step>): Session
    requires CanAll(who, s, steps)
    decreases |steps|
  {
    if steps == [] then s else DoAll(who, Do(s, steps[0]), steps[1..])
  }

  /** Some continuation by these parties leads to `s'`. */
  ghost predicate Leads(who: Parties, s: Session, s': Session) {
    exists steps :: CanAll(who, s, steps) && DoAll(who, s, steps) == s'
  }

  lemma LeadsToSelf(who: Parties, s: Session)
    ensures Leads(who, s, s)
  {
    assert CanAll(who, s, []) && DoAll(who, s, []) == s;
  }

  lemma LeadsFirst(who: Parties, s: Session, step: Step, s': Session)
    requires Can(s, step) && By(who, s, step) && Leads(who, Do(s, step), s')
    ensures Leads(who, s, s')
  {
    var rest :| CanAll(who, Do(s, step), rest) && DoAll(who, Do(s, step), rest) == s';
    var steps := [step] + rest;
    assert steps[1..] == rest;
    assert CanAll(who, s, steps) && DoAll(who, s, steps) == s';
  }

  lemma {:induction false} AllChain(who: Parties, s: Session, steps: seq<Step>, s'': Session)
    requires CanAll(who, s, steps) && Leads(Everyone, DoAll(who, s, steps), s'')
    ensures Leads(Everyone, s, s'')
    decreases |steps|
  {
    if steps != [] {
      AllChain(who, Do(s, steps[0]), steps[1..], s'');
      LeadsFirst(Everyone, s, steps[0], s'');
    }
  }

  lemma LeadsOn(who: Parties, s: Session, s': Session, s'': Session)
    requires Leads(who, s, s') && Leads(Everyone, s', s'')
    ensures Leads(Everyone, s, s'')
  {
    var steps :| CanAll(who, s, steps) && DoAll(who, s, steps) == s';
    AllChain(who, s, steps, s'');
  }

  /** `serial` is the best startable request: of the best class that has one, the oldest. */
  ghost predicate Best(s: Session, serial: nat) {
    && Startable(s, serial)
    && forall other: nat :: Startable(s, other) ==>
         || s.table.reqs[serial].priority < s.table.reqs[other].priority
         || (s.table.reqs[serial].priority == s.table.reqs[other].priority && serial <= other)
  }

  lemma BestIsNext(s: Session, serial: nat)
    requires Inv(s) && Best(s, serial)
    ensures Next(s.table) == Some(serial)
  {
    NextIsBestChoice(s.table, 0);
    forall other: nat
      ensures Startable(s, other) <==> CanStart(s.table, other)
    {
      StartableIsCanStart(s, other);
    }
    assert CanStart(s.table, serial);
    var choice := Next(s.table).value;
    assert CanStart(s.table, choice) && Startable(s, choice);
  }

  /** The started request, and nothing else, has been added to what has started and what runs. */
  predicate Ran(s: Session, s': Session, serial: nat) {
    s'.starts == s.starts + [serial] && s'.running == s.running + {serial}
  }

  lemma HoldingLeads(s: Session, serial: nat) returns (s': Session)
    requires Inv(s) && Startable(s, serial) && s.dispatcher.Holding? && s.dispatcher.serial == serial
    ensures Leads(Threads, s, s') && Ran(s, s', serial)
  {
    TryStartDoes(s);
    s' := Do(s, TryStart);
    LeadsToSelf(Threads, s');
    LeadsFirst(Threads, s, TryStart, s');
  }

  lemma WaitingLeads(s: Session, serial: nat) returns (s': Session)
    requires Inv(s) && Startable(s, serial) && s.dispatcher.Waiting? && s.dispatcher.serial == serial
    requires s.active.free > 0
    requires s.table.reqs[serial].priority != 0 && !s.dispatcher.ni ==> s.nonInteractive.free > 0
    ensures Leads(Threads, s, s') && Ran(s, s', serial)
    decreases if s.dispatcher.ni then 0 else 1
  {
    if s.table.reqs[serial].priority != 0 && !s.dispatcher.ni {
      StepKeepsInv(s, TakeNonInteractive);
      s' := WaitingLeads(Do(s, TakeNonInteractive), serial);
      LeadsFirst(Threads, s, TakeNonInteractive, s');
    } else {
      StepKeepsInv(s, TakeActive);
      s' := HoldingLeads(Do(s, TakeActive), serial);
      LeadsFirst(Threads, s, TakeActive, s');
    }
  }

  /** The tokens that a request of this class runs with are free. */
  predicate TokensFree(s: Session, priority: nat) {
    s.active.free > 0 && (priority != 0 ==> s.nonInteractive.free > 0)
  }

  /** The best startable request has tokens to run with. */
  ghost predicate Ready(s: Session, serial: nat) {
    Inv(s) && Best(s, serial) && TokensFree(s, s.table.reqs[serial].priority)
  }

  /** From a selecting dispatcher, with its tokens free, the best startable request ends up running. */
  lemma SelectingLeads(s: Session, serial: nat) returns (s': Session)
    requires Ready(s, serial) && s.dispatcher.Selecting?
    ensures Leads(Threads, s, s') && Ran(s, s', serial)
  {
    BestIsNext(s, serial);
    StepKeepsInv(s, Select);
    s' := WaitingLeads(Do(s, Select), serial);
    LeadsFirst(Threads, s, Select, s');
  }

  /** Steps that only bring the dispatcher round to selecting again. */
  predicate Preparing(step: Step) {
    step.TakeWake? || step == AbandonWait(true) || step.Release? || step.SendSignal? || step.ReturnAdmission?
    || step.ReturnPlain? || step.ReturnBoth? || step.ReturnLast?
  }

  lemma PreparingMovesNothing(s: Session, step: Step)
    requires Can(s, step) && Preparing(step)
    ensures var s' := Do(s, step);
      && s'.table == s.table && s'.running == s.running && s'.starts == s.starts
      && s'.active.free >= s.active.free && s'.nonInteractive.free >= s.nonInteractive.free
  {
  }

  lemma SameBest(s: Session, s': Session, serial: nat)
    requires Best(s, serial) && s'.table == s.table && s'.running == s.running && s'.starts == s.starts
    ensures Best(s', serial)
  {
  }

  lemma PreparingKeepsReady(s: Session, step: Step, serial: nat)
    requires Ready(s, serial) && Can(s, step) && Preparing(step)
    ensures Ready(Do(s, step), serial) && Do(s, step).starts == s.starts && Do(s, step).running == s.running
  {
    PreparingMovesNothing(s, step);
    StepKeepsInv(s, step);
    SameBest(s, Do(s, step), serial);
  }

  /** A dispatcher that is parked, or waits for a request that is no longer the best, is interrupted. */
  lemma WokenLeads(s: Session, serial: nat) returns (s': Session)
    requires Ready(s, serial) && s.wake && (s.dispatcher.Parked? || s.dispatcher.Waiting?)
    ensures Leads(Threads, s, s') && Ran(s, s', serial)
  {
    var step := if s.dispatcher.Parked? then TakeWake else AbandonWait(true);
    PreparingKeepsReady(s, step, serial);
    s' := SelectingLeads(Do(s, step), serial);
    LeadsFirst(Threads, s, step, s');
  }

  lemma SignalledLeads(s: Session, serial: nat) returns (s': Session)
    requires Ready(s, serial) && s.signals > 0 && (s.dispatcher.Parked? || s.dispatcher.Waiting?)
    ensures Leads(Threads, s, s') && Ran(s, s', serial)
  {
    PreparingKeepsReady(s, SendSignal, serial);
    s' := WokenLeads(Do(s, SendSignal), serial);
    LeadsFirst(Threads, s, SendSignal, s');
  }

  /** Whoever owes the dispatcher a signal, directly, comes to send it. */
  lemma OwedLeads(s: Session, serial: nat) returns (s': Session)
    requires Ready(s, serial) && (s.dispatcher.Parked? || s.dispatcher.Waiting?)
    requires s.exitPlain > 0 || s.exitLast > 0 || s.cancelling > 0
    ensures Leads(Threads, s, s') && Ran(s, s', serial)
  {
    var step := if s.exitPlain > 0 then ReturnPlain else if s.exitLast > 0 then ReturnLast else ReturnAdmission;
    PreparingKeepsReady(s, step, serial);
    s' := SignalledLeads(Do(s, step), serial);
    LeadsFirst(Threads, s, step, s');
  }

  lemma OwedBothLeads(s: Session, serial: nat) returns (s': Session)
    requires Ready(s, serial) && (s.dispatcher.Parked? || s.dispatcher.Waiting?) && s.exitBoth > 0
    ensures Leads(Threads, s, s') && Ran(s, s', serial)
  {
    PreparingKeepsReady(s, ReturnBoth, serial);
    s' := OwedLeads(Do(s, ReturnBoth), serial);
    LeadsFirst(Threads, s, ReturnBoth, s');
  }

  lemma ReleasingLeads(s: Session, serial: nat) returns (s': Session)
    requires Ready(s, serial) && s.dispatcher.Releasing?
    ensures Leads(Threads, s, s') && Ran(s, s', serial)
  {
    PreparingKeepsReady(s, Release, serial);
    s' := SelectingLeads(Do(s, Release), serial);
    LeadsFirst(Threads, s, Release, s');
  }

  /** A parked or misplaced dispatcher is woken, at once or by a thread that owes it a signal. */
  lemma InterruptedLeads(s: Session, serial: nat) returns (s': Session)
    requires Ready(s, serial) && (s.dispatcher.Parked? || s.dispatcher.Waiting?)
    requires s.wake || SignalOwed(s) || s.cancelling > 0
    ensures Leads(Threads, s, s') && Ran(s, s', serial)
  {
    if s.wake {
      s' := WokenLeads(s, serial);
    } else if s.signals > 0 {
      s' := SignalledLeads(s, serial);
    } else if s.exitBoth > 0 {
      s' := OwedBothLeads(s, serial);
    } else {
      s' := OwedLeads(s, serial);
    }
  }

  lemma StepKeepsExited(s: Session, step: Step)
    requires Can(s, step) && (s.dispatcher.Exited? ==> s.table.closed)
    ensures Do(s, step).dispatcher.Exited? ==> Do(s, step).table.closed
  {
  }

  /** The dispatcher leaves only a closed session. */
  lemma {:induction false} ExitedIsClosed(states: seq<Session>, steps: seq<Step>, k: nat)
    requires IsRun(states, steps) && k < |states|
    ensures states[k].dispatcher.Exited? ==> states[k].table.closed
  {
    if k > 0 {
      ExitedIsClosed(states, steps, k - 1);
      assert Linked(states, steps, k - 1);
      StepKeepsExited(states[k - 1], steps[k - 1]);
    }
  }

  lemma BestRuns(s: Session, serial: nat) returns (s': Session)
    requires Ready(s, serial) && !s.dispatcher.Holding? && (s.dispatcher.Exited? ==> s.table.closed)
    ensures Leads(Threads, s, s') && Ran(s, s', serial)
  {
    BestIsNext(s, serial);
    if s.dispatcher.Selecting? {
      s' := SelectingLeads(s, serial);
    } else if s.dispatcher.Releasing? {
      s' := ReleasingLeads(s, serial);
    } else if s.dispatcher.Waiting? && s.dispatcher.serial == serial {
      s' := WaitingLeads(s, serial);
    } else {
      s' := InterruptedLeads(s, serial);
    }
  }

  /** In every reachable state in which the best startable request has the tokens it needs, unless the dispatcher is
      committed to another request, the scheduler's own steps get it running: no wake is lost and no wait is stuck. An
      interactive request needs no non-interactive token, also while the dispatcher waits for one. */
  lemma BestChoiceRuns(states: seq<Session>, steps: seq<Step>, k: nat, serial: nat) returns (s': Session)
    requires IsRun(states, steps) && k < |states| && Best(states[k], serial) && !states[k].dispatcher.Holding?
    requires states[k].active.free > 0
    requires states[k].table.reqs[serial].priority != 0 ==> states[k].nonInteractive.free > 0
    ensures Leads(Threads, states[k], s')
    ensures s'.starts == states[k].starts + [serial] && s'.running == states[k].running + {serial}
  {
    RunInv(states, steps, k);
    ExitedIsClosed(states, steps, k);
    s' := BestRuns(states[k], serial);
  }

  // ---------------------------------------------------------------------------
  // Admission
  // ---------------------------------------------------------------------------

  /** A request is admitted exactly when the session is open, its lane is attached, its id neither belongs to a live
      request nor to a removed upload that is still draining, the peer has fewer than 256 requests, of which, for one
      with a body, fewer than four have one, and its reservations were granted. Admitted, it is in the table and
      unstarted, and the dispatcher will hear of it; otherwise nothing changes but that expired tombstones go. */
  lemma AdmittedExactlyWhen(states: seq<Session>, steps: seq<Step>, k: nat)
    requires IsRun(states, steps) && k < |steps| && steps[k].Begin?
    ensures var s, s', r := states[k], states[k + 1], steps[k].request;
      var considered := !s.table.closed && Attached(s.lanes, r.lane) && r.id !in s.table.requests;
      var draining := r.id in s.draining && steps[k].now < s.draining[r.id].expires;
      var admitted := considered && !draining && |s.table.requests| < 256 && s.admission.free > 0
                      && (r.hasBody ==> |BodiesOf(s.table)| < 4 && steps[k].bodyReserved);
      && (!admitted ==> s' == s.(draining := s'.draining))
      && (admitted ==>
            && s'.table.reqs == s.table.reqs + [r] && s'.table.requests == s.table.requests[r.id := |s.table.reqs|]
            && Live(s'.table, |s.table.reqs|) && |s.table.reqs| !in s'.starts
            && s'.admission.free == s.admission.free - 1 && s'.signals > s.signals && !s'.dispatcher.Idle?)
      && (!considered ==> s'.draining == s.draining)
      && (considered ==> s'.draining == map id | id in s.draining && steps[k].now < s.draining[id].expires
                                                :: s.draining[id])
  {
    RunInv(states, steps, k);
    assert Linked(states, steps, k);
    AdmitDoes(states[k], steps[k]);
  }

  lemma AdmitDoes(s: Session, step: Step)
    requires Inv(s) && step.Begin? && Can(s, step)
    ensures var s', r := Do(s, step), step.request;
      && (!Admits(s, r, step.bodyReserved, step.now) ==> s' == s.(draining := s'.draining))
      && (Admits(s, r, step.bodyReserved, step.now) ==>
            && s'.table.reqs == s.table.reqs + [r] && s'.table.requests == s.table.requests[r.id := |s.table.reqs|]
            && Live(s'.table, |s.table.reqs|) && |s.table.reqs| !in s'.starts
            && s'.admission.free == s.admission.free - 1 && s'.signals > s.signals && !s'.dispatcher.Idle?)
      && s'.draining == if Considers(s, r) then Tombstones.Unexpired(s.draining, step.now) else s.draining
  {
  }

  // ---------------------------------------------------------------------------
  // Removal
  // ---------------------------------------------------------------------------

  /** A cancelled request leaves the table, alone. */
  lemma CancelTakesEffect(states: seq<Session>, steps: seq<Step>, k: nat)
    requires IsRun(states, steps) && k < |steps| && steps[k].Cancel?
    ensures Live(states[k].table, steps[k].serial) && !Live(states[k + 1].table, steps[k].serial)
    ensures forall other: nat :: other != steps[k].serial ==>
              (Live(states[k + 1].table, other) <==> Live(states[k].table, other))
    ensures states[k + 1].cancelling == states[k].cancelling + 1
  {
    assert Linked(states, steps, k);
  }

  /** A close empties the table, drops lanes and tombstones, and owes every admission token it held. */
  lemma CloseTakesEffect(states: seq<Session>, steps: seq<Step>, k: nat)
    requires IsRun(states, steps) && k < |steps| && steps[k].Close?
    ensures states[k + 1].table.closed && states[k + 1].table.requests == map[]
    ensures states[k + 1].lanes.attached == map[] && states[k + 1].draining == map[] && states[k + 1].detaching == {}
    ensures states[k + 1].closing == states[k].closing + |states[k].table.requests|
    ensures states[k + 1].signals > 0
  {
    assert Linked(states, steps, k);
  }

  /** A request that has left the table. */
  predicate Gone(t: Table, serial: nat) {
    serial < |t.reqs| && !Live(t, serial)
  }

  lemma StepKeepsGone(s: Session, step: Step, serial: nat)
    requires StartedOnce(s) && Can(s, step) && Gone(s.table, serial)
    ensures Gone(Do(s, step).table, serial)
  {
    if Quiet(step) {
      QuietTouchesOnlyQueues(s, step);
    }
  }

  lemma GoneIsNotStarted(s: Session, step: Step, serial: nat)
    requires Can(s, step) && Gone(s.table, serial) && serial !in s.starts
    ensures serial !in Do(s, step).starts
  {
    if Quiet(step) {
      QuietTouchesOnlyQueues(s, step);
    }
  }

  lemma GoneStaysUnstarted(states: seq<Session>, steps: seq<Step>, k: nat, serial: nat)
    requires IsRun(states, steps) && k < |steps| && Gone(states[k].table, serial) && serial !in states[k].starts
    ensures Gone(states[k + 1].table, serial) && serial !in states[k + 1].starts
  {
    RunInv(states, steps, k);
    assert Linked(states, steps, k);
    StepKeepsGone(states[k], steps[k], serial);
    GoneIsNotStarted(states[k], steps[k], serial);
  }

  /** A request that leaves the table unstarted never starts, whatever request takes over its id. */
  lemma {:induction false} RemovedNeverStarts(
      states: seq<Session>, steps: seq<Step>, i: nat, j: nat, serial: nat)
    requires IsRun(states, steps) && i <= j < |states| && Gone(states[i].table, serial) && serial !in states[i].starts
    ensures Gone(states[j].table, serial) && serial !in states[j].starts
    decreases j
  {
    if i < j {
      RemovedNeverStarts(states, steps, i, j - 1, serial);
      GoneStaysUnstarted(states, steps, j - 1, serial);
    }
  }

  lemma StepKeepsClosed(s: Session, step: Step)
    requires Can(s, step) && s.table.closed && s.table.requests == map[]
    ensures Do(s, step).table.closed
    ensures Do(s, step).starts == s.starts && Do(s, step).table.reqs == s.table.reqs
  {
    if Quiet(step) {
      QuietTouchesOnlyQueues(s, step);
    }
  }

  lemma ClosedIsEmpty(states: seq<Session>, steps: seq<Step>, k: nat)
    requires IsRun(states, steps) && k < |states| && states[k].table.closed
    ensures states[k].table.requests == map[]
  {
    RunInv(states, steps, k);
  }

  lemma ClosedStep(states: seq<Session>, steps: seq<Step>, k: nat)
    requires IsRun(states, steps) && k < |steps| && states[k].table.closed
    ensures states[k + 1].table.closed
    ensures states[k + 1].starts == states[k].starts && states[k + 1].table.reqs == states[k].table.reqs
  {
    ClosedIsEmpty(states, steps, k);
    assert Linked(states, steps, k);
    StepKeepsClosed(states[k], steps[k]);
  }

  /** A closed session admits and starts nothing. */
  lemma {:induction false} ClosedForGood(states: seq<Session>, steps: seq<Step>, i: nat, j: nat)
    requires IsRun(states, steps) && i <= j < |states| && states[i].table.closed
    ensures states[j].table.closed
    ensures states[j].starts == states[i].starts && states[j].table.reqs == states[i].table.reqs
    decreases j
  {
    if i < j {
      ClosedForGood(states, steps, i, j - 1);
      ClosedStep(states, steps, j - 1);
    }
  }

  // ---------------------------------------------------------------------------
  // Signals
  // ---------------------------------------------------------------------------

  /** A request was admitted, the session closed, or a thread has returned the last token it owed. */
  predicate Stirs(s: Session, step: Step, s': Session) {
    || |s'.table.reqs| > |s.table.reqs| || step.Close?
    || step.ReturnAdmission? || step.ReturnPlain? || step.ReturnLast?
  }

  function Causes(states: seq<Session>, steps: seq<Step>, k: nat): nat
    requires k <= |steps| < |states|
  {
    if k == 0 then 0 else Causes(states, steps, k - 1) + if Stirs(states[k - 1], steps[k - 1], states[k]) then 1 else 0
  }

  function Sent(steps: seq<Step>, k: nat): nat
    requires k <= |steps|
  {
    if k == 0 then 0 else Sent(steps, k - 1) + if steps[k - 1].SendSignal? then 1 else 0
  }

  lemma StepSignals(s: Session, step: Step)
    requires Can(s, step)
    ensures var s' := Do(s, step);
      && s'.signals == s.signals + (if Stirs(s, step, s') then 1 else 0) - (if step.SendSignal? then 1 else 0)
      && s'.wake == (step.SendSignal? || (s.wake && !step.TakeWake? && step != AbandonWait(true)))
  {
  }

  /** Every cause is signalled to the dispatcher once, and nothing else is. The channel holds a wake from a signal until
      the dispatcher, parked or waiting for tokens, takes it. */
  lemma {:induction false} SignalsAreCounted(states: seq<Session>, steps: seq<Step>, k: nat)
    requires IsRun(states, steps) && k < |states|
    ensures Sent(steps, k) + states[k].signals == Causes(states, steps, k)
    ensures states[k].wake == (k > 0 && (steps[k - 1].SendSignal?
              || (states[k - 1].wake && !steps[k - 1].TakeWake? && steps[k - 1] != AbandonWait(true))))
  {
    if k > 0 {
      SignalsAreCounted(states, steps, k - 1);
      assert Linked(states, steps, k - 1);
      StepSignals(states[k - 1], steps[k - 1]);
    }
  }

  // ---------------------------------------------------------------------------
  // Tokens
  // ---------------------------------------------------------------------------

  /** A handler that returns stops running, alone, and owes the tokens it ran with. */
  lemma ExitTakesEffect(states: seq<Session>, steps: seq<Step>, k: nat)
    requires IsRun(states, steps) && k < |steps| && steps[k].HandlerExit?
    ensures steps[k].serial < |states[k].table.reqs| && steps[k].serial in states[k].running
    ensures states[k + 1].running == states[k].running - {steps[k].serial}
    ensures states[k + 1].table.requests == states[k].table.requests && states[k + 1].starts == states[k].starts
    ensures var nonInteractive := states[k].table.reqs[steps[k].serial].priority != 0;
      && states[k + 1].exitBoth == states[k].exitBoth + (if nonInteractive then 1 else 0)
      && states[k + 1].exitPlain == states[k].exitPlain + (if nonInteractive then 0 else 1)
  {
    assert Linked(states, steps, k);
  }

  function Owed(s: Session): nat {
    s.cancelling + s.closing + s.exitPlain + 2 * s.exitBoth + s.exitLast
  }

  function NextReturn(s: Session): Step {
    if s.cancelling > 0 then ReturnAdmission else if s.closing > 0 then ReturnClosed
    else if s.exitPlain > 0 then ReturnPlain else if s.exitBoth > 0 then ReturnBoth else ReturnLast
  }

  /** What is free in each pool once the threads that owe tokens have returned them. */
  predicate Settles(s: Session, s': Session) {
    && Owed(s') == 0
    && s'.admission.free == s.admission.free + s.cancelling + s.closing
    && s'.active.free == s.active.free + s.exitPlain + s.exitBoth
    && s'.nonInteractive.free == s.nonInteractive.free + s.exitBoth + s.exitLast
  }

  lemma ReturnSettlesOne(s: Session)
    requires |s.table.pending| == CLASSES && Owed(s) > 0
    ensures Can(s, NextReturn(s)) && Own(NextReturn(s)) && |Do(s, NextReturn(s)).table.pending| == CLASSES
    ensures Owed(Do(s, NextReturn(s))) == Owed(s) - 1
    ensures forall s' :: Settles(Do(s, NextReturn(s)), s') ==> Settles(s, s')
  {
  }

  /** Every thread that owes a token can return it, and then each pool is that much fuller. */
  lemma {:induction false} OwedTokensComeBack(s: Session) returns (s': Session)
    requires |s.table.pending| == CLASSES
    ensures Leads(Threads, s, s') && Settles(s, s')
    decreases Owed(s)
  {
    if Owed(s) == 0 {
      s' := s;
      LeadsToSelf(Threads, s);
    } else {
      ReturnSettlesOne(s);
      s' := OwedTokensComeBack(Do(s, NextReturn(s)));
      LeadsFirst(Threads, s, NextReturn(s), s');
    }
  }

  // ---------------------------------------------------------------------------
  // Everything can wind down
  // ---------------------------------------------------------------------------

  lemma Extend(states: seq<Session>, steps: seq<Step>, step: Step) returns (states': seq<Session>, steps': seq<Step>)
    requires IsRun(states, steps) && Can(states[|steps|], step)
    ensures IsRun(states', steps') && steps' == steps + [step]
    ensures states'[|steps'|] == Do(states[|steps|], step)
  {
    states', steps' := states + [Do(states[|steps|], step)], steps + [step];
    forall i | 0 <= i < |steps'|
      ensures Linked(states', steps', i)
    {
      if i < |steps| {
        assert Linked(states, steps, i);
        assert states'[i] == states[i] && states'[i + 1] == states[i + 1] && steps'[i] == steps[i];
      }
    }
  }

  /** A request in the table may be cancelled at any moment, before or after it started. */
  lemma RequestMayBeCancelled(states: seq<Session>, steps: seq<Step>, serial: nat)
    returns (states': seq<Session>, steps': seq<Step>)
    requires IsRun(states, steps) && Live(states[|steps|].table, serial)
    ensures IsRun(states', steps') && steps' == steps + [Cancel(serial, false, 0, {})]
    ensures !Live(states'[|steps'|].table, serial)
  {
    RunInv(states, steps, |steps|);
    states', steps' := Extend(states, steps, Cancel(serial, false, 0, {}));
  }

  /** What a continuation leaves alone until a request starts. */
  ghost predicate Undisturbed(s: Session, s': Session) {
    && s'.table.reqs == s.table.reqs && s'.table.closed == s.table.closed && s'.starts == s.starts
    && s'.dispatcher == s.dispatcher
    && forall serial: nat :: serial !in s.starts ==> (Live(s'.table, serial) <==> Live(s.table, serial))
  }

  /** The next step of a handler that returns: its request leaves the table, then the handler exits. */
  function NextExit(s: Session, serial: nat): Step {
    if Live(s.table, serial) then Cancel(serial, false, 0, {}) else HandlerExit(serial)
  }

  lemma ExitStep(s: Session, serial: nat)
    requires Inv(s) && serial in s.running && !s.dispatcher.Idle?
    ensures var step := NextExit(s, serial);
      && Can(s, step) && Returns(s, step) && Undisturbed(s, Do(s, step))
      && (step.Cancel? ==> Do(s, step).running == s.running && !Live(Do(s, step).table, serial))
      && (step.HandlerExit? ==> Do(s, step).running == s.running - {serial})
  {
    var step := NextExit(s, serial);
    assert serial in s.starts && serial < |s.table.reqs|;
    if step.Cancel? {
      RemoveKeepsOthers(s.table, serial);
    }
  }

  lemma RemoveKeepsOthers(t: Table, serial: nat)
    requires Live(t, serial)
    ensures forall other: nat :: Live(Remove(t, serial), other) <==> Live(t, other) && other != serial
  {
  }

  lemma HandlerLeaves(s: Session, serial: nat) returns (s': Session)
    requires Inv(s) && serial in s.running && !s.dispatcher.Idle?
    ensures Inv(s') && Undisturbed(s, s') && s'.running == s.running - {serial}
    ensures forall s'' :: Leads(Handlers, s', s'') ==> Leads(Handlers, s, s'')
    decreases Live(s.table, serial)
  {
    ExitStep(s, serial);
    var step := NextExit(s, serial);
    StepKeepsInv(s, step);
    var next := Do(s, step);
    if step.Cancel? {
      s' := HandlerLeaves(next, serial);
    } else {
      s' := next;
    }
    forall s'' | Leads(Handlers, s', s'')
      ensures Leads(Handlers, s, s'')
    {
      LeadsFirst(Handlers, s, step, s'');
    }
  }

  lemma {:induction false} HandlersReturn(s: Session) returns (s': Session)
    requires Inv(s) && !s.dispatcher.Idle?
    ensures Leads(Handlers, s, s') && Inv(s') && Undisturbed(s, s') && s'.running == {}
    decreases |s.running|
  {
    if s.running == {} {
      s' := s;
      LeadsToSelf(Handlers, s);
    } else {
      var serial :| serial in s.running;
      var next := HandlerLeaves(s, serial);
      assert |s.running - {serial}| == |s.running| - 1;
      s' := HandlersReturn(next);
    }
  }

  lemma IdleRunsNothing(s: Session)
    requires Inv(s) && s.dispatcher.Idle?
    ensures s.running == {}
  {
  }

  /** The handlers that run may all return: every run can be continued, by them alone, to none running. */
  lemma HandlersMayReturn(states: seq<Session>, steps: seq<Step>, k: nat) returns (s': Session)
    requires IsRun(states, steps) && k < |states|
    ensures Leads(Handlers, states[k], s') && s'.running == {} && s'.starts == states[k].starts
  {
    RunInv(states, steps, k);
    if states[k].dispatcher.Idle? {
      IdleRunsNothing(states[k]);
      s' := states[k];
      LeadsToSelf(Handlers, s');
    } else {
      s' := HandlersReturn(states[k]);
    }
  }
}
