/** Every request that is admitted can be served.

`SchedulerEffects` gets the best startable request running once there is room. Here handlers return, other peers give
tokens back, and in turn every live request comes to be the best.
 */
module SchedulerServes {
  import opened Options
  import opened Scheduler
  import opened SchedulerEffects

  // ---------------------------------------------------------------------------
  // A request that was served leaves
  // ---------------------------------------------------------------------------

  /** A started request that is still in the table is running. */
  ghost predicate Served(s: Session) {
    forall serial: nat :: Live(s.table, serial) && serial in s.starts ==> serial in s.running
  }

  lemma QuietKeepsServed(s: Session, step: Step)
    requires Served(s) && Can(s, step) && Quiet(step)
    ensures Served(Do(s, step))
  {
    QuietTouchesOnlyQueues(s, step);
    assert forall serial: nat :: Live(Do(s, step).table, serial) <==> Live(s.table, serial);
  }

  lemma BeginKeepsServed(s: Session, step: Step)
    requires Inv(s) && Served(s) && Can(s, step) && step.Begin?
    ensures Served(Do(s, step))
  {
    var t, t' := s.table, Do(s, step).table;
    assert forall serial: nat :: Live(t', serial) ==> Live(t, serial) || serial == |t.reqs|;
  }

  lemma StartKeepsServed(s: Session)
    requires Inv(s) && Served(s) && Can(s, TryStart)
    ensures Served(Do(s, TryStart))
  {
    TryStartDoes(s);
    assert forall serial: nat :: Live(Do(s, TryStart).table, serial) <==> Live(s.table, serial);
  }

  lemma RemovalKeepsServed(s: Session, step: Step)
    requires Served(s) && Can(s, step) && (step.Cancel? || step.Close? || step.HandlerExit?)
    ensures Served(Do(s, step))
  {
    assert forall serial: nat :: Live(Do(s, step).table, serial) ==> Live(s.table, serial);
  }

  lemma StepKeepsServed(s: Session, step: Step)
    requires Inv(s) && Served(s) && Can(s, step)
    ensures Served(Do(s, step))
  {
    if Quiet(step) {
      QuietKeepsServed(s, step);
    } else if step.Begin? {
      BeginKeepsServed(s, step);
    } else if step.TryStart? {
      StartKeepsServed(s);
    } else {
      RemovalKeepsServed(s, step);
    }
  }

  /** In every run a request that has started stays in the table only while its handler runs. */
  lemma {:induction false} ServedRequestsLeave(states: seq<Session>, steps: seq<Step>, k: nat)
    requires IsRun(states, steps) && k < |states|
    ensures forall serial: nat :: Live(states[k].table, serial) && serial in states[k].starts ==>
              serial in states[k].running
  {
    if k > 0 {
      ServedRequestsLeave(states, steps, k - 1);
      RunInv(states, steps, k - 1);
      assert Linked(states, steps, k - 1);
      StepKeepsServed(states[k - 1], steps[k - 1]);
    }
  }

  // ---------------------------------------------------------------------------
  // Room is made
  // ---------------------------------------------------------------------------

  lemma OtherReturnsOne(s: Session, pool: Pool)
    requires Inv(s) && Pick(s, pool).elsewhere > 0
    ensures Can(s, OtherReturns(pool))
    ensures var s' := Do(s, OtherReturns(pool));
      && Inv(s') && Undisturbed(s, s') && s'.running == s.running && Owed(s') == Owed(s)
      && Pick(s', pool).elsewhere == Pick(s, pool).elsewhere - 1
      && forall other: Pool :: other != pool ==> Pick(s', other) == Pick(s, other)
  {
    StepKeepsInv(s, OtherReturns(pool));
  }

  /** Other peers give back what they hold of a pool. */
  lemma {:induction false} OthersReturn(s: Session, pool: Pool) returns (s': Session)
    requires Inv(s)
    ensures Leads(Everyone, s, s') && Inv(s') && Undisturbed(s, s')
    ensures Pick(s', pool).elsewhere <= 0 && s'.running == s.running && Owed(s') == Owed(s)
    ensures forall other: Pool :: other != pool ==> Pick(s', other) == Pick(s, other)
    decreases if Pick(s, pool).elsewhere < 0 then 0 else Pick(s, pool).elsewhere
  {
    if Pick(s, pool).elsewhere <= 0 {
      s' := s;
      LeadsToSelf(Everyone, s);
    } else {
      OtherReturnsOne(s, pool);
      s' := OthersReturn(Do(s, OtherReturns(pool)), pool);
      LeadsFirst(Everyone, s, OtherReturns(pool), s');
    }
  }

  /** Nothing runs, nothing is owed, and the dispatcher may have any token it wants. */
  ghost predicate Cleared(s: Session) {
    Inv(s) && s.running == {} && s.active.free > 0 && s.nonInteractive.free > 0
  }

  lemma ReturnStep(s: Session)
    requires Inv(s) && Owed(s) > 0
    ensures Can(s, NextReturn(s)) && By(Threads, s, NextReturn(s))
    ensures var s' := Do(s, NextReturn(s));
      Inv(s') && Undisturbed(s, s') && Owed(s') == Owed(s) - 1 && s'.running == s.running
  {
    ReturnSettlesOne(s);
    StepKeepsInv(s, NextReturn(s));
    ReturnDisturbsNothing(s, NextReturn(s));
  }

  lemma ReturnDisturbsNothing(s: Session, step: Step)
    requires Can(s, step)
    requires step.ReturnAdmission? || step.ReturnClosed? || step.ReturnPlain? || step.ReturnBoth? || step.ReturnLast?
    ensures Do(s, step).table == s.table && Do(s, step).starts == s.starts
    ensures Do(s, step).dispatcher == s.dispatcher && Do(s, step).running == s.running
  {
  }

  lemma {:induction false} ReturnsKeepInv(s: Session) returns (s': Session)
    requires Inv(s)
    ensures Leads(Threads, s, s') && Inv(s') && Undisturbed(s, s') && Owed(s') == 0 && s'.running == s.running
    decreases Owed(s)
  {
    if Owed(s) == 0 {
      s' := s;
      LeadsToSelf(Threads, s);
    } else {
      ReturnStep(s);
      s' := ReturnsKeepInv(Do(s, NextReturn(s)));
      LeadsFirst(Threads, s, NextReturn(s), s');
    }
  }

  lemma EverythingClears(s: Session) returns (s': Session)
    requires Inv(s) && !s.dispatcher.Idle?
    ensures Leads(Everyone, s, s') && Cleared(s') && Undisturbed(s, s')
  {
    var empty := HandlersReturn(s);
    var settled := ReturnsKeepInv(empty);
    var active := OthersReturn(settled, Active);
    s' := OthersReturn(active, NonInteractive);
    LeadsOn(Everyone, active, s', s') by { LeadsToSelf(Everyone, s'); }
    LeadsOn(Everyone, settled, active, s');
    LeadsOn(Threads, empty, settled, s');
    LeadsOn(Handlers, s, empty, s');
    assert NonInteractiveOf(s'.table.reqs, {}) == {};
  }

  /** Requests that have not started. */
  ghost function Unstarted(s: Session): set<nat> {
    set serial: nat | serial < |s.table.reqs| && serial !in s.starts
  }

  lemma ClearedStarts(s: Session, serial: nat) returns (next: nat, s': Session)
    requires Cleared(s) && (s.dispatcher.Exited? ==> s.table.closed) && !s.dispatcher.Holding?
    requires !s.table.closed && Live(s.table, serial) && serial !in s.starts
    ensures Leads(Threads, s, s') && Startable(s, next) && Ran(s, s', next)
  {
    StartableIsCanStart(s, serial);
    assert NonInteractiveOf(s.table.reqs, {}) == {};
    NextIsBestChoice(s.table, 0);
    next := Next(s.table).value;
    forall other: nat
      ensures Startable(s, other) <==> CanStart(s.table, other)
    {
      StartableIsCanStart(s, other);
    }
    s' := BestRuns(s, next);
  }

  // ---------------------------------------------------------------------------
  // Every request in turn
  // ---------------------------------------------------------------------------

  /** An open session whose dispatcher is at work, with a request that waits to be served. */
  ghost predicate Waits(s: Session, serial: nat) {
    && Inv(s) && !s.table.closed && !s.dispatcher.Exited? && !s.dispatcher.Idle?
    && Live(s.table, serial) && serial !in s.starts
  }

  lemma OwnKeepsDispatcher(s: Session, step: Step)
    requires Can(s, step) && Own(step) && !s.table.closed && !s.dispatcher.Exited? && !s.dispatcher.Idle?
    ensures !Do(s, step).dispatcher.Exited? && !Do(s, step).dispatcher.Idle?
  {
  }

  lemma OwnKeepsTable(s: Session, step: Step)
    requires Can(s, step) && Own(step)
    ensures var t, t' := s.table, Do(s, step).table;
      t'.reqs == t.reqs && t'.requests == t.requests && t'.closed == t.closed
  {
    if Quiet(step) {
      QuietTouchesOnlyQueues(s, step);
    }
  }

  lemma OwnKeepsWaits(s: Session, step: Step, serial: nat)
    requires Waits(s, serial) && Can(s, step) && Own(step)
    ensures Waits(Do(s, step), serial) || serial in Do(s, step).starts
    ensures Do(s, step).table.reqs == s.table.reqs
  {
    OwnKeepsDispatcher(s, step);
    OwnKeepsTable(s, step);
    StepKeepsInv(s, step);
  }

  /** The scheduler's threads leave a waiting request waiting until it starts. */
  lemma {:induction false} ThreadsKeepWaits(s: Session, steps: seq<Step>, serial: nat)
    requires Waits(s, serial) && CanAll(Threads, s, steps) && serial !in DoAll(Threads, s, steps).starts
    ensures Waits(DoAll(Threads, s, steps), serial) && DoAll(Threads, s, steps).table.reqs == s.table.reqs
    decreases |steps|
  {
    if steps != [] {
      OwnKeepsWaits(s, steps[0], serial);
      if serial in Do(s, steps[0]).starts {
        StartsStay(Do(s, steps[0]), steps[1..], serial);
      } else {
        ThreadsKeepWaits(Do(s, steps[0]), steps[1..], serial);
      }
    }
  }

  lemma {:induction false} StartsStay(s: Session, steps: seq<Step>, serial: nat)
    requires CanAll(Threads, s, steps) && serial in s.starts
    ensures serial in DoAll(Threads, s, steps).starts
    decreases |steps|
  {
    if steps != [] {
      StartsStay(Do(s, steps[0]), steps[1..], serial);
    }
  }

  lemma OneFewer(s: Session, s': Session, next: nat)
    requires s'.table.reqs == s.table.reqs && Ran(s, s', next) && next < |s.table.reqs| && next !in s.starts
    ensures |Unstarted(s')| < |Unstarted(s)|
  {
    assert Unstarted(s) == Unstarted(s') + {next};
  }

  /** With room made, some request starts: the one the dispatcher holds tokens for, or the best. */
  lemma SomeRequestStarts(s: Session, serial: nat) returns (next: nat, s': Session)
    requires Cleared(s) && Waits(s, serial)
    ensures Leads(Threads, s, s') && Startable(s, next) && Ran(s, s', next)
  {
    if !s.dispatcher.Holding? {
      next, s' := ClearedStarts(s, serial);
    } else if Startable(s, s.dispatcher.serial) {
      next := s.dispatcher.serial;
      s' := HoldingLeads(s, next);
    } else {
      next, s' := RefusedStartClears(s, serial);
    }
  }

  lemma RefusedStartClears(s: Session, serial: nat) returns (next: nat, s': Session)
    requires Cleared(s) && Waits(s, serial) && s.dispatcher.Holding? && !Startable(s, s.dispatcher.serial)
    ensures Leads(Threads, s, s') && Startable(s, next) && Ran(s, s', next)
  {
    TryStartDoes(s);
    OwnKeepsWaits(s, TryStart, serial);
    OwnKeepsTable(s, TryStart);
    var tried := Do(s, TryStart);
    next, s' := ClearedStarts(tried, serial);
    LeadsFirst(Threads, s, TryStart, s');
  }

  lemma {:induction false} WaitingRequestStarts(s: Session, serial: nat) returns (s': Session)
    requires Waits(s, serial)
    ensures Leads(Everyone, s, s') && serial in s'.starts && serial in s'.running
    decreases |Unstarted(s)|
  {
    var clear := EverythingClears(s);
    var next, ran := SomeRequestStarts(clear, serial);
    if next == serial {
      s' := ran;
      LeadsToSelf(Everyone, s');
    } else {
      var steps :| CanAll(Threads, clear, steps) && DoAll(Threads, clear, steps) == ran;
      ThreadsKeepWaits(clear, steps, serial);
      OneFewer(clear, ran, next);
      assert Unstarted(clear) == Unstarted(s);
      s' := WaitingRequestStarts(ran, serial);
    }
    LeadsOn(Threads, clear, ran, s');
    LeadsOn(Everyone, s, clear, s');
  }

  /** From every reachable state of an open session every live request that has not started can be brought to run, by
      the scheduler's own steps, handlers that return and other peers that give tokens back. */
  lemma EveryRequestCanRun(states: seq<Session>, steps: seq<Step>, k: nat, serial: nat) returns (s': Session)
    requires IsRun(states, steps) && k < |states| && !states[k].table.closed
    requires Live(states[k].table, serial) && serial !in states[k].starts
    ensures Leads(Everyone, states[k], s') && serial in s'.running && serial in s'.starts
  {
    RunInv(states, steps, k);
    ExitedIsClosed(states, steps, k);
    s' := WaitingRequestStarts(states[k], serial);
  }

  /** A head may come at any moment, and one that is admitted can be brought to run. */
  lemma AdmissibleRequestIsServed(
      states: seq<Session>, steps: seq<Step>, r: Request, bodyReserved: bool, now: nat) returns (s': Session)
    requires IsRun(states, steps) && r.priority < CLASSES && Admits(states[|steps|], r, bodyReserved, now)
    ensures Can(states[|steps|], Begin(r, bodyReserved, now))
    ensures Leads(Everyone, Do(states[|steps|], Begin(r, bodyReserved, now)), s')
    ensures |states[|steps|].table.reqs| in s'.running
  {
    RunInv(states, steps, |steps|);
    var states', steps' := Extend(states, steps, Begin(r, bodyReserved, now));
    AdmitDoes(states[|steps|], Begin(r, bodyReserved, now));
    s' := EveryRequestCanRun(states', steps', |steps'|, |states[|steps|].table.reqs|);
  }

  // ---------------------------------------------------------------------------
  // A session winds down
  // ---------------------------------------------------------------------------

  /** What the dispatcher of a closed session does next. */
  function NextLeaving(d: Dispatcher): Step {
    match d
    case Parked => LeaveClosed
    case Waiting(_, _) => AbandonWait(false)
    case Holding(_, _) => TryStart
    case Releasing(_) => Release
    case _ => Select
  }

  function FromLeaving(d: Dispatcher): nat {
    match d
    case Holding(_, _) => 3
    case Releasing(_) => 2
    case Waiting(_, _) => 2
    case Exited => 0
    case Idle => 0
    case _ => 1
  }

  lemma LeavingComesCloser(s: Session)
    requires Inv(s) && s.table.closed && FromLeaving(s.dispatcher) > 0
    ensures Can(s, NextLeaving(s.dispatcher)) && Own(NextLeaving(s.dispatcher))
    ensures var s' := Do(s, NextLeaving(s.dispatcher));
      s'.table.closed && s'.running == s.running && FromLeaving(s'.dispatcher) < FromLeaving(s.dispatcher)
  {
  }

  lemma {:induction false} DispatcherLeaves(s: Session) returns (s': Session)
    requires Inv(s) && s.table.closed
    ensures Leads(Threads, s, s') && Inv(s') && s'.table.closed && FromLeaving(s'.dispatcher) == 0
    decreases FromLeaving(s.dispatcher)
  {
    if FromLeaving(s.dispatcher) == 0 {
      s' := s;
      LeadsToSelf(Threads, s);
    } else {
      LeavingComesCloser(s);
      var step := NextLeaving(s.dispatcher);
      StepKeepsInv(s, step);
      s' := DispatcherLeaves(Do(s, step));
      LeadsFirst(Threads, s, step, s');
    }
  }

  /** Nothing of the session is left: every token is free or with another peer. */
  predicate WoundDown(s: Session) {
    && s.table.closed && s.running == {} && s.table.requests == map[] && (s.dispatcher.Exited? || s.dispatcher.Idle?)
    && s.admission.free + s.admission.elsewhere == GLOBAL_ADMITTED
    && s.active.free + s.active.elsewhere == GLOBAL_ACTIVE
    && s.nonInteractive.free + s.nonInteractive.elsewhere == GLOBAL_NON_INTERACTIVE
  }

  lemma SettledIsWoundDown(s: Session)
    requires Inv(s) && s.table.closed && s.running == {} && Owed(s) == 0 && FromLeaving(s.dispatcher) == 0
    ensures WoundDown(s)
  {
    assert NonInteractiveOf(s.table.reqs, {}) == {};
  }

  lemma ClosedWindsDown(s: Session) returns (s': Session)
    requires Inv(s) && s.table.closed
    ensures Leads(Everyone, s, s') && WoundDown(s')
  {
    var left := DispatcherLeaves(s);
    var empty := left;
    if left.dispatcher.Idle? {
      IdleRunsNothing(left);
      LeadsToSelf(Handlers, left);
    } else {
      empty := HandlersReturn(left);
    }
    s' := ReturnsKeepInv(empty);
    SettledIsWoundDown(s');
    LeadsToSelf(Everyone, s');
    LeadsOn(Threads, empty, s', s');
    LeadsOn(Handlers, left, empty, s');
    LeadsOn(Threads, s, left, s');
  }

  /** A session may be closed at any moment, and a closed one can wind down, by its own threads and handlers, until it
      has given back every token it held. */
  lemma ClosedSessionGivesEverythingBack(states: seq<Session>, steps: seq<Step>, k: nat) returns (s': Session)
    requires IsRun(states, steps) && k < |states|
    ensures !states[k].table.closed ==> Can(states[k], Close)
    ensures Leads(Everyone, if states[k].table.closed then states[k] else Do(states[k], Close), s') && WoundDown(s')
  {
    RunInv(states, steps, k);
    var s := states[k];
    if !s.table.closed {
      StepKeepsInv(s, Close);
      s := Do(s, Close);
    }
    s' := ClosedWindsDown(s);
  }

  /** Other peers may take every token that is free, at any moment. */
  lemma {:induction false} OthersMayExhaustAPool(states: seq<Session>, steps: seq<Step>, pool: Pool)
    returns (states': seq<Session>, steps': seq<Step>)
    requires IsRun(states, steps)
    ensures IsRun(states', steps') && steps <= steps' && Pick(states'[|steps'|], pool).free == 0
    ensures forall i :: |steps| <= i < |steps'| ==> steps'[i] == OtherTakes(pool)
    decreases Pick(states[|steps|], pool).free
  {
    RunInv(states, steps, |steps|);
    states', steps' := states, steps;
    if Pick(states[|steps|], pool).free > 0 {
      states', steps' := Extend(states, steps, OtherTakes(pool));
      var more := steps';
      states', steps' := OthersMayExhaustAPool(states', steps', pool);
      assert forall i :: |steps| <= i < |more| ==> steps'[i] == more[i];
    }
  }
}
