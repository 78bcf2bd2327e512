/** `raceBackends`: signaling legs launched one after another, the first answer wins.

The preferred leg starts at once. A positive hedge delay staggers the others behind a timer; a
cohort that has failed completely starts the next leg without waiting for it.
 */
module HedgedRace {
  import opened Options

  datatype Outcome = Undecided | Won(leg: nat) | AllFailed | Aborted

  datatype Event = Answers(leg: nat) | Fails(leg: nat) | TimerFires | OuterAbort

  /** The options of one race. */
  datatype Plan = Plan(backends: nat, hedgeDelay: int)

  datatype RaceError = NoBackends | BadHedgeDelay

  /** `running` and `failed` partition the launched legs until the race is settled. */
  datatype State = State(next: nat, active: int, timer: bool, running: set<nat>, failed: set<nat>, outcome: Outcome)

  const IDLE := State(0, 0, false, {}, {}, Undecided)

  predicate IsLeg(i: nat, low: nat, high: nat) {
    low <= i < high
  }

  function Between(low: nat, high: nat): set<nat> {
    set i: nat | i < high && IsLeg(i, low, high)
  }

  /** `launchNext`: one leg and a timer for the one after it, or all of them when there is no delay. */
  function Launch(s: State, p: Plan): State {
    if s.outcome != Undecided || s.next >= p.backends then s
    else
      var next := if p.hedgeDelay == 0 then p.backends else s.next + 1;
      s.(next := next, active := s.active + (next - s.next), timer := next < p.backends,
         running := s.running + Between(s.next, next))
  }

  function Settle(s: State, outcome: Outcome): State {
    s.(timer := false, outcome := outcome)
  }

  predicate Possible(s: State, e: Event) {
    match e
    case Answers(leg) => leg in s.running
    case Fails(leg) => leg in s.running
    case TimerFires => s.timer
    case OuterAbort => true
  }

  function Next(s: State, e: Event, p: Plan): State {
    match e
    case Answers(leg) =>
      var heard := s.(running := s.running - {leg});
      if s.outcome != Undecided then heard else Settle(heard, Won(leg))
    case Fails(leg) =>
      var heard := s.(running := s.running - {leg}, failed := s.failed + {leg}, active := s.active - 1);
      if s.outcome != Undecided || heard.active != 0 then heard
      else if s.next < p.backends then Launch(heard.(timer := false), p)
      else Settle(heard, AllFailed)
    case TimerFires => Launch(s, p)
    case OuterAbort => if s.outcome != Undecided then s else Settle(s, Aborted)
  }

  /** The promise executor: a signal that is already aborted settles the race before any leg starts. */
  function Start(p: Plan, aborted: bool): State {
    if aborted then Settle(IDLE, Aborted) else Launch(IDLE, p)
  }

  /** The checks on the options, made before anything else. */
  function Guard(p: Plan): Option<RaceError> {
    if p.backends == 0 then Some(NoBackends) else if p.hedgeDelay < 0 then Some(BadHedgeDelay) else None
  }

  /** The race after a sequence of events, of which those that cannot happen are ignored. */
  function Play(p: Plan, aborted: bool, events: seq<Event>): State {
    if events == [] then Start(p, aborted)
    else
      var last := |events| - 1;
      var before := Play(p, aborted, events[..last]);
      if Possible(before, events[last]) then Next(before, events[last], p) else before
  }

  /** The events that did happen, in order; an abort before the start is one of them. */
  function Heard(p: Plan, aborted: bool, events: seq<Event>): seq<Event> {
    if events == [] then (if aborted then [OuterAbort] else [])
    else
      var last := |events| - 1;
      var before := Play(p, aborted, events[..last]);
      Heard(p, aborted, events[..last]) + if Possible(before, events[last]) then [events[last]] else []
  }

  // ---- The invariant ----

  /** Legs are launched in order; each runs, failed, or won. */
  ghost predicate Consistent(s: State, p: Plan) {
    && s.next <= p.backends
    && s.running !! s.failed
    && (forall i :: i in s.running || i in s.failed ==> i < s.next)
    && (s.outcome == Undecided ==> s.running + s.failed == Between(0, s.next) && s.active == |s.running|)
    && (s.outcome == AllFailed ==> s.failed == Between(0, p.backends))
    && (s.outcome.Won? ==> s.outcome.leg < s.next && s.outcome.leg !in s.failed && s.outcome.leg !in s.running)
  }

  /** An undecided race has a leg running, and one timer exactly while legs remain. */
  ghost predicate Lively(s: State, p: Plan) {
    && (s.timer ==> s.outcome == Undecided && p.hedgeDelay > 0)
    && (s.outcome == Undecided ==> s.active >= 1 && (s.next < p.backends <==> s.timer))
  }

  ghost predicate Inv(s: State, p: Plan) {
    Consistent(s, p) && Lively(s, p)
  }

  lemma {:induction false} BetweenSize(low: nat, high: nat)
    requires low <= high
    ensures |Between(low, high)| == high - low
    decreases high
  {
    if low < high {
      BetweenSize(low, high - 1);
      assert Between(low, high) == Between(low, high - 1) + {high - 1};
    }
  }

  lemma DisjointSize(a: set<nat>, b: set<nat>)
    requires a !! b
    ensures |a + b| == |a| + |b|
  {
  }

  lemma LaunchKeepsInv(s: State, p: Plan)
    requires Consistent(s, p) && s.outcome == Undecided && s.next < p.backends && p.hedgeDelay >= 0
    ensures Inv(Launch(s, p), p)
    ensures Launch(s, p).next > s.next
  {
    var next := Launch(s, p).next;
    BetweenSize(s.next, next);
    DisjointSize(s.running, Between(s.next, next));
    assert Between(0, s.next) + Between(s.next, next) == Between(0, next);
    assert s.running + Between(s.next, next) + s.failed == s.running + s.failed + Between(s.next, next);
  }

  lemma AnswerKeepsInv(s: State, leg: nat, p: Plan)
    requires Inv(s, p) && leg in s.running
    ensures Inv(Next(s, Answers(leg), p), p)
  {
  }

  lemma FailureKeepsInv(s: State, leg: nat, p: Plan)
    requires Inv(s, p) && leg in s.running && p.hedgeDelay >= 0
    ensures Inv(Next(s, Fails(leg), p), p)
  {
    var heard := s.(running := s.running - {leg}, failed := s.failed + {leg}, active := s.active - 1);
    assert heard.running + heard.failed == s.running + s.failed;
    if s.outcome == Undecided && heard.active == 0 {
      assert heard.running == {};
      if s.next < p.backends {
        LaunchKeepsInv(heard.(timer := false), p);
      }
    }
  }

  lemma NextKeepsInv(s: State, e: Event, p: Plan)
    requires Inv(s, p) && Possible(s, e) && p.hedgeDelay >= 0
    ensures Inv(Next(s, e, p), p)
  {
    match e
    case Answers(leg) => AnswerKeepsInv(s, leg, p);
    case Fails(leg) => FailureKeepsInv(s, leg, p);
    case TimerFires => LaunchKeepsInv(s, p);
    case OuterAbort =>
  }

  lemma {:induction false} PlayInv(p: Plan, aborted: bool, events: seq<Event>)
    requires Guard(p) == None
    ensures Inv(Play(p, aborted, events), p)
    decreases |events|
  {
    if events == [] {
      if !aborted {
        LaunchKeepsInv(IDLE, p);
      }
    } else {
      var last := |events| - 1;
      PlayInv(p, aborted, events[..last]);
      var before := Play(p, aborted, events[..last]);
      if Possible(before, events[last]) {
        NextKeepsInv(before, events[last], p);
      }
    }
  }

  // ---- Results over every race ----

  function FailureCount(history: seq<Event>): nat {
    if history == [] then 0
    else FailureCount(history[..|history| - 1]) + if history[|history| - 1].Fails? then 1 else 0
  }

  /** One event decides an undecided race: an answer, an abort, or the failure of the last leg. */
  function Decide(earlier: Outcome, e: Event, failures: nat, backends: nat): Outcome {
    if earlier != Undecided then earlier
    else
      match e
      case Answers(leg) => Won(leg)
      case OuterAbort => Aborted
      case TimerFires => Undecided
      case Fails(_) => if failures == backends then AllFailed else Undecided
  }

  /** The verdict read off the history alone, knowing nothing of launches, timers and delays. */
  function Verdict(history: seq<Event>, backends: nat): Outcome {
    if history == [] then Undecided
    else
      var last := |history| - 1;
      Decide(Verdict(history[..last], backends), history[last], FailureCount(history), backends)
  }

  lemma VerdictOfExtended(history: seq<Event>, e: Event, backends: nat)
    ensures FailureCount(history + [e]) == FailureCount(history) + if e.Fails? then 1 else 0
    ensures Verdict(history + [e], backends)
         == Decide(Verdict(history, backends), e, FailureCount(history + [e]), backends)
  {
    assert (history + [e])[..|history|] == history;
  }

  /** One step of the race moves its outcome as one step of the verdict does. */
  lemma NextDecides(s: State, e: Event, p: Plan)
    requires Inv(s, p) && Possible(s, e) && p.hedgeDelay >= 0
    ensures var failures := |s.failed| + if e.Fails? then 1 else 0;
            |Next(s, e, p).failed| == failures && Next(s, e, p).outcome == Decide(s.outcome, e, failures, p.backends)
  {
    if e.Fails? {
      assert e.leg !in s.failed;
      if s.outcome == Undecided {
        DisjointSize(s.running, s.failed);
        BetweenSize(0, s.next);
      }
    }
  }

  /** Whatever the delay and whenever the timer fires, the outcome is the verdict of the events that happened. */
  lemma {:induction false} OutcomeIsVerdict(p: Plan, aborted: bool, events: seq<Event>)
    requires Guard(p) == None
    ensures Play(p, aborted, events).outcome == Verdict(Heard(p, aborted, events), p.backends)
    ensures |Play(p, aborted, events).failed| == FailureCount(Heard(p, aborted, events))
    decreases |events|
  {
    if events == [] {
      VerdictOfExtended([], OuterAbort, p.backends);
      assert [] + [OuterAbort] == [OuterAbort];
    } else {
      var last := |events| - 1;
      var before, history := Play(p, aborted, events[..last]), Heard(p, aborted, events[..last]);
      OutcomeIsVerdict(p, aborted, events[..last]);
      if Possible(before, events[last]) {
        PlayInv(p, aborted, events[..last]);
        NextDecides(before, events[last], p);
        VerdictOfExtended(history, events[last], p.backends);
      } else {
        assert history + [] == history;
      }
    }
  }

  /** A race that is not decided yet has a leg to wait for; one that failed has launched and lost them all. */
  lemma RaceIsLive(p: Plan, aborted: bool, events: seq<Event>)
    requires Guard(p) == None
    ensures var s := Play(p, aborted, events);
            && (s.outcome == Undecided ==> s.running != {} && (s.timer <==> s.next < p.backends))
            && (s.outcome == AllFailed ==> s.next == p.backends && s.failed == Between(0, p.backends))
            && (s.outcome.Won? ==> s.outcome.leg < s.next)
  {
    PlayInv(p, aborted, events);
    var s := Play(p, aborted, events);
    if s.outcome == AllFailed {
      assert p.backends - 1 in Between(0, p.backends);
    }
  }

  /** A decided race changes its mind on no event, launches nothing, and has no timer. */
  lemma DecidedForGood(p: Plan, aborted: bool, events: seq<Event>, e: Event)
    requires Guard(p) == None && Play(p, aborted, events).outcome != Undecided
    ensures var s, s' := Play(p, aborted, events), Play(p, aborted, events + [e]);
            s'.outcome == s.outcome && s'.next == s.next && !s'.timer
  {
    assert (events + [e])[..|events|] == events;
    PlayInv(p, aborted, events);
  }

  /** A timer that fires although the race is decided, or every leg launched, does nothing. */
  lemma LateTimerDoesNothing(p: Plan, aborted: bool, events: seq<Event>)
    requires Guard(p) == None
    ensures var s := Play(p, aborted, events);
            s.outcome != Undecided || s.next == p.backends ==> Next(s, TimerFires, p) == s
  {
    PlayInv(p, aborted, events);
  }

  /** A leg starts only as one of the next in order, so none starts twice. */
  lemma LegsStartInOrder(s: State, e: Event, p: Plan)
    requires Inv(s, p) && Possible(s, e)
    ensures s.next <= Next(s, e, p).next
    ensures forall i :: i in Next(s, e, p).running && i !in s.running ==> s.next <= i < Next(s, e, p).next
    ensures Next(s, e, p).next <= s.next + 1 || p.hedgeDelay == 0
  {
  }

  lemma PlayOne(p: Plan, aborted: bool, events: seq<Event>, e: Event)
    requires Possible(Play(p, aborted, events), e)
    ensures Play(p, aborted, events + [e]) == Next(Play(p, aborted, events), e, p)
  {
    assert (events + [e])[..|events|] == events;
  }

  /** Legs `low` up to `high` are added to those that run. */
  ghost predicate Adds(running: set<nat>, running': set<nat>, low: nat, high: nat) {
    forall i: nat :: i in running' <==> i in running || low <= i < high
  }

  /** How many legs have been launched after a launch from `next`: one more, or all when there is no delay. */
  function Launched(p: Plan, next: nat): nat { if p.hedgeDelay == 0 then p.backends else next + 1 }

  /** A race is refused exactly without a backend or else with a negative delay. One that is not aborted starts with its
      preferred leg, or with all of them when there is no delay. */
  lemma RaceStarts(p: Plan)
    ensures Guard(p) == Some(NoBackends) <==> p.backends == 0
    ensures Guard(p) == Some(BadHedgeDelay) <==> p.backends != 0 && p.hedgeDelay < 0
    ensures 1 <= p.backends && 0 <= p.hedgeDelay ==>
      var s := Play(p, false, []);
      s.outcome == Undecided && s.next == Launched(p, 0) && Adds({}, s.running, 0, s.next) && s.failed == {}
  {
  }

  /** A race whose signal is aborted before it starts launches nothing, whatever happens then. */
  lemma {:induction false} AbortedRaceLaunchesNothing(p: Plan, events: seq<Event>)
    ensures var s := Play(p, true, events);
      s.next == 0 && s.active == 0 && s.running == {} && s.failed == {} && !s.timer && s.outcome == Aborted
    decreases |events|
  {
    if events != [] {
      AbortedRaceLaunchesNothing(p, events[..|events| - 1]);
    }
  }

  /** The next leg, or all that are left, is launched on top of `running`; a timer is set exactly if more are left. */
  ghost predicate LaunchesFrom(s: State, s': State, running: set<nat>, p: Plan) {
    && s'.next == Launched(p, s.next) && Adds(running, s'.running, s.next, s'.next)
    && (s'.timer <==> s'.next < p.backends)
  }

  lemma LaunchAdds(s: State, p: Plan)
    requires s.outcome == Undecided && s.next < p.backends
    ensures LaunchesFrom(s, Launch(s, p), s.running, p)
  {
  }

  lemma FailureLaunches(s: State, leg: nat, p: Plan)
    requires Inv(s, p) && s.outcome == Undecided && leg in s.running
    ensures var s', heard := Next(s, Fails(leg), p), s.running - {leg};
      if heard == {} && s.next < p.backends then LaunchesFrom(s, s', heard, p)
      else s'.next == s.next && s'.running == heard
  {
    var heard := s.(running := s.running - {leg}, failed := s.failed + {leg}, active := s.active - 1, timer := false);
    assert |heard.running| == |s.running| - 1;
    if heard.running == {} && s.next < p.backends {
      LaunchAdds(heard, p);
    }
  }

  /** While a race is undecided a leg is launched exactly when the timer fires, or when the only running leg fails and
      another is left. */
  lemma LaunchesExactlyWhen(p: Plan, aborted: bool, events: seq<Event>, e: Event)
    requires Guard(p) == None
    requires Play(p, aborted, events).outcome == Undecided && Possible(Play(p, aborted, events), e)
    ensures var s, s' := Play(p, aborted, events), Play(p, aborted, events + [e]);
      var heard := if e.Answers? || e.Fails? then s.running - {e.leg} else s.running;
      if e.TimerFires? || (e.Fails? && heard == {} && s.next < p.backends) then LaunchesFrom(s, s', heard, p)
      else s'.next == s.next && s'.running == heard
  {
    PlayOne(p, aborted, events, e);
    PlayInv(p, aborted, events);
    if e.Fails? {
      FailureLaunches(Play(p, aborted, events), e.leg, p);
    } else if e.TimerFires? {
      LaunchAdds(Play(p, aborted, events), p);
    }
  }

  // ---- What a race listens to ----

  predicate HeardFrom(history: seq<Event>, leg: nat) {
    exists i :: 0 <= i < |history| && (history[i] == Answers(leg) || history[i] == Fails(leg))
  }

  lemma HeardOneMore(history: seq<Event>, e: Event, leg: nat)
    ensures HeardFrom(history + [e], leg) <==> HeardFrom(history, leg) || e == Answers(leg) || e == Fails(leg)
  {
    if HeardFrom(history, leg) {
      var i :| 0 <= i < |history| && (history[i] == Answers(leg) || history[i] == Fails(leg));
      assert (history + [e])[i] == history[i];
    }
    assert (history + [e])[|history|] == e;
  }

  lemma NextListens(s: State, e: Event, p: Plan, leg: nat)
    requires Inv(s, p) && Possible(s, e) && p.hedgeDelay >= 0
    ensures leg in Next(s, e, p).running <==>
              (leg in s.running || s.next <= leg < Next(s, e, p).next) && e != Answers(leg) && e != Fails(leg)
  {
  }

  lemma {:induction false} RunningIsUnheard(p: Plan, aborted: bool, events: seq<Event>, leg: nat)
    requires Guard(p) == None
    ensures var s, history := Play(p, aborted, events), Heard(p, aborted, events);
      && (leg in s.running <==> leg < s.next && !HeardFrom(history, leg))
      && (HeardFrom(history, leg) ==> leg < s.next)
    decreases |events|
  {
    if events != [] {
      var last := |events| - 1;
      var before, history := Play(p, aborted, events[..last]), Heard(p, aborted, events[..last]);
      RunningIsUnheard(p, aborted, events[..last], leg);
      PlayInv(p, aborted, events[..last]);
      if Possible(before, events[last]) {
        NextListens(before, events[last], p, leg);
        LegsStartInOrder(before, events[last], p);
        HeardOneMore(history, events[last], leg);
      } else {
        assert history + [] == history;
      }
    }
  }

  /** An event can come: an abort always, a timer while the race is undecided and legs are left, an answer or a failure
      once from each leg that has been launched. */
  predicate Comes(s: State, history: seq<Event>, e: Event, p: Plan) {
    match e
    case OuterAbort => true
    case TimerFires => s.outcome == Undecided && s.next < p.backends
    case Answers(leg) => leg < s.next && !HeardFrom(history, leg)
    case Fails(leg) => leg < s.next && !HeardFrom(history, leg)
  }

  /** An event counts exactly when it can come. */
  lemma HeardExactlyWhen(p: Plan, aborted: bool, events: seq<Event>, e: Event)
    requires Guard(p) == None
    ensures var s, history := Play(p, aborted, events), Heard(p, aborted, events);
      Heard(p, aborted, events + [e]) == if Comes(s, history, e, p) then history + [e] else history
  {
    assert (events + [e])[..|events|] == events;
    PlayInv(p, aborted, events);
    if e.Answers? || e.Fails? {
      RunningIsUnheard(p, aborted, events, e.leg);
    }
    assert Heard(p, aborted, events) + [] == Heard(p, aborted, events);
  }

  /** The legs before `leg` have failed, one after another; those launched since run. */
  predicate DownTo(p: Plan, s: State, leg: nat) {
    s.outcome == Undecided && s.next == Launched(p, leg) && s.running == Between(leg, s.next)
  }

  lemma OneMoreFails(p: Plan, s: State, leg: nat)
    requires Inv(s, p) && 0 <= p.hedgeDelay && leg + 1 < p.backends && DownTo(p, s, leg)
    ensures leg in s.running && DownTo(p, Next(s, Fails(leg), p), leg + 1)
  {
    assert leg in Between(leg, s.next);
    FailureLaunches(s, leg, p);
    NextDecides(s, Fails(leg), p);
    var s' := Next(s, Fails(leg), p);
    BetweenSize(leg, s.next);
    assert s.running - {leg} == Between(leg + 1, s.next);
    if p.hedgeDelay == 0 {
      assert leg + 1 in Between(leg + 1, s.next);
    } else {
      assert Between(leg + 1, s.next) == {};
      assert s'.running == Between(leg + 1, s'.next);
    }
  }

  lemma StartsDownToFirst(p: Plan)
    requires 0 <= p.hedgeDelay && 0 < p.backends
    ensures DownTo(p, Play(p, false, []), 0)
  {
    RaceStarts(p);
    assert Play(p, false, []).running == Between(0, Launched(p, 0));
  }

  lemma OneMoreFailurePlayed(p: Plan, events: seq<Event>, leg: nat)
    requires 0 <= p.hedgeDelay && leg + 1 < p.backends && DownTo(p, Play(p, false, events), leg)
    ensures DownTo(p, Play(p, false, events + [Fails(leg)]), leg + 1)
  {
    PlayInv(p, false, events);
    OneMoreFails(p, Play(p, false, events), leg);
    PlayOne(p, false, events, Fails(leg));
  }

  lemma {:induction false} LegsBeforeFail(p: Plan, leg: nat) returns (events: seq<Event>)
    requires 0 <= p.hedgeDelay && leg < p.backends
    ensures DownTo(p, Play(p, false, events), leg)
    decreases leg
  {
    if leg == 0 {
      events := [];
      StartsDownToFirst(p);
    } else {
      var earlier := LegsBeforeFail(p, leg - 1);
      OneMoreFailurePlayed(p, earlier, leg - 1);
      events := earlier + [Fails(leg - 1)];
    }
  }

  /** Whatever the delay, any backend can win the race. */
  lemma EveryLegCanWin(p: Plan, leg: nat) returns (events: seq<Event>)
    requires 0 <= p.hedgeDelay && leg < p.backends
    ensures Guard(p) == None && Play(p, false, events).outcome == Won(leg)
  {
    var earlier := LegsBeforeFail(p, leg);
    assert leg in Between(leg, Play(p, false, earlier).next);
    PlayOne(p, false, earlier, Answers(leg));
    events := earlier + [Answers(leg)];
  }

  // ---- The object ----

  class Race {
    const plan: Plan
    var active: int
    var next: nat
    var settled: bool
    var hedgeTimer: bool
    /** Legs launched and not heard from, legs that failed, and the order of launches. */
    var running: set<nat>
    var failures: set<nat>
    var launched: seq<nat>
    var outcome: Outcome

    /** The guards on the options come before any of this state exists. */
    constructor (plan: Plan)
      requires Guard(plan) == None
      ensures Valid() && View() == IDLE && this.plan == plan
    {
      this.plan := plan;
      active, next, settled, hedgeTimer := 0, 0, false, false;
      running, failures, launched, outcome := {}, {}, [], Undecided;
    }

    ghost function View(): State
      reads this
    {
      State(next, active, hedgeTimer, running, failures, outcome)
    }

    /** `settled` and the launch log agree with the rest. */
    ghost predicate Valid()
      reads this
    {
      && Guard(plan) == None
      && (settled <==> outcome != Undecided)
      && |launched| == next && (forall i :: 0 <= i < next ==> launched[i] == i)
    }

    method LaunchNext()
      requires Valid()
      modifies this`active, this`next, this`hedgeTimer, this`running, this`launched
      ensures Valid() && View() == Launch(old(View()), plan)
      decreases plan.backends - next
    {
      if settled || next >= plan.backends {
        return;
      }
      hedgeTimer := false;
      var index := next;
      next := next + 1;
      active := active + 1;
      running, launched := running + {index}, launched + [index];
      if next >= plan.backends {
        assert old(running) + Between(index, next) == running;
        return;
      }
      if plan.hedgeDelay == 0 {
        LaunchNext();
        assert old(running) + {index} + Between(index + 1, next) == old(running) + Between(index, next);
        return;
      }
      assert old(running) + Between(index, next) == running;
      hedgeTimer := true;
    }

    method SettleAs(result: Outcome)
      requires Valid() && result != Undecided
      modifies this`settled, this`hedgeTimer, this`outcome
      ensures Valid() && View() == Settle(old(View()), result)
    {
      settled, hedgeTimer, outcome := true, false, result;
    }

    method Begin(aborted: bool)
      requires Valid() && View() == IDLE
      modifies this
      ensures Valid() && View() == Start(plan, aborted)
    {
      if aborted {
        SettleAs(Aborted);
        return;
      }
      LaunchNext();
    }

    method OnAnswer(leg: nat)
      requires Valid()
      modifies this
      ensures Valid() && View() == Next(old(View()), Answers(leg), plan)
    {
      running := running - {leg};
      if settled {
        return;
      }
      SettleAs(Won(leg));
    }

    method OnFailure(leg: nat)
      requires Valid()
      modifies this
      ensures Valid() && View() == Next(old(View()), Fails(leg), plan)
    {
      active := active - 1;
      running, failures := running - {leg}, failures + {leg};
      if settled {
        return;
      }
      if active != 0 {
        return;
      }
      if next < plan.backends {
        hedgeTimer := false;
        LaunchNext();
        return;
      }
      SettleAs(AllFailed);
    }

    method OnTimer()
      requires Valid()
      modifies this
      ensures Valid() && View() == Next(old(View()), TimerFires, plan)
    {
      LaunchNext();
    }

    method OnOuterAbort()
      requires Valid()
      modifies this
      ensures Valid() && View() == Next(old(View()), OuterAbort, plan)
    {
      if settled {
        return;
      }
      SettleAs(Aborted);
    }
  }
}
