/** The gzip cache under any number of concurrent loads.

A load is named by the step that begins it. It is answered at once, or waits with others for the
build of its identity until that finishes or its own request is cancelled. Builds depend on the
identity alone.
 */
module CacheRuns {
  import opened Options
  import opened GzipCache

  datatype Flight = Flight(leader: nat, joined: set<nat>)

  datatype System = System(lru: seq<Entry>, flights: map<Key, Flight>, answered: map<nat, Answer>, failed: set<nat>)

  datatype Step =
    | Asks(key: Key)
    | Finishes(key: Key, fails: bool, cancelled: bool)
    | GivesUp(key: Key, caller: nat)

  const EMPTY := System([], map[], map[], {})

  function Callers(f: Flight): set<nat> {
    {f.leader} + f.joined
  }

  function ShelfOf(s: System): Shelf {
    Shelf(s.lru, s.flights.Keys)
  }

  /** Only the leader finishes a build; a caller that joined may leave when its own request is cancelled. */
  predicate Can(s: System, step: Step) {
    match step
    case Asks(_) => true
    case Finishes(key, _, _) => key in s.flights
    case GivesUp(key, caller) => key in s.flights && caller in s.flights[key].joined
  }

  function Do(s: System, k: nat, step: Step, build: Key -> Answer): System
    requires Can(s, step)
  {
    match step
    case Asks(key) =>
      var (shelf, reply) := Begun(ShelfOf(s), key);
      (match reply
       case Hit(answer) => s.(lru := shelf.lru, answered := s.answered[k := answer])
       case Join => s.(flights := s.flights[key := s.flights[key].(joined := s.flights[key].joined + {k})])
       case Lead => s.(flights := s.flights[key := Flight(k, {})]))
    case Finishes(key, fails, cancelled) =>
      var shelf := Finished(ShelfOf(s), key, if fails then Failed else Built(build(key)), cancelled);
      var callers := Callers(s.flights[key]);
      s.(lru := shelf.lru, flights := s.flights - {key},
         answered := if fails then s.answered else s.answered + map c | c in callers :: build(key),
         failed := if fails then s.failed + callers else s.failed)
    case GivesUp(key, caller) =>
      s.(flights := s.flights[key := s.flights[key].(joined := s.flights[key].joined - {caller})],
         failed := s.failed + {caller})
  }

  predicate Linked(states: seq<System>, steps: seq<Step>, build: Key -> Answer, i: nat)
    requires |states| == |steps| + 1 && i < |steps|
  {
    Can(states[i], steps[i]) && states[i + 1] == Do(states[i], i, steps[i], build)
  }

  ghost predicate IsRun(states: seq<System>, steps: seq<Step>, build: Key -> Answer) {
    && |states| == |steps| + 1
    && states[0] == EMPTY
    && forall i :: 0 <= i < |steps| ==> Linked(states, steps, build, i)
  }

  // ---- The invariant ----

  /** No identity is both remembered and being built. */
  ghost predicate Shelved(s: System, build: Key -> Answer) {
    && Distinct(s.lru) && Fits(s.lru) && Faithful(s.lru, build)
    && forall key :: key in s.flights ==> forall e :: e in s.lru ==> e.key != key
  }

  predicate IsLoad(steps: seq<Step>, k: nat, c: nat, key: Key) {
    c < k && c < |steps| && steps[c] == Asks(key)
  }

  predicate Waits(s: System, key: Key, c: nat) {
    key in s.flights && c in Callers(s.flights[key])
  }

  /** Waiting callers are loads of that identity that have not ended yet. */
  ghost predicate Waiting(s: System, steps: seq<Step>, k: nat) {
    forall key, c :: Waits(s, key, c) ==> IsLoad(steps, k, c, key) && c !in s.answered && c !in s.failed
  }

  ghost predicate Led(s: System) {
    forall key :: key in s.flights ==> s.flights[key].leader !in s.flights[key].joined
  }

  /** A load that has ended did so in one way, and an answer is what its build yields. */
  ghost predicate Ended(s: System, steps: seq<Step>, k: nat, build: Key -> Answer) {
    && s.answered.Keys !! s.failed
    && (forall c :: c in s.answered ==>
          c < k && c < |steps| && steps[c].Asks? && Normal(s.answered[c]) == Normal(build(steps[c].key)))
    && (forall c :: c in s.failed ==> c < k && c < |steps| && steps[c].Asks?)
  }

  /** Every load so far was answered, failed, or waits. */
  ghost predicate Complete(s: System, steps: seq<Step>, k: nat) {
    forall c: nat :: c < k && c < |steps| && steps[c].Asks? ==>
      c in s.answered || c in s.failed || Waits(s, steps[c].key, c)
  }

  ghost predicate Inv(s: System, steps: seq<Step>, k: nat, build: Key -> Answer) {
    Shelved(s, build) && Waiting(s, steps, k) && Led(s) && Ended(s, steps, k, build) && Complete(s, steps, k)
  }

  lemma LookupFinds(lru: seq<Entry>, key: Key)
    requires Distinct(lru)
    ensures Lookup(lru, key).Some? ==> Lookup(lru, key).value in lru && Lookup(lru, key).value.key == key
    ensures Lookup(lru, key).None? ==> forall e :: e in lru ==> e.key != key
  {
    forall e | e in lru && e.key == key ensures Lookup(lru, key).Some? {
      var i :| 0 <= i < |lru| && lru[i] == e;
      assert IndexOf(lru, key.path) == i;
    }
  }

  /** An answer at once: the list is reordered, and nobody else is affected. */
  lemma AnswerKeepsInv(s: System, s': System, steps: seq<Step>, k: nat, answer: Answer, build: Key -> Answer)
    requires Inv(s, steps, k, build) && k < |steps| && steps[k].Asks? && Shelved(s', build)
    requires s' == s.(lru := s'.lru, answered := s.answered[k := answer])
    requires Normal(answer) == Normal(build(steps[k].key))
    ensures Inv(s', steps, k + 1, build)
  {
    assert forall q, c :: Waits(s', q, c) <==> Waits(s, q, c);
  }

  lemma HitKeepsInv(s: System, steps: seq<Step>, k: nat, build: Key -> Answer)
    requires Inv(s, steps, k, build) && k < |steps| && steps[k].Asks? && Lookup(s.lru, steps[k].key).Some?
    ensures Inv(Do(s, k, steps[k], build), steps, k + 1, build)
  {
    var key := steps[k].key;
    LookupFinds(s.lru, key);
    var e := Lookup(s.lru, key).value;
    TouchReorders(s.lru, e);
    TouchKeepsCache(s.lru, e, build);
    NormalTwice(build(key));
    AnswerKeepsInv(s, Do(s, k, steps[k], build), steps, k, e.answer, build);
  }

  lemma NormalTwice(a: Answer)
    ensures Normal(Normal(a)) == Normal(a)
  {
  }

  lemma JoinKeepsInv(s: System, steps: seq<Step>, k: nat, build: Key -> Answer)
    requires Inv(s, steps, k, build) && k < |steps| && steps[k].Asks? && Lookup(s.lru, steps[k].key).None?
    ensures Inv(Do(s, k, steps[k], build), steps, k + 1, build)
    ensures Waits(Do(s, k, steps[k], build), steps[k].key, k)
  {
    var key := steps[k].key;
    LookupFinds(s.lru, key);
    var s' := Do(s, k, steps[k], build);
    if key in s.flights {
      assert Waits(s, key, s.flights[key].leader);
    }
    WaiterKeepsInv(s, s', steps, k, build);
  }

  /** One more caller waits. */
  lemma WaiterKeepsInv(s: System, s': System, steps: seq<Step>, k: nat, build: Key -> Answer)
    requires Inv(s, steps, k, build) && k < |steps| && steps[k].Asks? && Led(s') && Shelved(s', build)
    requires s' == s.(flights := s'.flights)
    requires forall q, c :: Waits(s', q, c) <==> Waits(s, q, c) || (q == steps[k].key && c == k)
    ensures Inv(s', steps, k + 1, build)
  {
  }

  lemma GivingUpKeepsInv(s: System, steps: seq<Step>, k: nat, build: Key -> Answer)
    requires Inv(s, steps, k, build) && k < |steps| && steps[k].GivesUp? && Can(s, steps[k])
    ensures Inv(Do(s, k, steps[k], build), steps, k + 1, build)
  {
    var s' := Do(s, k, steps[k], build);
    var key, caller := steps[k].key, steps[k].caller;
    assert Waits(s, key, caller);
    assert forall q, c :: Waits(s', q, c) ==> Waits(s, q, c);
    assert forall q, c :: Waits(s, q, c) && c != caller ==> Waits(s', q, c);
  }

  lemma FinishKeepsInv(s: System, steps: seq<Step>, k: nat, build: Key -> Answer)
    requires Inv(s, steps, k, build) && k < |steps| && steps[k].Finishes? && Can(s, steps[k])
    ensures Inv(Do(s, k, steps[k], build), steps, k + 1, build)
  {
    var s' := Do(s, k, steps[k], build);
    var key := steps[k].key;
    StoreKeepsCache(s.lru, key, build(key), build);
    StoreAddsOnly(s.lru, key, build(key));
    assert Shelved(s', build);
    ReleaseKeepsInv(s, s', steps, k, build);
  }

  /** The callers of one flight all end together. */
  lemma ReleaseKeepsInv(s: System, s': System, steps: seq<Step>, k: nat, build: Key -> Answer)
    requires Inv(s, steps, k, build) && k < |steps| && steps[k].Finishes? && Can(s, steps[k]) && Shelved(s', build)
    requires s'.flights == s.flights - {steps[k].key}
    requires var callers := Callers(s.flights[steps[k].key]);
      if steps[k].fails then s'.answered == s.answered && s'.failed == s.failed + callers
      else s'.answered == s.answered + (map c | c in callers :: build(steps[k].key)) && s'.failed == s.failed
    ensures Inv(s', steps, k + 1, build)
  {
    var key := steps[k].key;
    assert forall q, c :: Waits(s', q, c) <==> Waits(s, q, c) && q != key;
    assert forall c :: c in Callers(s.flights[key]) <==> Waits(s, key, c);
  }

  /** A store brings in no identity but its own. */
  lemma StoreAddsOnly(lru: seq<Entry>, key: Key, answer: Answer)
    requires Distinct(lru)
    ensures forall e :: e in Store(lru, key, answer) ==> e in lru || e.key == key
  {
    if Cacheable(answer) {
      var full := [Entry(key, Normal(answer))] + Without(lru, key.path);
      TrimIsLongestFit(full, 0);
      WithoutKeeps(lru, key.path);
      assert forall e :: e in Trim(full) ==> e in full;
    }
  }

  lemma StepKeepsInv(s: System, steps: seq<Step>, k: nat, build: Key -> Answer)
    requires Inv(s, steps, k, build) && k < |steps| && Can(s, steps[k])
    ensures Inv(Do(s, k, steps[k], build), steps, k + 1, build)
  {
    match steps[k]
    case Asks(key) =>
      if Lookup(s.lru, key).Some? {
        HitKeepsInv(s, steps, k, build);
      } else {
        JoinKeepsInv(s, steps, k, build);
      }
    case Finishes(_, _, _) => FinishKeepsInv(s, steps, k, build);
    case GivesUp(_, _) => GivingUpKeepsInv(s, steps, k, build);
  }

  lemma {:induction false} RunInv(states: seq<System>, steps: seq<Step>, build: Key -> Answer, k: nat)
    requires IsRun(states, steps, build) && k < |states|
    ensures Inv(states[k], steps, k, build)
    decreases k
  {
    if k > 0 {
      RunInv(states, steps, build, k - 1);
      assert Linked(states, steps, build, k - 1);
      StepKeepsInv(states[k - 1], steps, k - 1, build);
    }
  }

  // ---- Results over every run ----

  /** The cache stays within its bounds, one entry for each path, and holds only what builds yield. */
  lemma CacheAgreesWithBuilds(states: seq<System>, steps: seq<Step>, build: Key -> Answer, k: nat)
    requires IsRun(states, steps, build) && k < |states|
    ensures Distinct(states[k].lru) && Total(states[k].lru) <= 64 * 1024 * 1024 && |states[k].lru| <= 4096
    ensures forall e :: e in states[k].lru ==>
              Agrees(e.answer, build(e.key)) && (e.answer.use ==> 1 <= |e.answer.data| <= 8 * 1024 * 1024)
  {
    RunInv(states, steps, build, k);
    forall e | e in states[k].lru
      ensures Agrees(e.answer, build(e.key)) && (e.answer.use ==> 1 <= |e.answer.data| <= 8 * 1024 * 1024)
    {
      assert Cacheable(e.answer) && e.answer == Normal(build(e.key));
    }
  }

  /** A load has been answered with what its build yields, has failed, or waits for that build: exactly one of them. */
  lemma EveryLoadIsAccounted(states: seq<System>, steps: seq<Step>, build: Key -> Answer, k: nat, c: nat)
    requires IsRun(states, steps, build) && c < k < |states| && steps[c].Asks?
    ensures var s, key := states[k], steps[c].key;
            if c in s.answered then Agrees(s.answered[c], build(key)) && c !in s.failed && !Waits(s, key, c)
            else (c in s.failed <==> !Waits(s, key, c))
  {
    RunInv(states, steps, build, k);
    assert Waits(states[k], steps[c].key, c) ==> c !in states[k].answered && c !in states[k].failed;
  }

  predicate Leads(s: System, step: Step, key: Key) {
    step == Asks(key) && Begun(ShelfOf(s), key).1 == Lead
  }

  predicate Ends(step: Step, key: Key) {
    step.Finishes? && step.key == key
  }

  /** A flight ends only by its finish. */
  lemma {:induction false} FlightLasts(states: seq<System>, steps: seq<Step>, build: Key -> Answer, key: Key,
                                       i: nat, j: nat)
    requires IsRun(states, steps, build) && i <= j < |states| && key in states[i].flights
    requires forall m :: i <= m < j ==> !Ends(steps[m], key)
    ensures key in states[j].flights
    decreases j
  {
    if i < j {
      FlightLasts(states, steps, build, key, i, j - 1);
      assert Linked(states, steps, build, j - 1) && !Ends(steps[j - 1], key);
    }
  }

  /** Between two builds of one identity the first has finished. */
  lemma OneBuildAtATime(states: seq<System>, steps: seq<Step>, build: Key -> Answer, key: Key, i: nat, j: nat)
    requires IsRun(states, steps, build) && i < j < |steps|
    requires Leads(states[i], steps[i], key) && Leads(states[j], steps[j], key)
    ensures exists m :: i < m < j && Ends(steps[m], key)
  {
    assert Linked(states, steps, build, i);
    if forall m :: i + 1 <= m < j ==> !Ends(steps[m], key) {
      FlightLasts(states, steps, build, key, i + 1, j);
      assert false;
    }
  }

  /** While an identity is being built, or about to be, it is not remembered: a load of it leads or joins. */
  lemma UnrememberedWaits(s: System, k: nat, key: Key, build: Key -> Answer)
    requires Lookup(s.lru, key).None?
    ensures Waits(Do(s, k, Asks(key), build), key, k)
  {
  }

  lemma WaitsAtFirst(states: seq<System>, steps: seq<Step>, build: Key -> Answer, key: Key, i: nat, c: nat)
    requires IsRun(states, steps, build) && i <= c < |steps|
    requires Leads(states[i], steps[i], key) && steps[c] == Asks(key)
    requires forall m :: i <= m < c ==> !Ends(steps[m], key)
    ensures Waits(states[c + 1], key, c)
  {
    assert Linked(states, steps, build, c);
    if i < c {
      RunInv(states, steps, build, c);
      assert Linked(states, steps, build, i);
      FlightLasts(states, steps, build, key, i + 1, c);
      LookupFinds(states[c].lru, key);
    }
    assert Lookup(states[c].lru, key).None?;
    UnrememberedWaits(states[c], c, key, build);
  }

  /** Every load of an identity begun since its lead waits until the finish, unless it gives up. */
  lemma {:induction false} WaitsSinceLead(states: seq<System>, steps: seq<Step>, build: Key -> Answer, key: Key,
                                          i: nat, c: nat, k: nat)
    requires IsRun(states, steps, build) && i <= c < k < |states|
    requires Leads(states[i], steps[i], key) && steps[c] == Asks(key)
    requires forall m :: i <= m < k ==> !Ends(steps[m], key)
    requires forall m :: c < m < k ==> steps[m] != GivesUp(key, c)
    ensures Waits(states[k], key, c)
    decreases k
  {
    assert Linked(states, steps, build, k - 1);
    if k == c + 1 {
      WaitsAtFirst(states, steps, build, key, i, c);
    } else {
      WaitsSinceLead(states, steps, build, key, i, c, k - 1);
      var step := steps[k - 1];
      assert !Ends(step, key) && step != GivesUp(key, c);
      RunInv(states, steps, build, k - 1);
      StillWaits(states[k - 1], steps, k - 1, build, key, c);
    }
  }

  lemma StillWaits(s: System, steps: seq<Step>, k: nat, build: Key -> Answer, key: Key, c: nat)
    requires Inv(s, steps, k, build) && k < |steps| && Can(s, steps[k]) && Waits(s, key, c)
    requires !Ends(steps[k], key) && steps[k] != GivesUp(key, c)
    ensures Waits(Do(s, k, steps[k], build), key, c)
  {
  }

  /** A build that succeeds answers its leader and everyone who joined it, all with what it yields. */
  lemma FinishAnswersEveryone(states: seq<System>, steps: seq<Step>, build: Key -> Answer, key: Key,
                              i: nat, c: nat, k: nat)
    requires IsRun(states, steps, build) && i <= c < k < |steps|
    requires Leads(states[i], steps[i], key) && steps[c] == Asks(key)
    requires Ends(steps[k], key) && !steps[k].fails
    requires forall m :: i <= m < k ==> !Ends(steps[m], key)
    requires forall m :: c < m < k ==> steps[m] != GivesUp(key, c)
    ensures c in states[k + 1].answered && states[k + 1].answered[c] == build(key)
  {
    WaitsSinceLead(states, steps, build, key, i, c, k);
    assert Linked(states, steps, build, k);
  }

  // ---- The locked sections ----

  /** The steps are the two locked sections of a load, and keep one flight for each identity being built. */
  lemma StepIsLockedSection(s: System, k: nat, step: Step, build: Key -> Answer)
    requires Can(s, step) && !step.GivesUp?
    ensures var s' := Do(s, k, step, build);
      ShelfOf(s') == if step.Asks? then Begun(ShelfOf(s), step.key).0
                     else Finished(ShelfOf(s), step.key, if step.fails then Failed else Built(build(step.key)),
                                   step.cancelled)
  {
    if step.Asks? {
      assert Begun(ShelfOf(s), step.key).1 == Join ==> step.key in s.flights;
    }
  }

  lemma Extend(states: seq<System>, steps: seq<Step>, build: Key -> Answer, step: Step)
    returns (states': seq<System>, steps': seq<Step>)
    requires IsRun(states, steps, build) && Can(states[|steps|], step)
    ensures IsRun(states', steps', build) && steps' == steps + [step]
    ensures states'[|steps'|] == Do(states[|steps|], |steps|, step, build)
  {
    states', steps' := states + [Do(states[|steps|], |steps|, step, build)], steps + [step];
    forall i | 0 <= i < |steps'|
      ensures Linked(states', steps', build, i)
    {
      if i < |steps| {
        assert Linked(states, steps, build, i);
        assert states'[i] == states[i] && states'[i + 1] == states[i + 1] && steps'[i] == steps[i];
      }
    }
  }

  /** No load waits in vain: in every run the build it waits for can finish, and that answers it. */
  lemma WaitingLoadCanBeAnswered(states: seq<System>, steps: seq<Step>, build: Key -> Answer, key: Key, c: nat)
    returns (states': seq<System>, steps': seq<Step>)
    requires IsRun(states, steps, build) && Waits(states[|steps|], key, c)
    ensures IsRun(states', steps', build) && steps' == steps + [Finishes(key, false, false)]
    ensures c in states'[|steps'|].answered && states'[|steps'|].answered[c] == build(key)
  {
    states', steps' := Extend(states, steps, build, Finishes(key, false, false));
  }

  /** A load that joined another's build may give up; one that leads it may not. */
  lemma JoinedLoadMayGiveUp(states: seq<System>, steps: seq<Step>, build: Key -> Answer, key: Key, c: nat)
    returns (states': seq<System>, steps': seq<Step>)
    requires IsRun(states, steps, build) && Waits(states[|steps|], key, c) && states[|steps|].flights[key].leader != c
    ensures IsRun(states', steps', build) && steps' == steps + [GivesUp(key, c)]
    ensures c in states'[|steps'|].failed && !Waits(states'[|steps'|], key, c)
  {
    states', steps' := Extend(states, steps, build, GivesUp(key, c));
  }
}
