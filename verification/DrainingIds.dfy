/** Request ids and lanes that outlive their request, over every run of the session.

An upload that is removed before its end leaves frames on its lane. Until they are accounted for its id is barred, so
none of them reaches a later request with the same id. A lane that goes away takes its requests with it.
 */
module DrainingIds {
  import opened Options
  import opened Scheduler
  import Tombstones
  import opened SchedulerEffects

  lemma RunStep(states: seq<Session>, steps: seq<Step>, k: nat)
    requires IsRun(states, steps) && k < |steps|
    ensures Can(states[k], steps[k]) && states[k + 1] == Do(states[k], steps[k])
  {
    assert Linked(states, steps, k);
  }

  // ---------------------------------------------------------------------------
  // Barred ids
  // ---------------------------------------------------------------------------

  /** The step removes or times out an upload whose frames may still come. */
  predicate Entombs(s: Session, step: Step, serial: nat) {
    && serial < |s.table.reqs|
    && (|| (step.Cancel? && step.serial == serial && step.trailing && s.table.reqs[serial].hasBody)
        || (step.Expire? && step.serial == serial))
  }

  /** A removal of another upload finds the tombstone of `id` expired, or drops it from a full table. */
  predicate Crowds(s: Session, id: nat, serial: nat, now: nat, evicted: set<nat>) {
    && serial < |s.table.reqs| && s.table.reqs[serial].id != id
    && id in s.draining && (now >= s.draining[id].expires || id in evicted)
  }

  /** What ends the bar on an id: the end of its upload comes on its lane, its time is up when the table is next looked
      at, a full table drops it, or the session closes. */
  predicate Forgets(s: Session, step: Step, id: nat) {
    id in s.draining &&
    match step
    case Begin(r, _, now) => Considers(s, r) && now >= s.draining[id].expires
    case Cancel(serial, trailing, now, evicted) => Entombs(s, step, serial) && Crowds(s, id, serial, now, evicted)
    case Expire(serial, now, evicted) => Crowds(s, id, serial, now, evicted)
    case Discard(other, lane, end, now) =>
      now >= s.draining[id].expires || (other == id && lane == s.draining[id].lane && end)
    case Close => true
    case _ => false
  }

  lemma StepDrains(s: Session, step: Step)
    requires Can(s, step)
    ensures Do(s, step).draining == if step.Close? then map[] else Drain(s, step)
  {
    if !step.Begin? && !step.Cancel? && !step.Expire? && !step.Discard? && !step.Close? {
      OthersDrainNothing(s, step);
    }
  }

  lemma OthersDrainNothing(s: Session, step: Step)
    requires Can(s, step) && !step.Begin? && !step.Cancel? && !step.Expire? && !step.Discard? && !step.Close?
    ensures TombstoneStep(s, step).None? && Do(s, step).draining == s.draining
  {
  }

  /** The tombstone of `id` after one look at the table. */
  lemma InnerForgets(table: map<nat, Tombstones.Tombstone>, inner: Tombstones.Step, id: nat)
    requires id in table
    ensures var after := Tombstones.Do(table, inner, TOMBSTONE_LIFETIME);
      && (id in after <==>
            || (inner.Remembers? && inner.id == id)
            || (inner.now < table[id].expires
                && !(inner.Remembers? && id in inner.evicted)
                && !(inner.Discards? && inner.id == id && inner.lane == table[id].lane && inner.end)))
      && (id in after && !(inner.Remembers? && inner.id == id) ==> after[id].lane == table[id].lane)
  {
  }

  lemma StepForgetsExactlyWhen(s: Session, step: Step, id: nat)
    requires Can(s, step) && id in s.draining
    ensures id in Do(s, step).draining <==> !Forgets(s, step, id)
    ensures id in Do(s, step).draining && !(exists n: nat :: Entombs(s, step, n) && s.table.reqs[n].id == id)
         ==> Do(s, step).draining[id].lane == s.draining[id].lane
  {
    StepDrains(s, step);
    if TombstoneStep(s, step).Some? {
      InnerForgets(s.draining, TombstoneStep(s, step).value, id);
      if step.Cancel? || step.Expire? {
        assert Entombs(s, step, step.serial);
      }
    }
  }

  /** An id is barred until it is forgotten, and no longer. */
  lemma BarredExactlyUntilForgotten(states: seq<Session>, steps: seq<Step>, k: nat, id: nat)
    requires IsRun(states, steps) && k < |steps| && id in states[k].draining
    ensures id in states[k + 1].draining <==> !Forgets(states[k], steps[k], id)
  {
    RunStep(states, steps, k);
    StepForgetsExactlyWhen(states[k], steps[k], id);
  }

  /** `requestOnLane`. */
  function RequestOnLane(t: Table, id: nat, lane: nat): Option<nat> {
    if id in t.requests && t.requests[id] < |t.reqs| && t.reqs[t.requests[id]].lane == lane
    then Some(t.requests[id]) else None
  }

  /** The removed upload is the only request that may still answer to its id, and its lane is remembered. */
  ghost predicate Bars(s: Session, serial: nat) {
    && serial < |s.table.reqs|
    && var r := s.table.reqs[serial];
       && r.id in s.draining && s.draining[r.id].lane == r.lane
       && (r.id in s.table.requests ==> s.table.requests[r.id] == serial)
  }

  lemma EntombingBars(s: Session, step: Step, serial: nat)
    requires Inv(s) && Can(s, step) && Entombs(s, step, serial)
    ensures Bars(Do(s, step), serial) && Do(s, step).table.reqs == s.table.reqs
  {
  }

  lemma QuietKeepsRequests(s: Session, step: Step)
    requires Can(s, step) && !step.Begin?
    ensures Do(s, step).table.reqs == s.table.reqs
    ensures forall id :: id in Do(s, step).table.requests ==>
              id in s.table.requests && Do(s, step).table.requests[id] == s.table.requests[id]
  {
    if Quiet(step) {
      QuietTouchesOnlyQueues(s, step);
    }
  }

  lemma StepKeepsBars(s: Session, step: Step, serial: nat)
    requires Inv(s) && Can(s, step) && Bars(s, serial) && !Forgets(s, step, s.table.reqs[serial].id)
    ensures Bars(Do(s, step), serial) && s.table.reqs <= Do(s, step).table.reqs
  {
    var id := s.table.reqs[serial].id;
    StepForgetsExactlyWhen(s, step, id);
    if !step.Begin? {
      QuietKeepsRequests(s, step);
    }
    if other: nat :| Entombs(s, step, other) && s.table.reqs[other].id == id {
      assert other == serial;
      EntombingBars(s, step, serial);
    }
  }

  lemma BarsNext(states: seq<Session>, steps: seq<Step>, k: nat, serial: nat)
    requires IsRun(states, steps) && k < |steps| && Bars(states[k], serial)
    requires !Forgets(states[k], steps[k], states[k].table.reqs[serial].id)
    ensures Bars(states[k + 1], serial) && states[k].table.reqs <= states[k + 1].table.reqs
  {
    RunInv(states, steps, k);
    RunStep(states, steps, k);
    StepKeepsBars(states[k], steps[k], serial);
  }

  lemma BarsAtFirst(states: seq<Session>, steps: seq<Step>, k: nat, serial: nat)
    requires IsRun(states, steps) && k < |steps| && Entombs(states[k], steps[k], serial)
    ensures Bars(states[k + 1], serial) && states[k].table.reqs == states[k + 1].table.reqs
  {
    RunInv(states, steps, k);
    RunStep(states, steps, k);
    EntombingBars(states[k], steps[k], serial);
  }

  lemma {:induction false} StaysBarred(states: seq<Session>, steps: seq<Step>, i: nat, j: nat, serial: nat)
    requires IsRun(states, steps) && i < j < |states| && Entombs(states[i], steps[i], serial)
    requires forall m :: i < m < j ==> !Forgets(states[m], steps[m], states[i].table.reqs[serial].id)
    ensures states[i].table.reqs <= states[j].table.reqs && Bars(states[j], serial)
    decreases j
  {
    if j == i + 1 {
      BarsAtFirst(states, steps, i, serial);
    } else {
      StaysBarred(states, steps, i, j - 1, serial);
      BarsNext(states, steps, j - 1, serial);
    }
  }

  /** From a removal that leaves a tombstone until the tombstone is used up or forgotten, no head with its id is
      admitted, and a frame with its id finds the removed upload or nothing, on whatever lane it comes. */
  lemma LateFramesReachNoSuccessor(states: seq<Session>, steps: seq<Step>, i: nat, j: nat, serial: nat)
    requires IsRun(states, steps) && i < j < |states| && Entombs(states[i], steps[i], serial)
    requires forall m :: i < m < j ==> !Forgets(states[m], steps[m], states[i].table.reqs[serial].id)
    ensures var id := states[i].table.reqs[serial].id;
      && (forall lane :: RequestOnLane(states[j].table, id, lane) in {None, Some(serial)})
      && (j < |steps| && steps[j].Begin? && steps[j].request.id == id && !Forgets(states[j], steps[j], id) ==>
            states[j + 1].table == states[j].table)
  {
    StaysBarred(states, steps, i, j, serial);
    if j < |steps| {
      RunStep(states, steps, j);
    }
  }

  lemma {:induction false} SoonestExists(table: map<nat, Tombstones.Tombstone>) returns (id: nat)
    requires table != map[]
    ensures Tombstones.SoonestToExpire(table, id)
    decreases |table|
  {
    var first :| first in table;
    var rest := table - {first};
    assert table.Keys == rest.Keys + {first};
    id := first;
    if rest != map[] {
      assert |rest| < |table|;
      var soonest := SoonestExists(rest);
      id := if table[soonest].expires < table[first].expires then soonest else first;
      assert forall other :: other in rest ==> table[soonest].expires <= table[other].expires;
    }
    assert forall other :: other in table ==> other == first || other in rest;
  }

  /** A live upload may be removed with a tombstone, or time out, at any moment, also when the table is full. */
  lemma UploadMayLeaveATombstone(states: seq<Session>, steps: seq<Step>, serial: nat, now: nat, expires: bool)
    returns (states': seq<Session>, steps': seq<Step>)
    requires IsRun(states, steps) && Live(states[|steps|].table, serial) && states[|steps|].table.reqs[serial].hasBody
    ensures |steps'| == |steps| + 1 && steps <= steps' && IsRun(states', steps')
    ensures Entombs(states[|steps|], steps'[|steps|], serial) && steps'[|steps|].Expire? == expires
    ensures Bars(states'[|steps'|], serial) && Live(states'[|steps'|].table, serial) == expires
  {
    RunInv(states, steps, |steps|);
    var s, evicted: set<nat> := states[|steps|], {};
    var live := Tombstones.Unexpired(s.draining, now);
    if |live| >= Tombstones.MAX_TOMBSTONES {
      var victim := SoonestExists(live);
      evicted := {victim};
    }
    var step := if expires then Expire(serial, now, evicted) else Cancel(serial, true, now, evicted);
    states', steps' := Extend(states, steps, step);
    EntombingBars(s, step, serial);
  }

  /** The end of a removed upload may come at any moment, and lifts the bar. */
  lemma EndLiftsTheBar(states: seq<Session>, steps: seq<Step>, id: nat, now: nat)
    returns (states': seq<Session>, steps': seq<Step>)
    requires IsRun(states, steps) && id in states[|steps|].draining
    ensures steps' == steps + [Discard(id, states[|steps|].draining[id].lane, true, now)]
    ensures IsRun(states', steps') && id !in states'[|steps'|].draining
    ensures states'[|steps'|] == states[|steps|].(draining := states'[|steps'|].draining)
  {
    RunInv(states, steps, |steps|);
    states', steps' := Extend(states, steps, Discard(id, states[|steps|].draining[id].lane, true, now));
  }

  // ---------------------------------------------------------------------------
  // How long an id is barred
  // ---------------------------------------------------------------------------

  predicate Remembers(s: Session, step: Step) {
    TombstoneStep(s, step).Some? && TombstoneStep(s, step).value.Remembers?
  }

  /** Uploads removed with a tombstone among the steps from `i` to `j`. */
  function Removals(states: seq<Session>, steps: seq<Step>, i: nat, j: nat): nat
    requires i <= j <= |steps| <= |states|
    decreases j
  {
    if i == j then 0 else Removals(states, steps, i, j - 1) + if Remembers(states[j - 1], steps[j - 1]) then 1 else 0
  }

  /** The step keeps out of the tombstone's way: it comes in time, is not the end of its upload, does not remember the
      same id again, and does not close the session. */
  predicate Spares(s: Session, step: Step, id: nat, lane: nat, expires: nat) {
    && !step.Close?
    && (match TombstoneStep(s, step)
        case None => true
        case Some(inner) =>
          && inner.now < expires
          && (inner.Remembers? ==> inner.id != id)
          && (inner.Discards? && inner.id == id && inner.lane == lane ==> !inner.end))
  }

  /** The tombstone stands, and at most `later` others expire no sooner. */
  ghost predicate Stands(s: Session, id: nat, lane: nat, expires: nat, later: int) {
    && id in s.draining && s.draining[id].lane == lane && s.draining[id].expires == expires
    && |Tombstones.Later(s.draining, id, expires)| <= later
  }

  lemma StepSpares(s: Session, step: Step, id: nat, lane: nat, expires: nat, later: int)
    requires Can(s, step) && Spares(s, step, id, lane, expires)
    requires Stands(s, id, lane, expires, later) && (Remembers(s, step) ==> later < 255)
    ensures !Forgets(s, step, id)
    ensures Stands(Do(s, step), id, lane, expires, later + if Remembers(s, step) then 1 else 0)
  {
    if TombstoneStep(s, step).Some? {
      var inner := TombstoneStep(s, step).value;
      if inner.Remembers? {
        Tombstones.KeptByRemembering(s.draining, inner, TOMBSTONE_LIFETIME, id);
      } else {
        Tombstones.KeptByDiscarding(s.draining, inner, TOMBSTONE_LIFETIME, id);
      }
    }
    StepForgetsExactlyWhen(s, step, id);
  }

  lemma StandsNext(
      states: seq<Session>, steps: seq<Step>, k: nat, id: nat, lane: nat, expires: nat, later: int)
    requires IsRun(states, steps) && k < |steps| && Spares(states[k], steps[k], id, lane, expires)
    requires Stands(states[k], id, lane, expires, later) && (Remembers(states[k], steps[k]) ==> later < 255)
    ensures !Forgets(states[k], steps[k], id)
    ensures Stands(states[k + 1], id, lane, expires, later + if Remembers(states[k], steps[k]) then 1 else 0)
  {
    RunStep(states, steps, k);
    StepSpares(states[k], steps[k], id, lane, expires, later);
  }

  lemma {:induction false} StandsThroughout(
      states: seq<Session>, steps: seq<Step>, i: nat, j: nat, id: nat, lane: nat, expires: nat, later: int)
    requires IsRun(states, steps) && i <= j < |states| && Stands(states[i], id, lane, expires, later)
    requires forall m :: i <= m < j ==> Spares(states[m], steps[m], id, lane, expires)
    requires later + Removals(states, steps, i, j) < 256
    ensures Stands(states[j], id, lane, expires, later + Removals(states, steps, i, j))
    ensures forall m :: i <= m < j ==> !Forgets(states[m], steps[m], id)
    decreases j
  {
    if i < j {
      StandsThroughout(states, steps, i, j - 1, id, lane, expires, later);
      StandsNext(states, steps, j - 1, id, lane, expires, later + Removals(states, steps, i, j - 1));
    }
  }

  /** For thirty seconds after such a removal its id is barred, unless the end of the upload comes or so many uploads
      are removed that the table is full of tombstones that outlast it. */
  lemma BarredForThirtySeconds(
      states: seq<Session>, steps: seq<Step>, i: nat, j: nat, serial: nat)
    requires IsRun(states, steps) && i < j < |states| && Entombs(states[i], steps[i], serial)
    requires var r, expires := states[i].table.reqs[serial], steps[i].now + 30_000_000_000;
      && (forall m :: i < m < j ==> Spares(states[m], steps[m], r.id, r.lane, expires))
      && |Tombstones.Later(states[i].draining, r.id, expires)| + Removals(states, steps, i + 1, j) < 256
    ensures forall m :: i < m < j ==> !Forgets(states[m], steps[m], states[i].table.reqs[serial].id)
    ensures Bars(states[j], serial)
  {
    RunStep(states, steps, i);
    var s, r, inner := states[i], states[i].table.reqs[serial], TombstoneStep(states[i], steps[i]).value;
    var expires := steps[i].now + 30_000_000_000;
    Tombstones.StandsAtFirst(s.draining, inner, TOMBSTONE_LIFETIME);
    StandsThroughout(states, steps, i + 1, j, r.id, r.lane, expires, |Tombstones.Later(s.draining, r.id, expires)|);
    StaysBarred(states, steps, i, j, serial);
  }

  // ---------------------------------------------------------------------------
  // Lanes
  // ---------------------------------------------------------------------------

  /** A slot is held by a lane object that was made for it. */
  ghost predicate Slotted(l: Lanes) {
    forall slot :: slot in l.attached ==>
      slot < LANES && l.attached[slot] < |l.slots| && l.slots[l.attached[slot]] == slot
  }

  /** A live request is on an attached lane, or the thread that took the lane away has yet to cancel it. */
  ghost predicate Sheltered(t: Table, l: Lanes, detaching: set<nat>) {
    && (forall serial: nat :: Live(t, serial) ==>
          t.reqs[serial].lane < |l.slots| && (Attached(l, t.reqs[serial].lane) || serial in detaching))
    && (forall serial :: serial in detaching ==> Live(t, serial) && !Attached(l, t.reqs[serial].lane))
  }

  ghost predicate Housed(s: Session) {
    Slotted(s.lanes) && Sheltered(s.table, s.lanes, s.detaching)
  }

  lemma OnLaneIsLive(t: Table, lane: nat, serial: nat)
    requires forall id :: id in t.requests ==> t.requests[id] < |t.reqs| && t.reqs[t.requests[id]].id == id
    ensures serial in OnLane(t, lane) <==> Live(t, serial) && t.reqs[serial].lane == lane
  {
    if Live(t, serial) && t.reqs[serial].lane == lane {
      var id := t.reqs[serial].id;
      assert id in t.requests && t.requests[id] == serial;
    }
  }

  lemma DetachShelters(t: Table, l: Lanes, detaching: set<nat>, lane: nat)
    requires forall id :: id in t.requests ==> t.requests[id] < |t.reqs| && t.reqs[t.requests[id]].id == id
    requires Slotted(l) && Sheltered(t, l, detaching) && Attached(l, lane)
    ensures var l' := l.(attached := l.attached - {l.slots[lane]});
      Slotted(l') && Sheltered(t, l', detaching + OnLane(t, lane))
    ensures forall serial: nat :: serial in detaching + OnLane(t, lane) <==>
              serial in detaching || (Live(t, serial) && t.reqs[serial].lane == lane)
  {
    var l' := l.(attached := l.attached - {l.slots[lane]});
    assert forall other: nat :: Attached(l', other) <==> Attached(l, other) && other != lane;
    forall serial: nat
      ensures serial in OnLane(t, lane) <==> Live(t, serial) && t.reqs[serial].lane == lane
    {
      OnLaneIsLive(t, lane, serial);
    }
  }

  lemma AttachShelters(t: Table, l: Lanes, detaching: set<nat>, slot: nat)
    requires Slotted(l) && Sheltered(t, l, detaching) && slot < LANES && slot !in l.attached
    ensures var l' := Lanes(l.slots + [slot], l.attached[slot := |l.slots|]);
      Slotted(l') && Sheltered(t, l', detaching)
  {
    var l' := Lanes(l.slots + [slot], l.attached[slot := |l.slots|]);
    assert forall lane: nat :: lane < |l.slots| ==> (Attached(l', lane) <==> Attached(l, lane));
  }

  lemma RemoveShelters(t: Table, l: Lanes, detaching: set<nat>, serial: nat)
    requires Sheltered(t, l, detaching) && Live(t, serial)
    ensures Sheltered(Remove(t, serial), l, detaching - {serial})
  {
    var t' := Remove(t, serial);
    assert forall other: nat :: Live(t', other) <==> Live(t, other) && other != serial;
  }

  lemma AdmitShelters(t: Table, l: Lanes, detaching: set<nat>, r: Request)
    requires Sheltered(t, l, detaching) && |t.pending| == CLASSES && r.priority < CLASSES
    requires r.id !in t.requests && Attached(l, r.lane)
    requires forall id :: id in t.requests ==> t.requests[id] < |t.reqs|
    ensures Sheltered(Admit(t, r), l, detaching)
  {
    var t' := Admit(t, r);
    assert forall other: nat :: Live(t', other) <==> Live(t, other) || other == |t.reqs|;
    assert forall other: nat :: Live(t, other) ==> t'.reqs[other] == t.reqs[other];
  }

  lemma SameRequestsShelter(t: Table, t': Table, l: Lanes, detaching: set<nat>)
    requires Sheltered(t, l, detaching) && t'.reqs == t.reqs && t'.requests == t.requests
    ensures Sheltered(t', l, detaching)
  {
    assert forall other: nat :: Live(t', other) <==> Live(t, other);
  }

  /** What the other steps leave alone. */
  lemma OthersKeepLanes(s: Session, step: Step)
    requires Can(s, step) && !step.Begin? && !step.Cancel? && !step.Attach? && !step.Detach? && !step.Close?
    ensures Do(s, step).lanes == s.lanes && Do(s, step).detaching == s.detaching
  {
  }

  lemma OthersKeepRequests(s: Session, step: Step)
    requires Can(s, step) && !step.Begin? && !step.Cancel? && !step.Close?
    ensures Do(s, step).table.reqs == s.table.reqs && Do(s, step).table.requests == s.table.requests
  {
    if Quiet(step) {
      QuietTouchesOnlyQueues(s, step);
    }
  }

  lemma StepKeepsHoused(s: Session, step: Step)
    requires StartedOnce(s) && Housed(s) && Can(s, step)
    ensures Housed(Do(s, step))
  {
    match step
    case Detach(lane) => DetachShelters(s.table, s.lanes, s.detaching, lane);
    case Attach(slot) => AttachShelters(s.table, s.lanes, s.detaching, slot);
    case Cancel(serial, _, _, _) => RemoveShelters(s.table, s.lanes, s.detaching, serial);
    case Begin(_, _, _) => BeginKeepsHoused(s, step);
    case Close =>
    case _ => OthersKeepHoused(s, step);
  }

  lemma BeginKeepsHoused(s: Session, step: Step)
    requires StartedOnce(s) && Housed(s) && step.Begin? && Can(s, step)
    ensures Housed(Do(s, step))
  {
    if Admits(s, step.request, step.bodyReserved, step.now) {
      AdmitShelters(s.table, s.lanes, s.detaching, step.request);
    }
  }

  lemma OthersKeepHoused(s: Session, step: Step)
    requires Housed(s) && Can(s, step)
    requires !step.Begin? && !step.Cancel? && !step.Attach? && !step.Detach? && !step.Close?
    ensures Housed(Do(s, step))
  {
    OthersKeepLanes(s, step);
    OthersKeepRequests(s, step);
    SameRequestsShelter(s.table, Do(s, step).table, s.lanes, s.detaching);
  }

  lemma {:induction false} RunHoused(states: seq<Session>, steps: seq<Step>, k: nat)
    requires IsRun(states, steps) && k < |states|
    ensures Housed(states[k])
    decreases k
  {
    if k > 0 {
      RunHoused(states, steps, k - 1);
      RunInv(states, steps, k - 1);
      RunStep(states, steps, k - 1);
      StepKeepsHoused(states[k - 1], steps[k - 1]);
    }
  }

  /** In every run a request outlives its lane only until the thread that took the lane away cancels it: that thread has
      all live requests of the lane to cancel, and nobody else's. */
  lemma RequestsGoWithTheirLane(states: seq<Session>, steps: seq<Step>, k: nat)
    requires IsRun(states, steps) && k < |states|
    ensures forall serial: nat :: Live(states[k].table, serial) ==>
              Attached(states[k].lanes, states[k].table.reqs[serial].lane) || serial in states[k].detaching
    ensures k < |steps| && steps[k].Detach? ==>
      forall serial: nat :: serial in states[k + 1].detaching <==>
        || serial in states[k].detaching
        || (Live(states[k].table, serial) && states[k].table.reqs[serial].lane == steps[k].lane)
  {
    RunHoused(states, steps, k);
    RunInv(states, steps, k);
    if k < |steps| && steps[k].Detach? {
      RunStep(states, steps, k);
      DetachShelters(states[k].table, states[k].lanes, states[k].detaching, steps[k].lane);
    }
  }

  /** A free slot of an open session takes a lane, which disturbs no other lane. */
  lemma FreeSlotTakesALane(states: seq<Session>, steps: seq<Step>, slot: nat)
    returns (states': seq<Session>, steps': seq<Step>)
    requires IsRun(states, steps) && !states[|steps|].table.closed
    requires slot < 4 && slot !in states[|steps|].lanes.attached
    ensures IsRun(states', steps') && steps' == steps + [Attach(slot)]
    ensures var l, l' := states[|steps|].lanes, states'[|steps'|].lanes;
      Attached(l', |l.slots|) && forall lane: nat :: lane < |l.slots| ==> (Attached(l', lane) <==> Attached(l, lane))
    ensures states'[|steps'|] == states[|steps|].(lanes := states'[|steps'|].lanes)
  {
    RunInv(states, steps, |steps|);
    RunHoused(states, steps, |steps|);
    states', steps' := Extend(states, steps, Attach(slot));
  }

  lemma {:induction false} DetachedAreCancelled(states: seq<Session>, steps: seq<Step>)
    returns (states': seq<Session>, steps': seq<Step>)
    requires IsRun(states, steps)
    ensures IsRun(states', steps') && steps <= steps' && states'[|steps'|].detaching == {}
    ensures states'[|steps'|].lanes == states[|steps|].lanes
    ensures forall i :: |steps| <= i < |steps'| ==> steps'[i].Cancel?
    decreases |states[|steps|].detaching|
  {
    states', steps' := states, steps;
    var s := states[|steps|];
    if s.detaching != {} {
      RunInv(states, steps, |steps|);
      RunHoused(states, steps, |steps|);
      var serial :| serial in s.detaching;
      states', steps' := Extend(states, steps, Cancel(serial, false, 0, {}));
      var more := steps';
      assert |s.detaching - {serial}| == |s.detaching| - 1;
      states', steps' := DetachedAreCancelled(states', steps');
      assert forall i :: |steps| <= i < |more| ==> steps'[i] == more[i];
    }
  }

  /** A lane may be lost at any moment, and then cancels alone rid the session of all requests without a lane. */
  lemma LostLaneIsCleared(states: seq<Session>, steps: seq<Step>, lane: nat)
    returns (states': seq<Session>, steps': seq<Step>)
    requires IsRun(states, steps) && Attached(states[|steps|].lanes, lane)
    ensures IsRun(states', steps') && steps + [Detach(lane)] <= steps'
    ensures forall i :: |steps| < i < |steps'| ==> steps'[i].Cancel?
    ensures var s' := states'[|steps'|];
      && !Attached(s'.lanes, lane)
      && forall serial: nat :: Live(s'.table, serial) ==> Attached(s'.lanes, s'.table.reqs[serial].lane)
  {
    RunInv(states, steps, |steps|);
    states', steps' := Extend(states, steps, Detach(lane));
    var lost := steps';
    states', steps' := DetachedAreCancelled(states', steps');
    RunHoused(states', steps', |steps'|);
    assert forall i :: 0 <= i < |lost| ==> steps'[i] == lost[i];
  }
}
