/** The peer-scoped request scheduler: admission, the dispatcher goroutine, handlers, cancellation.

A request object is a serial number into `reqs`; the request table maps its wire id to it. Every
critical section and every channel operation is one step. Other peers draw on the same global
token pools at any time. The session lock also guards the lanes and the ids whose upload was
removed with frames still on its lane.
 */
module Scheduler {
  import opened Options
  import Tombstones

  const MAX_ADMITTED := 256
  const MAX_ACTIVE := 16
  const MAX_ACTIVE_NON_INTERACTIVE := 3
  const MAX_BODY_REQUESTS := 4
  const GLOBAL_ADMITTED := 128 * 1024
  const GLOBAL_ACTIVE := 32 * 1024
  const GLOBAL_NON_INTERACTIVE := 8 * 1024
  const CLASSES := 4
  const LANES := 4

  /** Thirty seconds, in nanoseconds. */
  const TOMBSTONE_LIFETIME: nat := 30 * 1000 * 1000 * 1000

  datatype Request = Request(id: nat, priority: nat, hasBody: bool, lane: nat)

  /** Lane objects are numbered as they are attached: `slots` is the slot each was made for, `attached` the object that
      holds a slot now. */
  datatype Lanes = Lanes(slots: seq<nat>, attached: map<nat, nat>)

  /** The dispatcher between its critical sections; `ni` says that it holds a non-interactive token. */
  datatype Dispatcher =
    | Idle
    | Selecting
    | Parked
    | Waiting(serial: nat, ni: bool)
    | Holding(serial: nat, ni: bool)
    | Releasing(ni: bool)
    | Exited

  /** What the session lock guards. */
  datatype Table = Table(
    reqs: seq<Request>,
    requests: map<nat, nat>,
    started: set<nat>,
    pending: seq<seq<nat>>,
    activeHandlers: int,
    activeNonInteractive: int,
    bodyRequests: int,
    closed: bool)

  /** Free global tokens and those held by other peers. */
  datatype Tokens = Tokens(free: int, elsewhere: int)

  /** `cancelling`/`closing` threads owe an admission token; exiting handlers owe an active token (`exitPlain`,
      `exitBoth`), then perhaps a non-interactive one (`exitLast`); `signals` counts wakes still to be sent.
      `detaching` are the live requests that a thread which took a lane away has yet to cancel; `draining` is
      `rejectedBodies`. */
  datatype Session = Session(
    table: Table,
    running: set<nat>,
    starts: seq<nat>,
    dispatcher: Dispatcher,
    wake: bool,
    signals: nat,
    cancelling: nat,
    closing: nat,
    exitPlain: nat,
    exitBoth: nat,
    exitLast: nat,
    admission: Tokens,
    active: Tokens,
    nonInteractive: Tokens,
    lanes: Lanes,
    detaching: set<nat>,
    draining: map<nat, Tombstones.Tombstone>)

  // ---------------------------------------------------------------------------
  // Selection
  // ---------------------------------------------------------------------------

  /** Live and not started: the only requests the dispatcher may pick. */
  predicate Wanted(t: Table, serial: nat) {
    Live(t, serial) && serial !in t.started
  }

  /** A queue without its leading unwanted entries. */
  function Prune(t: Table, queue: seq<nat>): seq<nat> {
    if queue == [] || Wanted(t, queue[0]) then queue else Prune(t, queue[1..])
  }

  /** A class is passed over while the non-interactive limit is reached. */
  predicate Eligible(t: Table, priority: nat) {
    t.activeHandlers < MAX_ACTIVE && (priority == 0 || t.activeNonInteractive < MAX_ACTIVE_NON_INTERACTIVE)
  }

  function NextFrom(t: Table, priority: nat): Option<nat>
    requires |t.pending| == CLASSES && priority <= CLASSES
    decreases CLASSES - priority
  {
    if priority == CLASSES then None
    else if Eligible(t, priority) && Prune(t, t.pending[priority]) != [] then Some(Prune(t, t.pending[priority])[0])
    else NextFrom(t, priority + 1)
  }

  /** `nextPendingLocked`. */
  function Next(t: Table): Option<nat>
    requires |t.pending| == CLASSES
  {
    NextFrom(t, 0)
  }

  /** The queues as the scan leaves them: each class up to the one it stopped in is pruned. */
  function ScanFrom(t: Table, priority: nat): seq<seq<nat>>
    requires |t.pending| == CLASSES && priority <= CLASSES
    decreases CLASSES - priority
  {
    if priority == CLASSES then t.pending
    else if !Eligible(t, priority) then ScanFrom(t, priority + 1)
    else
      var pruned := t.(pending := t.pending[priority := Prune(t, t.pending[priority])]);
      if pruned.pending[priority] != [] then pruned.pending else ScanFrom(pruned, priority + 1)
  }

  predicate OfClass(reqs: seq<Request>, queue: seq<nat>, p: nat) {
    forall i :: 0 <= i < |queue| ==> queue[i] < |reqs| && reqs[queue[i]].priority == p
  }

  predicate Increasing(queue: seq<nat>) {
    forall i, j :: 0 <= i < j < |queue| ==> queue[i] < queue[j]
  }

  /** Queues hold increasing serials of their own class, and every wanted request is in its queue. */
  ghost predicate Queued(t: Table) {
    && |t.pending| == CLASSES
    && (forall s :: 0 <= s < |t.reqs| ==> t.reqs[s].priority < CLASSES)
    && (forall p :: 0 <= p < CLASSES ==> OfClass(t.reqs, t.pending[p], p) && Increasing(t.pending[p]))
    && (forall s: nat :: Wanted(t, s) ==> s in t.pending[t.reqs[s].priority])
  }

  /** Pruning drops `k` leading entries, none of them wanted, and what it leaves in front is wanted. */
  lemma {:induction false} PruneKeepsWanted(t: Table, queue: seq<nat>) returns (k: nat)
    ensures k <= |queue| && Prune(t, queue) == queue[k..]
    ensures forall i :: 0 <= i < k ==> !Wanted(t, queue[i])
    ensures k < |queue| ==> Wanted(t, queue[k])
    decreases |queue|
  {
    if queue == [] || Wanted(t, queue[0]) {
      k := 0;
    } else {
      var n := PruneKeepsWanted(t, queue[1..]);
      k := n + 1;
      assert forall i :: 0 < i < k ==> queue[i] == queue[1..][i - 1];
    }
  }

  /** The chosen request is live, unstarted, of the best eligible class that has one, and the oldest there. */
  ghost predicate BestChoice(t: Table, choice: Option<nat>, from: nat) {
    match choice
    case None => forall s: nat :: Wanted(t, s) && t.reqs[s].priority >= from ==> !Eligible(t, t.reqs[s].priority)
    case Some(serial) =>
      && Wanted(t, serial) && t.reqs[serial].priority >= from && Eligible(t, t.reqs[serial].priority)
      && forall s: nat :: Wanted(t, s) && from <= t.reqs[s].priority && Eligible(t, t.reqs[s].priority) ==>
           || t.reqs[serial].priority < t.reqs[s].priority
           || (t.reqs[serial].priority == t.reqs[s].priority && serial <= s)
  }

  lemma FrontIsOldest(t: Table, p: nat)
    requires Queued(t) && p < CLASSES && Prune(t, t.pending[p]) != []
    ensures var front := Prune(t, t.pending[p])[0];
            && Wanted(t, front) && t.reqs[front].priority == p
            && forall s: nat :: Wanted(t, s) && t.reqs[s].priority == p ==> front <= s
  {
    var queue := t.pending[p];
    var k := PruneKeepsWanted(t, queue);
    assert OfClass(t.reqs, queue, p) && Increasing(queue);
    assert Prune(t, queue)[0] == queue[k];
    forall s: nat | Wanted(t, s) && t.reqs[s].priority == p
      ensures queue[k] <= s
    {
      var i :| 0 <= i < |queue| && queue[i] == s;
    }
  }

  lemma EmptyClassHasNone(t: Table, p: nat)
    requires Queued(t) && p < CLASSES && Prune(t, t.pending[p]) == []
    ensures forall s: nat :: Wanted(t, s) ==> t.reqs[s].priority != p
  {
    var k := PruneKeepsWanted(t, t.pending[p]);
  }

  lemma {:induction false} NextIsBestChoice(t: Table, from: nat)
    requires Queued(t) && from <= CLASSES
    ensures BestChoice(t, NextFrom(t, from), from)
    decreases CLASSES - from
  {
    if from < CLASSES {
      if Prune(t, t.pending[from]) != [] {
        FrontIsOldest(t, from);
      } else {
        EmptyClassHasNone(t, from);
      }
      if !(Eligible(t, from) && Prune(t, t.pending[from]) != []) {
        NextIsBestChoice(t, from + 1);
      }
    }
  }

  // ---------------------------------------------------------------------------
  // Steps
  // ---------------------------------------------------------------------------

  const NEW_TABLE := Table([], map[], {}, [[], [], [], []], 0, 0, 0, false)

  function Init(): Session {
    Session(NEW_TABLE, {}, [], Idle, false, 0, 0, 0, 0, 0, 0,
            Tokens(GLOBAL_ADMITTED, 0), Tokens(GLOBAL_ACTIVE, 0), Tokens(GLOBAL_NON_INTERACTIVE, 0),
            Lanes([], map[]), {}, map[])
  }

  datatype Pool = Admission | Active | NonInteractive

  datatype Step =
    | Begin(request: Request, bodyReserved: bool, now: nat)
    | Cancel(serial: nat, trailing: bool, now: nat, evicted: set<nat>)
    | Expire(serial: nat, now: nat, evicted: set<nat>)
    | Discard(id: nat, lane: nat, end: bool, now: nat)
    | Attach(slot: nat)
    | Detach(lane: nat)
    | ReturnAdmission
    | Close
    | ReturnClosed
    | SendSignal
    | Select
    | TakeWake
    | LeaveClosed
    | TakeNonInteractive
    | TakeActive
    | AbandonWait(onWake: bool)
    | TryStart
    | Release
    | HandlerExit(serial: nat)
    | ReturnPlain
    | ReturnBoth
    | ReturnLast
    | OtherTakes(pool: Pool)
    | OtherReturns(pool: Pool)

  predicate Attached(l: Lanes, lane: nat) {
    lane < |l.slots| && l.slots[lane] in l.attached && l.attached[l.slots[lane]] == lane
  }

  /** `begin` looks at a head that comes on a lane of an open session and does not repeat a live request's id. */
  predicate Considers(s: Session, r: Request) {
    !s.table.closed && Attached(s.lanes, r.lane) && r.id !in s.table.requests
  }

  /** It admits the request when nothing else is in its way. */
  predicate Admits(s: Session, r: Request, bodyReserved: bool, now: nat) {
    && Considers(s, r)
    && r.id !in Tombstones.Unexpired(s.draining, now)
    && |s.table.requests| < MAX_ADMITTED
    && (r.hasBody ==> s.table.bodyRequests < MAX_BODY_REQUESTS)
    && s.admission.free > 0
    && (r.hasBody ==> bodyReserved)
  }

  function Admit(t: Table, r: Request): Table
    requires |t.pending| == CLASSES && r.priority < CLASSES
  {
    var serial := |t.reqs|;
    t.(reqs := t.reqs + [r], requests := t.requests[r.id := serial],
       pending := t.pending[r.priority := t.pending[r.priority] + [serial]],
       bodyRequests := t.bodyRequests + if r.hasBody then 1 else 0)
  }

  predicate Live(t: Table, serial: nat) {
    serial < |t.reqs| && t.reqs[serial].id in t.requests && t.requests[t.reqs[serial].id] == serial
  }

  function Remove(t: Table, serial: nat): Table
    requires Live(t, serial)
  {
    t.(requests := t.requests - {t.reqs[serial].id},
       bodyRequests := t.bodyRequests - if t.reqs[serial].hasBody then 1 else 0)
  }

  /** What a step does to `rejectedBodies`: a removal that allows for trailing frames and an idle timeout remember the
      upload, a late frame looks it up, and a head that is considered prunes the table. */
  function TombstoneStep(s: Session, step: Step): Option<Tombstones.Step> {
    match step
    case Begin(r, _, now) => if Considers(s, r) then Some(Tombstones.Prunes(now)) else None
    case Cancel(serial, trailing, now, evicted) =>
      if serial < |s.table.reqs| && trailing && s.table.reqs[serial].hasBody
      then Some(Tombstones.Remembers(s.table.reqs[serial].id, s.table.reqs[serial].lane, now, evicted)) else None
    case Expire(serial, now, evicted) =>
      if serial < |s.table.reqs|
      then Some(Tombstones.Remembers(s.table.reqs[serial].id, s.table.reqs[serial].lane, now, evicted)) else None
    case Discard(id, lane, end, now) => Some(Tombstones.Discards(id, lane, end, now))
    case _ => None
  }

  function Drain(s: Session, step: Step): map<nat, Tombstones.Tombstone> {
    match TombstoneStep(s, step)
    case None => s.draining
    case Some(inner) => Tombstones.Do(s.draining, inner, TOMBSTONE_LIFETIME)
  }

  /** The live requests of a lane. */
  function OnLane(t: Table, lane: nat): set<nat> {
    set id | id in t.requests && t.requests[id] < |t.reqs| && t.reqs[t.requests[id]].lane == lane :: t.requests[id]
  }

  /** The guard under the lock right before a handler starts. */
  predicate CanStart(t: Table, serial: nat) {
    !t.closed && Wanted(t, serial) && Eligible(t, t.reqs[serial].priority)
  }

  function Pick(s: Session, pool: Pool): Tokens {
    match pool
    case Admission => s.admission
    case Active => s.active
    case NonInteractive => s.nonInteractive
  }

  function Put(s: Session, pool: Pool, tokens: Tokens): Session {
    match pool
    case Admission => s.(admission := tokens)
    case Active => s.(active := tokens)
    case NonInteractive => s.(nonInteractive := tokens)
  }

  function Gain(tokens: Tokens, n: int): Tokens { tokens.(free := tokens.free + n) }

  predicate Can(s: Session, step: Step) {
    && |s.table.pending| == CLASSES
    && (TombstoneStep(s, step).Some? ==> Tombstones.Can(s.draining, TombstoneStep(s, step).value))
    && match step
    case Begin(r, _, _) => r.priority < CLASSES
    case Cancel(serial, _, _, _) => Live(s.table, serial)
    case Expire(serial, _, _) => Live(s.table, serial) && s.table.reqs[serial].hasBody
    case Discard(_, _, _, _) => true
    case Attach(slot) => slot < LANES && !s.table.closed && slot !in s.lanes.attached
    case Detach(lane) => Attached(s.lanes, lane)
    case ReturnAdmission => s.cancelling > 0
    case Close => !s.table.closed
    case ReturnClosed => s.closing > 0
    case SendSignal => s.signals > 0
    case Select => s.dispatcher.Selecting?
    case TakeWake => s.dispatcher.Parked? && s.wake
    case LeaveClosed => s.dispatcher.Parked? && s.table.closed
    case TakeNonInteractive =>
      s.dispatcher.Waiting? && s.dispatcher.serial < |s.table.reqs| && s.table.reqs[s.dispatcher.serial].priority != 0
      && !s.dispatcher.ni && s.nonInteractive.free > 0
    case TakeActive =>
      s.dispatcher.Waiting? && s.dispatcher.serial < |s.table.reqs|
      && s.dispatcher.ni == (s.table.reqs[s.dispatcher.serial].priority != 0) && s.active.free > 0
    case AbandonWait(onWake) => s.dispatcher.Waiting? && (if onWake then s.wake else s.table.closed)
    case TryStart => s.dispatcher.Holding?
    case Release => s.dispatcher.Releasing?
    case HandlerExit(serial) => serial in s.running && serial < |s.table.reqs| && !Live(s.table, serial)
    case ReturnPlain => s.exitPlain > 0
    case ReturnBoth => s.exitBoth > 0
    case ReturnLast => s.exitLast > 0
    case OtherTakes(pool) => Pick(s, pool).free > 0
    case OtherReturns(pool) => Pick(s, pool).elsewhere > 0
  }

  function Do(s: Session, step: Step): Session
    requires Can(s, step)
  {
    var t := s.table;
    match step
    case Begin(r, bodyReserved, now) =>
      if !Admits(s, r, bodyReserved, now) then s.(draining := Drain(s, step))
      else s.(draining := Drain(s, step), table := Admit(t, r), admission := Gain(s.admission, -1),
              signals := s.signals + 1, dispatcher := if s.dispatcher.Idle? then Selecting else s.dispatcher)
    case Cancel(serial, _, _, _) =>
      s.(draining := Drain(s, step), table := Remove(t, serial), cancelling := s.cancelling + 1,
         detaching := s.detaching - {serial})
    case Expire(_, _, _) => s.(draining := Drain(s, step))
    case Discard(_, _, _, _) => s.(draining := Drain(s, step))
    case Attach(slot) =>
      s.(lanes := Lanes(s.lanes.slots + [slot], s.lanes.attached[slot := |s.lanes.slots|]))
    case Detach(lane) =>
      s.(lanes := s.lanes.(attached := s.lanes.attached - {s.lanes.slots[lane]}),
         detaching := s.detaching + OnLane(t, lane))
    case ReturnAdmission =>
      s.(cancelling := s.cancelling - 1, admission := Gain(s.admission, 1), signals := s.signals + 1)
    case Close =>
      s.(table := t.(closed := true, requests := map[], bodyRequests := 0), closing := s.closing + |t.requests|,
         signals := s.signals + 1, lanes := s.lanes.(attached := map[]), detaching := {}, draining := map[])
    case ReturnClosed => s.(closing := s.closing - 1, admission := Gain(s.admission, 1))
    case SendSignal => s.(signals := s.signals - 1, wake := true)
    case Select =>
      if t.closed then s.(dispatcher := Exited)
      else
        s.(table := t.(pending := ScanFrom(t, 0)),
           dispatcher := match Next(t) case None => Parked case Some(serial) => Waiting(serial, false))
    case TakeWake => s.(wake := false, dispatcher := Selecting)
    case LeaveClosed => s.(dispatcher := Exited)
    case TakeNonInteractive =>
      s.(nonInteractive := Gain(s.nonInteractive, -1), dispatcher := s.dispatcher.(ni := true))
    case TakeActive =>
      s.(active := Gain(s.active, -1), dispatcher := Holding(s.dispatcher.serial, s.dispatcher.ni))
    case AbandonWait(onWake) =>
      s.(wake := s.wake && !onWake, dispatcher := Selecting,
         nonInteractive := if s.dispatcher.ni then Gain(s.nonInteractive, 1) else s.nonInteractive)
    case TryStart =>
      var serial := s.dispatcher.serial;
      if CanStart(t, serial) then
        s.(table := t.(started := t.started + {serial}, activeHandlers := t.activeHandlers + 1,
                       activeNonInteractive := t.activeNonInteractive + if s.dispatcher.ni then 1 else 0),
           running := s.running + {serial}, starts := s.starts + [serial], dispatcher := Selecting)
      else s.(dispatcher := Releasing(s.dispatcher.ni))
    case Release =>
      s.(active := Gain(s.active, 1), dispatcher := Selecting,
         nonInteractive := if s.dispatcher.ni then Gain(s.nonInteractive, 1) else s.nonInteractive)
    case HandlerExit(serial) =>
      var ni := t.reqs[serial].priority != 0;
      s.(running := s.running - {serial},
         table := t.(activeHandlers := t.activeHandlers - 1,
                     activeNonInteractive := t.activeNonInteractive - if ni then 1 else 0),
         exitPlain := s.exitPlain + (if ni then 0 else 1), exitBoth := s.exitBoth + if ni then 1 else 0)
    case ReturnPlain => s.(exitPlain := s.exitPlain - 1, active := Gain(s.active, 1), signals := s.signals + 1)
    case ReturnBoth => s.(exitBoth := s.exitBoth - 1, active := Gain(s.active, 1), exitLast := s.exitLast + 1)
    case ReturnLast =>
      s.(exitLast := s.exitLast - 1, nonInteractive := Gain(s.nonInteractive, 1), signals := s.signals + 1)
    case OtherTakes(pool) =>
      var p := Pick(s, pool);
      Put(s, pool, Tokens(p.free - 1, p.elsewhere + 1))
    case OtherReturns(pool) =>
      var p := Pick(s, pool);
      Put(s, pool, Tokens(p.free + 1, p.elsewhere - 1))
  }

  // ---------------------------------------------------------------------------
  // The invariant
  // ---------------------------------------------------------------------------

  /** Free tokens plus every holder add up to each pool. */
  ghost predicate TokensConserved(s: Session) {
    var d := s.dispatcher;
    && s.admission.free + s.admission.elsewhere + |s.table.requests| + s.cancelling + s.closing == GLOBAL_ADMITTED
    && s.active.free + s.active.elsewhere + s.table.activeHandlers
       + (if d.Holding? || d.Releasing? then 1 else 0) + s.exitPlain + s.exitBoth == GLOBAL_ACTIVE
    && s.nonInteractive.free + s.nonInteractive.elsewhere + s.table.activeNonInteractive
       + (if (d.Waiting? || d.Holding? || d.Releasing?) && d.ni then 1 else 0) + s.exitBoth + s.exitLast
       == GLOBAL_NON_INTERACTIVE
    && 0 <= s.admission.free && 0 <= s.active.free && 0 <= s.nonInteractive.free
  }

  ghost function NonInteractiveOf(reqs: seq<Request>, serials: set<nat>): set<nat> {
    set s | s in serials && s < |reqs| && reqs[s].priority != 0
  }

  ghost function BodiesOf(t: Table): set<nat> {
    set id | id in t.requests && t.requests[id] < |t.reqs| && t.reqs[t.requests[id]].hasBody
  }

  predicate Distinct(starts: seq<nat>) {
    forall i, j :: 0 <= i < j < |starts| ==> starts[i] != starts[j]
  }

  /** The counters count what they claim to, within the peer's limits. */
  ghost predicate Counted(s: Session) {
    var t := s.table;
    && |t.requests| <= MAX_ADMITTED
    && t.bodyRequests == |BodiesOf(t)| <= MAX_BODY_REQUESTS
    && t.activeHandlers == |s.running| <= MAX_ACTIVE
    && t.activeNonInteractive == |NonInteractiveOf(t.reqs, s.running)| <= MAX_ACTIVE_NON_INTERACTIVE
    && (t.closed ==> t.requests == map[])
  }

  /** Each request starts at most once, and only a started request runs. */
  ghost predicate StartedOnce(s: Session) {
    var t := s.table;
    && Distinct(s.starts)
    && (forall x :: x in s.starts <==> x in t.started)
    && s.running <= t.started
    && (forall x :: x in t.started ==> x < |t.reqs|)
    && (forall id :: id in t.requests ==> t.requests[id] < |t.reqs| && t.reqs[t.requests[id]].id == id)
    && (s.dispatcher.Waiting? || s.dispatcher.Holding? ==> s.dispatcher.serial < |t.reqs|)
    && (s.dispatcher.Holding? ==> s.dispatcher.ni == (t.reqs[s.dispatcher.serial].priority != 0))
    && (s.dispatcher.Waiting? && s.dispatcher.ni ==> t.reqs[s.dispatcher.serial].priority != 0)
  }

  /** Some thread has yet to signal the dispatcher. */
  predicate SignalOwed(s: Session) {
    s.signals > 0 || s.exitPlain > 0 || s.exitBoth > 0 || s.exitLast > 0
  }

  /** A parked dispatcher with something to start is about to be woken; an idle one has nothing to start. */
  ghost predicate Awake(s: Session)
    requires |s.table.pending| == CLASSES
  {
    && (s.dispatcher.Parked? && !s.table.closed && Next(s.table).Some? ==> s.wake || SignalOwed(s))
    && (s.dispatcher.Idle? ==> s.table.reqs == [])
    && (s.dispatcher.Waiting? && !s.table.closed && Next(s.table) != Some(s.dispatcher.serial) ==>
          s.wake || SignalOwed(s) || s.cancelling > 0)
  }

  ghost predicate Inv(s: Session) {
    Queued(s.table) && TokensConserved(s) && Counted(s) && StartedOnce(s) && Awake(s)
  }

  lemma InitInv()
    ensures Inv(Init())
  {
    assert BodiesOf(NEW_TABLE) == {};
    assert NonInteractiveOf([], {}) == {};
  }

  lemma BeginKeepsTokens(s: Session, step: Step)
    requires TokensConserved(s) && step.Begin? && Can(s, step)
    ensures TokensConserved(Do(s, step))
  {
    var r := step.request;
    if Admits(s, r, step.bodyReserved, step.now) {
      assert |s.table.requests[r.id := |s.table.reqs|]| == |s.table.requests| + 1;
    }
  }

  lemma CancelKeepsTokens(s: Session, step: Step)
    requires TokensConserved(s) && step.Cancel? && Can(s, step)
    ensures TokensConserved(Do(s, step))
  {
    var id := s.table.reqs[step.serial].id;
    assert s.table.requests.Keys == (s.table.requests - {id}).Keys + {id};
    assert |s.table.requests| == |(s.table.requests - {id})| + 1;
  }

  predicate OfDispatcher(step: Step) {
    || step.Select? || step.TakeWake? || step.LeaveClosed? || step.TakeNonInteractive? || step.TakeActive?
    || step.AbandonWait? || step.TryStart? || step.Release?
  }

  lemma DispatcherKeepsTokens(s: Session, step: Step)
    requires TokensConserved(s) && Can(s, step) && OfDispatcher(step)
    ensures TokensConserved(Do(s, step))
  {
    if step.Select? {
      assert Do(s, step).table.requests == s.table.requests;
    }
  }

  lemma PoolKeepsTokens(s: Session, step: Step)
    requires TokensConserved(s) && Can(s, step) && (step.OtherTakes? || step.OtherReturns?)
    ensures TokensConserved(Do(s, step))
  {
    match step.pool
    case Admission =>
    case Active =>
    case NonInteractive =>
  }

  lemma StepKeepsTokens(s: Session, step: Step)
    requires TokensConserved(s) && Can(s, step)
    ensures TokensConserved(Do(s, step))
  {
    if OfDispatcher(step) {
      DispatcherKeepsTokens(s, step);
    } else if step.OtherTakes? || step.OtherReturns? {
      PoolKeepsTokens(s, step);
    } else if step.Begin? {
      BeginKeepsTokens(s, step);
    } else if step.Cancel? {
      CancelKeepsTokens(s, step);
    }
  }

  /** A table change that makes no request newly startable gives the dispatcher nothing new to do. */
  lemma NothingNew(t: Table, t': Table)
    requires Queued(t) && Queued(t')
    requires forall s: nat :: Wanted(t', s) && Eligible(t', t'.reqs[s].priority) ==>
               Wanted(t, s) && Eligible(t, t.reqs[s].priority)
    ensures Next(t').Some? ==> Next(t).Some?
  {
    NextIsBestChoice(t, 0);
    NextIsBestChoice(t', 0);
  }

  /** Cleaning the queues does not change the choice. */
  lemma SameChoice(t: Table, t': Table)
    requires Queued(t) && Queued(t') && t' == t.(pending := t'.pending)
    ensures Next(t') == Next(t)
  {
    NextIsBestChoice(t, 0);
    NextIsBestChoice(t', 0);
  }

  lemma AdmitKeepsQueued(t: Table, r: Request)
    requires Queued(t) && r.priority < CLASSES && r.id !in t.requests
    ensures Queued(Admit(t, r))
  {
    var t', serial := Admit(t, r), |t.reqs|;
    forall p | 0 <= p < CLASSES
      ensures OfClass(t'.reqs, t'.pending[p], p) && Increasing(t'.pending[p])
    {
      assert OfClass(t.reqs, t.pending[p], p) && Increasing(t.pending[p]);
    }
    forall s: nat | Wanted(t', s)
      ensures s in t'.pending[t'.reqs[s].priority]
    {
      if s == serial {
        assert t'.pending[r.priority][|t.pending[r.priority]|] == serial;
      } else {
        assert Wanted(t, s);
        var queue := t.pending[t.reqs[s].priority];
        var i :| 0 <= i < |queue| && queue[i] == s;
        assert t'.pending[t'.reqs[s].priority][i] == s;
      }
    }
  }

  /** Shrinking the set of wanted requests leaves the queues valid. */
  lemma FewerWantedKeepsQueued(t: Table, t': Table)
    requires Queued(t) && t'.reqs == t.reqs && t'.pending == t.pending
    requires forall s: nat :: Wanted(t', s) ==> Wanted(t, s)
    ensures Queued(t')
  {
  }

  lemma PruneOneKeepsQueued(t: Table, p: nat)
    requires Queued(t) && p < CLASSES
    ensures Queued(t.(pending := t.pending[p := Prune(t, t.pending[p])]))
  {
    var queue := t.pending[p];
    var t' := t.(pending := t.pending[p := Prune(t, queue)]);
    var k := PruneKeepsWanted(t, queue);
    assert OfClass(t.reqs, queue, p) && Increasing(queue);
    assert OfClass(t.reqs, queue[k..], p) && Increasing(queue[k..]);
    forall s: nat | Wanted(t', s)
      ensures s in t'.pending[t'.reqs[s].priority]
    {
      assert Wanted(t, s);
      if t.reqs[s].priority == p {
        var i :| 0 <= i < |queue| && queue[i] == s;
        assert queue[k..][i - k] == s;
      }
    }
  }

  lemma {:induction false} ScanKeepsQueued(t: Table, p: nat)
    requires Queued(t) && p <= CLASSES
    ensures Queued(t.(pending := ScanFrom(t, p)))
    decreases CLASSES - p
  {
    if p == CLASSES {
      assert t.(pending := t.pending) == t;
    } else if !Eligible(t, p) {
      ScanKeepsQueued(t, p + 1);
    } else {
      var pruned := t.(pending := t.pending[p := Prune(t, t.pending[p])]);
      PruneOneKeepsQueued(t, p);
      if pruned.pending[p] == [] {
        ScanKeepsQueued(pruned, p + 1);
        assert t.(pending := ScanFrom(pruned, p + 1)) == pruned.(pending := ScanFrom(pruned, p + 1));
      }
    }
  }

  lemma StepKeepsQueued(s: Session, step: Step)
    requires Queued(s.table) && Can(s, step)
    ensures Queued(Do(s, step).table)
  {
    match step
    case Begin(r, bodyReserved, now) =>
      if Admits(s, r, bodyReserved, now) {
        AdmitKeepsQueued(s.table, r);
      }
    case Select => ScanKeepsQueued(s.table, 0);
    case Cancel(serial, _, _, _) => FewerWantedKeepsQueued(s.table, Remove(s.table, serial));
    case Close => FewerWantedKeepsQueued(s.table, Do(s, step).table);
    case TryStart => FewerWantedKeepsQueued(s.table, Do(s, step).table);
    case HandlerExit(_) => FewerWantedKeepsQueued(s.table, Do(s, step).table);
    case OtherTakes(_) => assert Do(s, step).table == s.table;
    case OtherReturns(_) => assert Do(s, step).table == s.table;
    case _ =>
  }

  // Counters ---------------------------------------------------------------

  lemma BeginKeepsCounted(s: Session, step: Step)
    requires Counted(s) && StartedOnce(s) && step.Begin? && Can(s, step)
    ensures Counted(Do(s, step))
  {
    var t, r := s.table, step.request;
    if Admits(s, r, step.bodyReserved, step.now) {
      AdmitCounts(t, r);
      assert NonInteractiveOf(Admit(t, r).reqs, s.running) == NonInteractiveOf(t.reqs, s.running);
    } else {
      assert Do(s, step).table == t;
    }
  }

  lemma AdmitCounts(t: Table, r: Request)
    requires |t.pending| == CLASSES && r.priority < CLASSES && r.id !in t.requests
    requires forall id :: id in t.requests ==> t.requests[id] < |t.reqs|
    ensures |Admit(t, r).requests| == |t.requests| + 1
    ensures |BodiesOf(Admit(t, r))| == |BodiesOf(t)| + if r.hasBody then 1 else 0
  {
    var t' := Admit(t, r);
    assert forall id :: id in t.requests ==> t'.reqs[t.requests[id]] == t.reqs[t.requests[id]];
    if r.hasBody {
      assert BodiesOf(t') == BodiesOf(t) + {r.id};
    } else {
      assert BodiesOf(t') == BodiesOf(t);
    }
  }

  lemma CancelKeepsCounted(s: Session, step: Step)
    requires Counted(s) && StartedOnce(s) && step.Cancel? && Can(s, step)
    ensures Counted(Do(s, step))
  {
    RemoveCounts(s.table, step.serial);
  }

  lemma RemoveCounts(t: Table, serial: nat)
    requires Live(t, serial)
    ensures |Remove(t, serial).requests| <= |t.requests|
    ensures |BodiesOf(Remove(t, serial))| == |BodiesOf(t)| - if t.reqs[serial].hasBody then 1 else 0
  {
    var t', id := Remove(t, serial), t.reqs[serial].id;
    assert t.requests.Keys == t'.requests.Keys + {id};
    if t.reqs[serial].hasBody {
      assert BodiesOf(t) == BodiesOf(t') + {id};
    } else {
      assert BodiesOf(t) == BodiesOf(t');
    }
  }

  /** One more handler moves the non-interactive count exactly when its request is non-interactive. */
  lemma NonInteractiveAdds(reqs: seq<Request>, running: set<nat>, serial: nat)
    requires serial < |reqs| && serial !in running
    ensures |NonInteractiveOf(reqs, running + {serial})|
         == |NonInteractiveOf(reqs, running)| + if reqs[serial].priority != 0 then 1 else 0
  {
    var ni, ni' := NonInteractiveOf(reqs, running), NonInteractiveOf(reqs, running + {serial});
    if reqs[serial].priority != 0 {
      assert ni' == ni + {serial};
    } else {
      assert ni' == ni;
    }
  }

  lemma StartKeepsCounted(s: Session)
    requires Counted(s) && StartedOnce(s) && Can(s, TryStart)
    ensures Counted(Do(s, TryStart))
  {
    var t, serial := s.table, s.dispatcher.serial;
    assert BodiesOf(Do(s, TryStart).table) == BodiesOf(t);
    if CanStart(t, serial) {
      NonInteractiveAdds(t.reqs, s.running, serial);
    }
  }

  lemma ExitKeepsCounted(s: Session, serial: nat)
    requires Counted(s) && StartedOnce(s) && Can(s, HandlerExit(serial))
    ensures Counted(Do(s, HandlerExit(serial)))
  {
    assert BodiesOf(Do(s, HandlerExit(serial)).table) == BodiesOf(s.table);
    NonInteractiveAdds(s.table.reqs, s.running - {serial}, serial);
    assert s.running - {serial} + {serial} == s.running;
  }

  /** Steps that leave the request table, the handlers and the counters alone. */
  predicate Quiet(step: Step) {
    !step.Begin? && !step.Cancel? && !step.Close? && !step.TryStart? && !step.HandlerExit?
  }

  lemma QuietTouchesOnlyQueues(s: Session, step: Step)
    requires Can(s, step) && Quiet(step)
    ensures Do(s, step).table == s.table.(pending := Do(s, step).table.pending)
    ensures Do(s, step).running == s.running && Do(s, step).starts == s.starts
    ensures !step.Select? ==> Do(s, step).table == s.table
  {
  }

  lemma QuietKeepsCounted(s: Session, s': Session)
    requires Counted(s)
    requires s'.table == s.table.(pending := s'.table.pending) && s'.running == s.running
    ensures Counted(s')
  {
    assert BodiesOf(s'.table) == BodiesOf(s.table);
  }

  lemma CloseKeepsCounted(s: Session)
    requires Counted(s) && Can(s, Close)
    ensures Counted(Do(s, Close))
  {
    assert BodiesOf(Do(s, Close).table) == {};
  }

  lemma StepKeepsCounted(s: Session, step: Step)
    requires Counted(s) && StartedOnce(s) && Can(s, step)
    ensures Counted(Do(s, step))
  {
    if Quiet(step) {
      QuietTouchesOnlyQueues(s, step);
      QuietKeepsCounted(s, Do(s, step));
    } else {
      match step
      case Begin(_, _, _) => BeginKeepsCounted(s, step);
      case Cancel(_, _, _, _) => CancelKeepsCounted(s, step);
      case Close => CloseKeepsCounted(s);
      case TryStart => StartKeepsCounted(s);
      case HandlerExit(serial) => ExitKeepsCounted(s, serial);
    }
  }

  // Starts and wakes ---------------------------------------------------------

  lemma BeginKeepsStartedOnce(s: Session, step: Step)
    requires StartedOnce(s) && step.Begin? && Can(s, step)
    ensures StartedOnce(Do(s, step))
  {
  }

  lemma StartKeepsStartedOnce(s: Session)
    requires StartedOnce(s) && Can(s, TryStart)
    ensures StartedOnce(Do(s, TryStart))
  {
    var serial := s.dispatcher.serial;
    if CanStart(s.table, serial) {
      assert forall x :: x in s.starts + [serial] <==> x in s.starts || x == serial;
    }
  }

  lemma SelectKeepsStartedOnce(s: Session)
    requires StartedOnce(s) && Queued(s.table) && Can(s, Select)
    ensures StartedOnce(Do(s, Select))
  {
    NextIsBestChoice(s.table, 0);
  }

  lemma StepKeepsStartedOnce(s: Session, step: Step)
    requires StartedOnce(s) && Queued(s.table) && Can(s, step)
    ensures StartedOnce(Do(s, step))
  {
    if step.Select? {
      SelectKeepsStartedOnce(s);
    } else if step.TryStart? {
      StartKeepsStartedOnce(s);
    } else if step.Begin? {
      BeginKeepsStartedOnce(s, step);
    } else if Quiet(step) {
      QuietTouchesOnlyQueues(s, step);
    }
  }

  /** A dispatcher that parks has just found nothing, and cleaning the queues does not change that. */
  lemma SelectKeepsAwake(s: Session)
    requires Queued(s.table) && Can(s, Select)
    ensures Awake(Do(s, Select))
  {
    var t := s.table;
    ScanKeepsQueued(t, 0);
    SameChoice(t, t.(pending := ScanFrom(t, 0)));
  }

  lemma CancelKeepsAwake(s: Session, step: Step)
    requires Inv(s) && step.Cancel? && Can(s, step)
    ensures Awake(Do(s, step))
  {
    FewerWantedKeepsQueued(s.table, Remove(s.table, step.serial));
    NothingNew(s.table, Remove(s.table, step.serial));
  }

  lemma QuietKeepsAwake(s: Session, step: Step)
    requires Can(s, step) && Awake(s) && Quiet(step) && !step.Select?
    ensures |Do(s, step).table.pending| == CLASSES && Awake(Do(s, step))
  {
    QuietTouchesOnlyQueues(s, step);
  }

  /** Whoever makes a request startable owes a signal. */
  lemma ChangeKeepsAwake(s: Session, step: Step)
    requires Can(s, step) && Awake(s) && (step.Begin? || step.Close? || step.TryStart? || step.HandlerExit?)
    ensures |Do(s, step).table.pending| == CLASSES && Awake(Do(s, step))
  {
  }

  lemma StepKeepsAwake(s: Session, step: Step)
    requires Inv(s) && Can(s, step)
    ensures |Do(s, step).table.pending| == CLASSES && Awake(Do(s, step))
  {
    if step.Select? {
      ScanKeepsQueued(s.table, 0);
      SelectKeepsAwake(s);
    } else if step.Cancel? {
      CancelKeepsAwake(s, step);
    } else if Quiet(step) {
      QuietKeepsAwake(s, step);
    } else {
      ChangeKeepsAwake(s, step);
    }
  }

  lemma StepKeepsInv(s: Session, step: Step)
    requires Inv(s) && Can(s, step)
    ensures Inv(Do(s, step))
  {
    StepKeepsQueued(s, step);
    StepKeepsTokens(s, step);
    StepKeepsCounted(s, step);
    StepKeepsStartedOnce(s, step);
    StepKeepsAwake(s, step);
  }

  // ---------------------------------------------------------------------------
  // Results over every run
  // ---------------------------------------------------------------------------

  predicate Linked(states: seq<Session>, steps: seq<Step>, i: nat)
    requires |states| == |steps| + 1 && i < |steps|
  {
    Can(states[i], steps[i]) && states[i + 1] == Do(states[i], steps[i])
  }

  ghost predicate IsRun(states: seq<Session>, steps: seq<Step>) {
    && |states| == |steps| + 1
    && states[0] == Init()
    && forall i :: 0 <= i < |steps| ==> Linked(states, steps, i)
  }

  lemma {:induction false} RunInv(states: seq<Session>, steps: seq<Step>, k: nat)
    requires IsRun(states, steps) && k < |states|
    ensures Inv(states[k])
    decreases k
  {
    if k == 0 {
      InitInv();
    } else {
      RunInv(states, steps, k - 1);
      assert Linked(states, steps, k - 1);
      StepKeepsInv(states[k - 1], steps[k - 1]);
    }
  }

  /** The three pools hold 131072, 32768 and 8192 tokens between them: free, with other peers, or with this one. Its
      requests, handlers, non-interactive handlers and bodies stay within 256, 16, 3 and 4, and no request starts
      twice. */
  lemma SchedulerIsSafe(states: seq<Session>, steps: seq<Step>, k: nat)
    requires IsRun(states, steps) && k < |states|
    ensures var s, d := states[k], states[k].dispatcher;
      var holds, holdsBoth := d.Holding? || d.Releasing?, (d.Waiting? || d.Holding? || d.Releasing?) && d.ni;
      var handlers, nonInteractive := |s.running|, |NonInteractiveOf(s.table.reqs, s.running)|;
      && s.admission.free + s.admission.elsewhere + |s.table.requests| + s.cancelling + s.closing == 131072
      && s.active.free + s.active.elsewhere + handlers + (if holds then 1 else 0) + s.exitPlain + s.exitBoth == 32768
      && s.nonInteractive.free + s.nonInteractive.elsewhere + nonInteractive + (if holdsBoth then 1 else 0)
         + s.exitBoth + s.exitLast == 8192
      && 0 <= s.admission.free && 0 <= s.active.free && 0 <= s.nonInteractive.free
      && |s.table.requests| <= 256 && handlers <= 16 && nonInteractive <= 3 && |BodiesOf(s.table)| <= 4
    ensures TokensConserved(states[k]) && Counted(states[k])
    ensures Distinct(states[k].starts)
  {
    RunInv(states, steps, k);
  }

  /** The class has been scanned: it was eligible, and so every class before it was, but they had nothing to offer. */
  predicate Scanned(t: Table, p: nat) {
    && |t.pending| == CLASSES && p < CLASSES && Eligible(t, p)
    && forall q :: 0 <= q < p ==> Prune(t, t.pending[q]) == []
  }

  lemma {:induction false} ScanCleans(t: Table, from: nat, p: nat)
    requires |t.pending| == CLASSES && from <= p < CLASSES && Eligible(t, p)
    requires forall q :: from <= q < p ==> Prune(t, t.pending[q]) == []
    ensures |ScanFrom(t, from)| == CLASSES && ScanFrom(t, from)[p] == Prune(t, t.pending[p])
    decreases CLASSES - from
  {
    var pruned := t.(pending := t.pending[from := Prune(t, t.pending[from])]);
    if from < p {
      forall q | from < q <= p
        ensures Prune(pruned, pruned.pending[q]) == Prune(t, t.pending[q])
      {
        PruneIgnoresPending(t, pruned, t.pending[q]);
      }
      ScanCleans(pruned, from + 1, p);
    } else if pruned.pending[from] == [] {
      ScanKeepsEarlier(pruned, from + 1, from);
    }
  }

  lemma ScannedIsClean(t: Table, p: nat)
    requires Scanned(t, p)
    ensures |ScanFrom(t, 0)| == CLASSES
    ensures var queue := ScanFrom(t, 0)[p];
      queue == Prune(t, t.pending[p]) && (queue != [] ==> Wanted(t, queue[0]))
  {
    ScanCleans(t, 0, p);
    var n := PruneKeepsWanted(t, t.pending[p]);
  }

  lemma {:induction false} PruneIgnoresPending(t: Table, t': Table, queue: seq<nat>)
    requires t' == t.(pending := t'.pending)
    ensures Prune(t', queue) == Prune(t, queue)
    decreases |queue|
  {
    if queue != [] {
      PruneIgnoresPending(t, t', queue[1..]);
    }
  }

  lemma {:induction false} ScanKeepsEarlier(t: Table, from: nat, p: nat)
    requires |t.pending| == CLASSES && p < from <= CLASSES
    ensures |ScanFrom(t, from)| == CLASSES && ScanFrom(t, from)[p] == t.pending[p]
    decreases CLASSES - from
  {
    if from < CLASSES {
      ScanKeepsEarlier(t, from + 1, p);
      ScanKeepsEarlier(t.(pending := t.pending[from := Prune(t, t.pending[from])]), from + 1, p);
    }
  }

  /** A selection is the oldest live unstarted request of the best eligible class, and none only if there is none. Every
      class that was scanned for it is rid of the stale entries in front. */
  lemma SelectionIsBest(states: seq<Session>, steps: seq<Step>, k: nat)
    requires IsRun(states, steps) && k < |states| && states[k].dispatcher.Selecting? && !states[k].table.closed
    ensures Can(states[k], Select)
    ensures var s := states[k];
            BestChoice(s.table, Next(s.table), 0)
            && Do(s, Select).dispatcher
               == match Next(s.table) case None => Parked case Some(serial) => Waiting(serial, false)
    ensures forall p: nat :: Scanned(states[k].table, p) ==>
      var queue := Do(states[k], Select).table.pending[p];
      queue == Prune(states[k].table, states[k].table.pending[p]) && (queue != [] ==> Wanted(states[k].table, queue[0]))
  {
    RunInv(states, steps, k);
    var t := states[k].table;
    NextIsBestChoice(t, 0);
    forall p: nat | Scanned(t, p)
      ensures var queue := Do(states[k], Select).table.pending[p];
        queue == Prune(t, t.pending[p]) && (queue != [] ==> Wanted(t, queue[0]))
    {
      ScannedIsClean(t, p);
    }
  }

  /** Whenever the dispatcher is parked although a request could start, a wake is pending or a thread will send one. */
  lemma NoLostDispatch(states: seq<Session>, steps: seq<Step>, k: nat, serial: nat)
    requires IsRun(states, steps) && k < |states|
    requires var s := states[k];
             s.dispatcher.Parked? && CanStart(s.table, serial)
    ensures states[k].wake || SignalOwed(states[k])
  {
    RunInv(states, steps, k);
    NextIsBestChoice(states[k].table, 0);
  }

  /** A dispatcher that waits for tokens on behalf of a request that is no longer the best choice is about to be
      interrupted, so a token wait never holds back a better request. */
  lemma StaleWaitIsInterrupted(states: seq<Session>, steps: seq<Step>, k: nat)
    requires IsRun(states, steps) && k < |states|
    requires var s := states[k];
             s.dispatcher.Waiting? && !s.table.closed && |s.table.pending| == CLASSES
             && Next(s.table) != Some(s.dispatcher.serial)
    ensures states[k].wake || SignalOwed(states[k]) || states[k].cancelling > 0
  {
    RunInv(states, steps, k);
  }
}
