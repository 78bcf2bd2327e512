/** The service worker's election of a carrier page: `SwBridge` without its streams.

Fetches wait for a ready port. A port is ready only after its page says so; until then a timer
guards the handshake, and with no port at all one shared wake epoch asks every page to attach.
Each event handler is one step; any order of events is a run.
 */
module Carrier {
  import opened Options

  /** A page's message on a port. Body chunks do not touch this state. */
  datatype Message = Down | Ready | Head(id: nat) | Finish(id: nat) | Fault(id: nat)

  datatype Event =
    | Attach(port: nat, owner: Option<nat>)
    | Receive(port: nat, message: Message)
    | ReadyTimeout(port: nat)
    | OwnerGone(port: nat)
    | Acquire
    | WaiterFails(waiter: nat)
    | EpochFails(epoch: nat)
    | Open(port: nat)
    | Abort(id: nat)

  /** `pending` tells of each unsettled request whether its response head has arrived. The last four fields are
      history: how each request and each waiter ended. */
  datatype Bridge = Bridge(
    port: Option<nat>,
    ready: bool,
    owner: Option<nat>,
    portOwners: map<nat, Option<nat>>,
    timer: Option<nat>,
    epoch: Option<nat>,
    nextEpoch: nat,
    pending: map<nat, bool>,
    nextId: nat,
    waiters: seq<nat>,
    nextWaiter: nat,
    failed: set<nat>,
    finished: set<nat>,
    resolved: map<nat, nat>,
    rejected: set<nat>)

  const IDLE := Bridge(None, false, None, map[], None, None, 0, map[], 1, [], 0, {}, {}, map[], {})

  // ---------------------------------------------------------------------------
  // The handlers
  // ---------------------------------------------------------------------------

  function Elements(s: seq<nat>): set<nat> {
    set x | x in s
  }

  function Without(s: seq<nat>, x: nat): seq<nat> {
    if s == [] then [] else (if s[0] == x then [] else [s[0]]) + Without(s[1..], x)
  }

  /** The requests whose response head has arrived: their page state survives a port refresh. */
  function Heard(pending: map<nat, bool>): map<nat, bool> {
    map i | i in pending && pending[i] :: true
  }

  lemma HeardIsTheRest(pending: map<nat, bool>, preHead: set<nat>)
    requires preHead <= pending.Keys && forall i :: i in pending ==> (i in preHead <==> !pending[i])
    ensures pending - preHead == Heard(pending) && pending.Keys - Heard(pending).Keys == preHead
  {
  }

  /** `ensureWakeEpoch`. */
  function Awakened(b: Bridge): Bridge {
    if b.epoch.Some? || b.port.Some? || b.waiters == [] then b
    else b.(epoch := Some(b.nextEpoch), nextEpoch := b.nextEpoch + 1)
  }

  /** Every pending request that is not kept fails. */
  function Failing(b: Bridge, kept: map<nat, bool>): Bridge {
    b.(pending := kept, failed := b.failed + (b.pending.Keys - kept.Keys))
  }

  function Detached(b: Bridge): Bridge {
    Awakened(Failing(b, map[]).(port := None, ready := false, owner := None, timer := None, epoch := None))
  }

  /** Another identified page holds the carrier. */
  predicate OnStandby(b: Bridge, owner: Option<nat>) {
    b.port.Some? && b.owner.Some? && owner.Some? && b.owner != owner
  }

  function Installed(b: Bridge, port: nat, owner: Option<nat>): Bridge {
    b.(port := Some(port), ready := false, epoch := None, owner := owner, timer := Some(port),
       portOwners := b.portOwners[port := owner])
  }

  function Attached(b: Bridge, port: nat, owner: Option<nat>): Bridge {
    if OnStandby(b, owner) then b
    else if b.port.Some? && !(b.owner.Some? && owner.Some?) then Installed(Detached(b), port, owner)
    else Installed(Failing(b, Heard(b.pending)), port, owner)
  }

  function Readied(b: Bridge): Bridge {
    if b.ready || b.port.None? then b
    else
      b.(ready := true, timer := None, epoch := None, waiters := [],
         resolved := b.resolved + map w | w in Elements(b.waiters) :: b.port.value)
  }

  function Replied(b: Bridge, message: Message): Bridge
    requires !message.Down? && !message.Ready?
  {
    if message.id !in b.pending then b
    else
      match message
      case Head(id) => b.(pending := b.pending[id := true])
      case Finish(id) => b.(pending := b.pending - {id}, finished := b.finished + {id})
      case Fault(id) => b.(pending := b.pending - {id}, failed := b.failed + {id})
  }

  /** A message counts only when it comes from the current port. */
  function Received(b: Bridge, from: nat, message: Message): Bridge {
    if b.port != Some(from) then b
    else
      match message
      case Down => Detached(b)
      case Ready => Readied(b)
      case _ => Replied(b, message)
  }

  /** The guard timer of a port; a late firing for a replaced or ready port does nothing. */
  function TimedOut(b: Bridge, port: nat): Bridge {
    if b.port != Some(port) || b.ready then b else Detached(b)
  }

  /** `clients.get` found no page behind the port it was asked about. */
  function Vanished(b: Bridge, port: nat): Bridge {
    if b.port == Some(port) then Detached(b) else b
  }

  /** The synchronous part of `acquire`: a ready port at once, otherwise a waiter at the back of the line. */
  function Acquired(b: Bridge): Bridge {
    var asked := b.(nextWaiter := b.nextWaiter + 1);
    if b.port.Some? && b.ready then asked.(resolved := b.resolved[b.nextWaiter := b.port.value])
    else Awakened(asked.(waiters := b.waiters + [b.nextWaiter]))
  }

  /** A waiter times out or is aborted. The last one to leave abandons an unfinished handshake or wake epoch. */
  function WaiterFailed(b: Bridge, waiter: nat): Bridge {
    if waiter !in b.waiters then b
    else
      var left := b.(waiters := Without(b.waiters, waiter), rejected := b.rejected + {waiter});
      if left.waiters != [] || b.ready then left
      else if b.port.Some? then Detached(left) else left.(epoch := None)
  }

  /** `matchAll` failed for the current epoch: every waiter is rejected. */
  function EpochFailed(b: Bridge, epoch: nat): Bridge {
    if b.epoch != Some(epoch) then b
    else b.(epoch := None, waiters := [], rejected := b.rejected + Elements(b.waiters))
  }

  /** A port may stand in for an earlier one of the same, identified page. */
  predicate Carries(portOwners: map<nat, Option<nat>>, original: nat, current: nat) {
    || original == current
    || (original in portOwners && portOwners[original].Some?
        && current in portOwners && portOwners[original] == portOwners[current])
  }

  /** `request` posts on the port it acquired; another page's port cannot carry it. */
  function Posted(b: Bridge, port: nat): Bridge {
    var asked := b.(nextId := b.nextId + 1);
    if b.port.Some? && Carries(b.portOwners, port, b.port.value) then
      asked.(pending := b.pending[b.nextId := false])
    else asked.(failed := b.failed + {b.nextId})
  }

  function Dropped(b: Bridge, id: nat): Bridge {
    if id in b.pending then b.(pending := b.pending - {id}, failed := b.failed + {id}) else b
  }

  function Next(b: Bridge, e: Event): Bridge {
    match e
    case Attach(port, owner) => Attached(b, port, owner)
    case Receive(from, message) => Received(b, from, message)
    case ReadyTimeout(port) => TimedOut(b, port)
    case OwnerGone(port) => Vanished(b, port)
    case Acquire => Acquired(b)
    case WaiterFails(waiter) => WaiterFailed(b, waiter)
    case EpochFails(epoch) => EpochFailed(b, epoch)
    case Open(port) => Posted(b, port)
    case Abort(id) => Dropped(b, id)
  }

  function Play(events: seq<Event>): Bridge {
    if events == [] then IDLE else Next(Play(events[..|events| - 1]), events[|events| - 1])
  }

  // ---------------------------------------------------------------------------
  // The invariant
  // ---------------------------------------------------------------------------

  /** No fetch is stranded: a waiter means a handshake under its timer, or no port and an active wake epoch. */
  predicate Attended(b: Bridge) {
    && (b.port.Some? && !b.ready <==> b.timer.Some?)
    && (b.timer.Some? ==> b.timer == b.port)
    && (b.epoch.Some? <==> b.port.None? && b.waiters != [])
    && (b.ready ==> b.port.Some? && b.waiters == [])
    && (b.port.None? ==> b.owner.None? && b.pending == map[])
  }

  /** Every request so far, numbered from one, is pending or has ended in exactly one way. */
  ghost predicate Requests(pending: set<nat>, failed: set<nat>, finished: set<nat>, next: nat) {
    && 1 <= next && (forall i: nat :: 1 <= i < next <==> i in pending || i in failed || i in finished)
    && pending !! failed !! finished
  }

  predicate Distinct(s: seq<nat>) {
    forall i, j :: 0 <= i < j < |s| ==> s[i] != s[j]
  }

  /** Every fetch so far is waiting or has ended in exactly one way. */
  ghost predicate Fetched(waiting: set<nat>, resolved: set<nat>, rejected: set<nat>, next: nat) {
    && (forall w: nat :: w < next <==> w in waiting || w in resolved || w in rejected)
    && waiting !! resolved !! rejected
  }

  ghost predicate Accounted(b: Bridge) {
    && Requests(b.pending.Keys, b.failed, b.finished, b.nextId)
    && Distinct(b.waiters)
    && Fetched(Elements(b.waiters), b.resolved.Keys, b.rejected, b.nextWaiter)
  }

  ghost predicate Inv(b: Bridge) {
    Attended(b) && Accounted(b)
  }

  lemma {:induction false} WithoutRemoves(s: seq<nat>, x: nat)
    requires Distinct(s)
    ensures Distinct(Without(s, x)) && Elements(Without(s, x)) == Elements(s) - {x}
    decreases |s|
  {
    if s != [] {
      WithoutRemoves(s[1..], x);
      assert Elements(s) == {s[0]} + Elements(s[1..]);
      assert s[0] !in Elements(s[1..]);
      var head, tail := if s[0] == x then [] else [s[0]], Without(s[1..], x);
      assert Elements(head + tail) == Elements(head) + Elements(tail);
      assert forall i :: 0 <= i < |tail| ==> tail[i] in Elements(tail);
    }
  }

  lemma FailingKeepsAccounted(b: Bridge, kept: map<nat, bool>)
    requires Accounted(b) && kept.Keys <= b.pending.Keys
    ensures Accounted(Failing(b, kept))
  {
    assert b.pending.Keys == kept.Keys + (b.pending.Keys - kept.Keys);
  }

  lemma DetachedInv(b: Bridge)
    requires Accounted(b)
    ensures Inv(Detached(b))
  {
    FailingKeepsAccounted(b, map[]);
  }

  lemma InstalledInv(b: Bridge, port: nat, owner: Option<nat>)
    requires Accounted(b)
    ensures Inv(Installed(b, port, owner))
  {
  }

  lemma AttachedInv(b: Bridge, port: nat, owner: Option<nat>)
    requires Inv(b)
    ensures Inv(Attached(b, port, owner))
  {
    if OnStandby(b, owner) {
    } else if b.port.Some? && !(b.owner.Some? && owner.Some?) {
      DetachedInv(b);
      InstalledInv(Detached(b), port, owner);
    } else {
      FailingKeepsAccounted(b, Heard(b.pending));
      InstalledInv(Failing(b, Heard(b.pending)), port, owner);
    }
  }

  lemma ReadiedInv(b: Bridge)
    requires Inv(b)
    ensures Inv(Readied(b))
  {
    var more := map w | w in Elements(b.waiters) :: if b.port.Some? then b.port.value else 0;
    assert (b.resolved + more).Keys == b.resolved.Keys + Elements(b.waiters);
    assert Elements([]) == {};
  }

  lemma RepliedInv(b: Bridge, message: Message)
    requires Inv(b) && b.port.Some? && !message.Down? && !message.Ready?
    ensures Inv(Replied(b, message))
  {
    if message.id in b.pending {
      assert b.pending[message.id := true].Keys == b.pending.Keys;
    }
  }

  lemma ReceivedInv(b: Bridge, from: nat, message: Message)
    requires Inv(b)
    ensures Inv(Received(b, from, message))
  {
    if b.port == Some(from) {
      match message
      case Down => DetachedInv(b);
      case Ready => ReadiedInv(b);
      case _ => RepliedInv(b, message);
    }
  }

  lemma AcquiredInv(b: Bridge)
    requires Inv(b)
    ensures Inv(Acquired(b))
  {
    assert Elements(b.waiters + [b.nextWaiter]) == Elements(b.waiters) + {b.nextWaiter};
    assert forall i :: 0 <= i < |b.waiters| ==> b.waiters[i] in Elements(b.waiters);
  }

  lemma WaiterFailedInv(b: Bridge, waiter: nat)
    requires Inv(b)
    ensures Inv(WaiterFailed(b, waiter))
  {
    if waiter in b.waiters {
      WithoutRemoves(b.waiters, waiter);
      var left := b.(waiters := Without(b.waiters, waiter), rejected := b.rejected + {waiter});
      assert waiter in Elements(b.waiters);
      LeftAccounted(b, left, waiter);
      if left.waiters == [] && !b.ready && b.port.Some? {
        DetachedInv(left);
      }
    }
  }

  lemma LeftAccounted(b: Bridge, left: Bridge, waiter: nat)
    requires Accounted(b) && waiter in Elements(b.waiters)
    requires left == b.(waiters := left.waiters, rejected := b.rejected + {waiter})
    requires Distinct(left.waiters) && Elements(left.waiters) == Elements(b.waiters) - {waiter}
    ensures Accounted(left)
  {
  }

  lemma EpochFailedInv(b: Bridge, epoch: nat)
    requires Inv(b)
    ensures Inv(EpochFailed(b, epoch))
  {
    assert Elements([]) == {};
  }

  lemma NextKeepsInv(b: Bridge, e: Event)
    requires Inv(b)
    ensures Inv(Next(b, e))
  {
    match e
    case Attach(port, owner) => AttachedInv(b, port, owner);
    case Receive(from, message) => ReceivedInv(b, from, message);
    case ReadyTimeout(_) => DetachedInv(b);
    case OwnerGone(_) => DetachedInv(b);
    case Acquire => AcquiredInv(b);
    case WaiterFails(waiter) => WaiterFailedInv(b, waiter);
    case EpochFails(epoch) => EpochFailedInv(b, epoch);
    case Open(port) => PostedInv(b, port);
    case Abort(id) => DroppedInv(b, id);
  }

  lemma PostedInv(b: Bridge, port: nat)
    requires Inv(b)
    ensures Inv(Posted(b, port))
  {
    OneMoreRequest(b.pending.Keys, b.failed, b.finished, b.nextId);
    if b.port.Some? && Carries(b.portOwners, port, b.port.value) {
      var pending := b.pending[b.nextId := false];
      assert pending.Keys == b.pending.Keys + {b.nextId};
      assert Accounted(b.(nextId := b.nextId + 1, pending := pending));
    } else {
      assert Accounted(b.(nextId := b.nextId + 1, failed := b.failed + {b.nextId}));
    }
  }

  lemma OneMoreRequest(pending: set<nat>, failed: set<nat>, finished: set<nat>, next: nat)
    requires Requests(pending, failed, finished, next)
    ensures Requests(pending + {next}, failed, finished, next + 1)
    ensures Requests(pending, failed + {next}, finished, next + 1)
  {
  }

  lemma DroppedInv(b: Bridge, id: nat)
    requires Inv(b)
    ensures Inv(Dropped(b, id))
  {
  }

  lemma {:induction false} PlayInv(events: seq<Event>)
    ensures Inv(Play(events))
    decreases |events|
  {
    if events == [] {
      assert Elements([]) == {};
    } else {
      PlayInv(events[..|events| - 1]);
      NextKeepsInv(Play(events[..|events| - 1]), events[|events| - 1]);
    }
  }

  // ---------------------------------------------------------------------------
  // Results over every run
  // ---------------------------------------------------------------------------

  /** Fetches that asked for a port, and requests posted. */
  function Fetches(events: seq<Event>): nat {
    if events == [] then 0
    else Fetches(events[..|events| - 1]) + if events[|events| - 1].Acquire? then 1 else 0
  }

  function Posts(events: seq<Event>): nat {
    if events == [] then 0
    else Posts(events[..|events| - 1]) + if events[|events| - 1].Open? then 1 else 0
  }

  /** A waiter is always being attended to: a handshake under its own timer, or a wake of every page. */
  lemma NoFetchIsStranded(events: seq<Event>)
    ensures var b := Play(events);
            && (b.waiters != [] ==> (b.port.Some? && !b.ready && b.timer == b.port) || (b.port.None? && b.epoch.Some?))
            && (b.epoch.Some? ==> b.port.None? && b.waiters != [])
  {
    PlayInv(events);
  }

  predicate SameCounts(b: Bridge, b': Bridge) {
    b'.nextWaiter == b.nextWaiter && b'.nextId == b.nextId
  }

  lemma AttachedCounts(b: Bridge, port: nat, owner: Option<nat>)
    ensures SameCounts(b, Attached(b, port, owner))
  {
  }

  lemma ReceivedCounts(b: Bridge, from: nat, message: Message)
    ensures SameCounts(b, Received(b, from, message))
  {
  }

  lemma WaiterFailedCounts(b: Bridge, waiter: nat)
    ensures SameCounts(b, WaiterFailed(b, waiter))
  {
  }

  lemma NextCounts(b: Bridge, e: Event)
    ensures Next(b, e).nextWaiter == b.nextWaiter + if e.Acquire? then 1 else 0
    ensures Next(b, e).nextId == b.nextId + if e.Open? then 1 else 0
  {
    match e
    case Attach(port, owner) => AttachedCounts(b, port, owner);
    case Receive(from, message) => ReceivedCounts(b, from, message);
    case WaiterFails(waiter) => WaiterFailedCounts(b, waiter);
    case _ =>
  }

  /** Of all fetches each waits, was given a port or was rejected, and of all requests each is pending, failed or
      finished: exactly one of the three. */
  lemma {:induction false} EveryFetchIsAccounted(events: seq<Event>)
    ensures var b := Play(events);
            && Fetched(Elements(b.waiters), b.resolved.Keys, b.rejected, Fetches(events))
            && Requests(b.pending.Keys, b.failed, b.finished, Posts(events) + 1)
  {
    PlayInv(events);
    PlayCounts(events);
  }

  lemma {:induction false} PlayCounts(events: seq<Event>)
    ensures Play(events).nextWaiter == Fetches(events) && Play(events).nextId == Posts(events) + 1
    decreases |events|
  {
    if events != [] {
      PlayCounts(events[..|events| - 1]);
      NextCounts(Play(events[..|events| - 1]), events[|events| - 1]);
    }
  }

  /** A handshake ends every wait with the port that completed it. */
  lemma ReadyResolvesEveryone(events: seq<Event>, port: nat, w: nat)
    requires Play(events).port == Some(port) && w in Play(events).waiters
    ensures var b := Next(Play(events), Receive(port, Ready));
            b.waiters == [] && w in b.resolved && b.resolved[w] == port
  {
    PlayInv(events);
    assert w in Elements(Play(events).waiters);
  }

  /** A request that loses its port fails with it, unless the same page takes over and has already answered. */
  lemma LosingThePortFailsRequests(events: seq<Event>, e: Event, id: nat)
    requires id in Play(events).pending && Next(Play(events), e).port != Play(events).port
    ensures var b, b' := Play(events), Next(Play(events), e);
            || id in b'.failed
            || (id in b'.pending && b.pending[id] && e.Attach? && e.owner.Some? && e.owner == b.owner)
  {
    PlayInv(events);
    var b := Play(events);
    match e
    case Attach(port, owner) => AttachFailsOrKeeps(b, port, owner, id);
    case Receive(from, message) => assert message.Down?;
    case _ =>
  }

  lemma AttachFailsOrKeeps(b: Bridge, port: nat, owner: Option<nat>, id: nat)
    requires Inv(b) && id in b.pending && !OnStandby(b, owner)
    ensures var b' := Attached(b, port, owner);
            id in b'.failed || (id in b'.pending && b.pending[id] && owner.Some? && owner == b.owner)
  {
  }

  /** Nothing resolved is taken back or changed. */
  predicate Extends(a: map<nat, nat>, b: map<nat, nat>) {
    forall w :: w in a ==> w in b && b[w] == a[w]
  }

  ghost predicate Upholds(b: Bridge, b': Bridge) {
    && b.failed <= b'.failed && b.finished <= b'.finished
    && b.rejected <= b'.rejected && Extends(b.resolved, b'.resolved)
  }

  /** What has ended stays as it ended. */
  lemma EndedStaysEnded(b: Bridge, e: Event)
    requires Inv(b)
    ensures Upholds(b, Next(b, e))
  {
    match e
    case Attach(port, owner) => AttachedUpholds(b, port, owner);
    case Receive(from, message) => ReceivedUpholds(b, from, message);
    case WaiterFails(waiter) => WaiterFailedUpholds(b, waiter);
    case _ =>
  }

  lemma AttachedUpholds(b: Bridge, port: nat, owner: Option<nat>)
    ensures Upholds(b, Attached(b, port, owner))
  {
  }

  lemma ReceivedUpholds(b: Bridge, from: nat, message: Message)
    requires Inv(b)
    ensures Upholds(b, Received(b, from, message))
  {
  }

  lemma WaiterFailedUpholds(b: Bridge, waiter: nat)
    ensures Upholds(b, WaiterFailed(b, waiter))
  {
  }

  lemma {:induction false} RunUpholds(before: seq<Event>, after: seq<Event>)
    ensures Upholds(Play(before), Play(before + after))
    decreases |after|
  {
    if after == [] {
      assert before + after == before;
    } else {
      var most := after[..|after| - 1];
      RunUpholds(before, most);
      assert (before + after)[..|before + after| - 1] == before + most;
      PlayInv(before + most);
      EndedStaysEnded(Play(before + most), after[|after| - 1]);
    }
  }

  // ---------------------------------------------------------------------------
  // The object
  // ---------------------------------------------------------------------------

  class SwBridge {
    var port: Option<nat>
    var portReady: bool
    var owner: Option<nat>
    var portOwners: map<nat, Option<nat>>
    var readyTimer: Option<nat>
    var wakeEpoch: Option<nat>
    var nextEpoch: nat
    var pending: map<nat, bool>
    var nextId: nat
    var waiters: seq<nat>
    var nextWaiter: nat
    var failed: set<nat>
    var finished: set<nat>
    var resolved: map<nat, nat>
    var rejected: set<nat>

    constructor ()
      ensures View() == IDLE
    {
      port, portReady, owner, portOwners := None, false, None, map[];
      readyTimer, wakeEpoch, nextEpoch := None, None, 0;
      pending, nextId := map[], 1;
      waiters, nextWaiter := [], 0;
      failed, finished, resolved, rejected := {}, {}, map[], {};
    }

    ghost function View(): Bridge
      reads this
    {
      Bridge(port, portReady, owner, portOwners, readyTimer, wakeEpoch, nextEpoch, pending, nextId, waiters, nextWaiter,
             failed, finished, resolved, rejected)
    }

    method EnsureWakeEpoch()
      modifies this
      ensures View() == Awakened(old(View()))
    {
      if wakeEpoch.Some? || port.Some? || |waiters| == 0 {
        return;
      }
      wakeEpoch := Some(nextEpoch);
      nextEpoch := nextEpoch + 1;
    }

    method Detach()
      modifies this
      ensures View() == Detached(old(View()))
    {
      FailPending(map[]);
      Disconnect();
      EnsureWakeEpoch();
    }

    method FailPending(kept: map<nat, bool>)
      modifies this`pending, this`failed
      ensures View() == Failing(old(View()), kept)
    {
      failed := failed + (pending.Keys - kept.Keys);
      pending := kept;
    }

    method Disconnect()
      modifies this`port, this`portReady, this`owner, this`readyTimer, this`wakeEpoch
      ensures View() == old(View()).(port := None, ready := false, owner := None, timer := None, epoch := None)
    {
      port, portReady, owner := None, false, None;
      readyTimer, wakeEpoch := None, None;
    }

    method Install(newPort: nat, newOwner: Option<nat>)
      modifies this`port, this`portReady, this`owner, this`readyTimer, this`wakeEpoch, this`portOwners
      ensures View() == Installed(old(View()), newPort, newOwner)
    {
      port, portReady, wakeEpoch, owner := Some(newPort), false, None, newOwner;
      portOwners := portOwners[newPort := newOwner];
      readyTimer := Some(newPort);
    }

    method AttachPort(newPort: nat, newOwner: Option<nat>)
      modifies this
      ensures View() == Attached(old(View()), newPort, newOwner)
    {
      if port.Some? && owner.Some? && newOwner.Some? && owner != newOwner {
        return;
      }
      var canContinueInflight := port.Some? && owner.Some? && newOwner.Some? && owner == newOwner;
      if port.Some? && !canContinueInflight {
        Detach();
      } else {
        DropHeadless();
      }
      Install(newPort, newOwner);
    }

    /** The loop over `pending` that picks the requests without a head. */
    static method Headless(pending: map<nat, bool>) returns (preHead: set<nat>)
      ensures preHead <= pending.Keys && forall i :: i in pending ==> (i in preHead <==> !pending[i])
    {
      var unseen := pending.Keys;
      preHead := {};
      while unseen != {}
        invariant unseen <= pending.Keys && preHead <= pending.Keys - unseen
        invariant forall i :: i in pending && i !in unseen ==> (i in preHead <==> !pending[i])
        decreases |unseen|
      {
        var id :| id in unseen;
        unseen := unseen - {id};
        if !pending[id] {
          preHead := preHead + {id};
        }
      }
    }

    /** Only requests with a head are kept. */
    method DropHeadless()
      modifies this`pending, this`failed
      ensures View() == Failing(old(View()), Heard(old(pending)))
    {
      var preHead := Headless(pending);
      HeardIsTheRest(pending, preHead);
      pending, failed := pending - preHead, failed + preHead;
    }

    method OnReady()
      modifies this
      ensures View() == Readied(old(View()))
    {
      if portReady || port.None? {
        return;
      }
      portReady, readyTimer := true, None;
      resolved := resolved + map w | w in Elements(waiters) :: port.value;
      waiters, wakeEpoch := [], None;
    }

    method OnMessage(from: nat, message: Message)
      modifies this
      ensures View() == Received(old(View()), from, message)
    {
      if port != Some(from) {
        return;
      }
      match message
      case Down => Detach();
      case Ready => OnReady();
      case Head(id) =>
        if id in pending {
          pending := pending[id := true];
        }
      case Finish(id) =>
        if id in pending {
          pending, finished := pending - {id}, finished + {id};
        }
      case Fault(id) =>
        if id in pending {
          pending, failed := pending - {id}, failed + {id};
        }
    }

    method OnReadyTimeout(forPort: nat)
      modifies this
      ensures View() == TimedOut(old(View()), forPort)
      ensures old(port == Some(forPort) && !portReady) ==>
                port.None? && readyTimer.None? && pending == map[] && failed == old(failed + pending.Keys)
                && waiters == old(waiters) && (wakeEpoch.Some? <==> waiters != [])
      ensures !old(port == Some(forPort) && !portReady) ==> View() == old(View())
    {
      if port != Some(forPort) || portReady {
        return;
      }
      Detach();
    }

    method OnOwnerGone(forPort: nat)
      modifies this
      ensures View() == Vanished(old(View()), forPort)
      ensures old(port) == Some(forPort) ==>
                port.None? && readyTimer.None? && pending == map[] && failed == old(failed + pending.Keys)
                && waiters == old(waiters) && (wakeEpoch.Some? <==> waiters != [])
      ensures old(port) != Some(forPort) ==> View() == old(View())
    {
      if port == Some(forPort) {
        Detach();
      }
    }

    method AcquirePort() returns (waiter: nat)
      modifies this
      ensures waiter == old(nextWaiter) && View() == Acquired(old(View()))
    {
      waiter := nextWaiter;
      nextWaiter := nextWaiter + 1;
      if port.Some? && portReady {
        resolved := resolved[waiter := port.value];
        return;
      }
      waiters := waiters + [waiter];
      EnsureWakeEpoch();
    }

    method FailWaiter(waiter: nat)
      modifies this
      ensures View() == WaiterFailed(old(View()), waiter)
    {
      if waiter !in waiters {
        return;
      }
      waiters := Without(waiters, waiter);
      rejected := rejected + {waiter};
      if |waiters| == 0 && !portReady {
        if port.Some? {
          Detach();
        } else {
          wakeEpoch := None;
        }
      }
    }

    method OnEpochFails(epoch: nat)
      modifies this
      ensures View() == EpochFailed(old(View()), epoch)
      ensures old(wakeEpoch) == Some(epoch) ==> waiters == [] && wakeEpoch.None?
      ensures old(wakeEpoch) == Some(epoch) ==> forall w :: w in old(waiters) ==> w in rejected
      ensures old(wakeEpoch) != Some(epoch) ==> View() == old(View())
    {
      if wakeEpoch != Some(epoch) {
        return;
      }
      rejected := rejected + Elements(waiters);
      waiters, wakeEpoch := [], None;
    }

    method OpenRequest(viaPort: nat) returns (id: nat)
      modifies this
      ensures id == old(nextId) && View() == Posted(old(View()), viaPort)
    {
      id := nextId;
      nextId := nextId + 1;
      if port.Some? && Carries(portOwners, viaPort, port.value) {
        pending := pending[id := false];
      } else {
        failed := failed + {id};
      }
    }

    method AbortRequest(id: nat)
      modifies this
      ensures View() == Dropped(old(View()), id)
    {
      if id in pending {
        pending, failed := pending - {id}, failed + {id};
      }
    }

    method Handle(event: Event)
      modifies this
      ensures View() == Next(old(View()), event)
    {
      match event
      case Attach(newPort, newOwner) => AttachPort(newPort, newOwner);
      case Receive(from, message) => OnMessage(from, message);
      case ReadyTimeout(forPort) => OnReadyTimeout(forPort);
      case OwnerGone(forPort) => OnOwnerGone(forPort);
      case Acquire => var _ := AcquirePort();
      case WaiterFails(waiter) => FailWaiter(waiter);
      case EpochFails(epoch) => OnEpochFails(epoch);
      case Open(viaPort) => var _ := OpenRequest(viaPort);
      case Abort(id) => AbortRequest(id);
    }
  }
}
