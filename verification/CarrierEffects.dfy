/** What each event does to the carrier election, whatever happened before it.

`Carrier` proves what always holds between events. Here every event is pinned down on the fields a page or a fetch can
see: who holds the port, which requests failed, which fetches wait, and whether a wake of every page is under way.
 */
module CarrierEffects {
  import opened Options
  import opened Carrier

  /** The run with one more event. */
  lemma PlayOne(events: seq<Event>, e: Event)
    ensures Play(events + [e]) == Next(Play(events), e)
  {
    assert (events + [e])[..|events|] == events;
  }

  // ---------------------------------------------------------------------------
  // Wake epochs are never reused
  // ---------------------------------------------------------------------------

  /** No earlier moment of the run, nor the present one, had this epoch. */
  ghost predicate NewEpoch(events: seq<Event>, epoch: nat) {
    forall k :: 0 <= k <= |events| ==> Play(events[..k]).epoch != Some(epoch)
  }

  predicate EpochsBelow(b: Bridge) { b.epoch.Some? ==> b.epoch.value < b.nextEpoch }

  lemma AttachKeepsEpochs(b: Bridge, port: nat, owner: Option<nat>)
    ensures EpochsBelow(Attached(b, port, owner)) || Attached(b, port, owner) == b
    ensures b.nextEpoch <= Attached(b, port, owner).nextEpoch
  {
  }

  lemma WaiterKeepsEpochs(b: Bridge, waiter: nat)
    requires EpochsBelow(b)
    ensures EpochsBelow(WaiterFailed(b, waiter)) && b.nextEpoch <= WaiterFailed(b, waiter).nextEpoch
  {
  }

  lemma ReceiveKeepsEpochs(b: Bridge, from: nat, message: Message)
    requires EpochsBelow(b)
    ensures EpochsBelow(Received(b, from, message)) && b.nextEpoch <= Received(b, from, message).nextEpoch
  {
  }

  lemma DetachKeepsEpochs(b: Bridge)
    ensures EpochsBelow(Detached(b)) && b.nextEpoch <= Detached(b).nextEpoch
  {
  }

  lemma NextKeepsEpochs(b: Bridge, e: Event)
    requires EpochsBelow(b)
    ensures EpochsBelow(Next(b, e)) && b.nextEpoch <= Next(b, e).nextEpoch
  {
    match e
    case Attach(port, owner) => AttachKeepsEpochs(b, port, owner);
    case Receive(from, message) => ReceiveKeepsEpochs(b, from, message);
    case WaiterFails(waiter) => WaiterKeepsEpochs(b, waiter);
    case ReadyTimeout(_) => DetachKeepsEpochs(b);
    case OwnerGone(_) => DetachKeepsEpochs(b);
    case _ =>
  }

  lemma {:induction false} PlayEpochs(events: seq<Event>, k: nat)
    requires k <= |events|
    ensures EpochsBelow(Play(events)) && Play(events[..k]).nextEpoch <= Play(events).nextEpoch
    decreases |events|
  {
    if k == |events| {
      assert events[..k] == events;
    }
    if events != [] {
      var most := events[..|events| - 1];
      PlayEpochs(most, if k < |events| then k else 0);
      NextKeepsEpochs(Play(most), events[|events| - 1]);
      if k < |events| {
        assert most[..k] == events[..k];
      }
    }
  }

  lemma NextEpochIsNew(events: seq<Event>)
    ensures NewEpoch(events, Play(events).nextEpoch)
  {
    forall k | 0 <= k <= |events|
      ensures Play(events[..k]).epoch != Some(Play(events).nextEpoch)
    {
      PlayEpochs(events, k);
      PlayEpochs(events[..k], k);
    }
  }

  // ---------------------------------------------------------------------------
  // Losing the port
  // ---------------------------------------------------------------------------

  /** The requests and fetches of `b` as `b'` leaves them: `lost` fails, every fetch waits on. */
  predicate Loses(b: Bridge, b': Bridge, lost: set<nat>) {
    && b'.pending == b.pending - lost
    && b'.failed == b.failed + lost && b'.finished == b.finished
    && b'.waiters == b.waiters && b'.resolved == b.resolved && b'.rejected == b.rejected
  }

  /** No port, no timer, every request failed, the same fetches waiting, and a new wake exactly if there are any. */
  ghost predicate Severed(events: seq<Event>, b': Bridge) {
    var b := Play(events);
    && b'.port.None? && !b'.ready && b'.owner.None? && b'.timer.None? && b'.portOwners == b.portOwners
    && Loses(b, b', b.pending.Keys)
    && (b'.epoch.Some? <==> b.waiters != [])
    && (b'.epoch.Some? ==> NewEpoch(events, b'.epoch.value))
  }

  lemma DetachSevers(events: seq<Event>)
    ensures Severed(events, Detached(Play(events)))
  {
    NextEpochIsNew(events);
  }

  /** The guard timer of a port that is attached and unready severs it; any other firing does nothing. */
  lemma TimeoutSeversExactlyWhen(events: seq<Event>, port: nat)
    ensures var b, b' := Play(events), Play(events + [ReadyTimeout(port)]);
      if b.port == Some(port) && !b.ready then Severed(events, b') else b' == b
  {
    PlayOne(events, ReadyTimeout(port));
    DetachSevers(events);
  }

  /** A page found to be gone severs its own port and no other. */
  lemma OwnerGoneSeversExactlyWhen(events: seq<Event>, port: nat)
    ensures var b, b' := Play(events), Play(events + [OwnerGone(port)]);
      if b.port == Some(port) then Severed(events, b') else b' == b
  {
    PlayOne(events, OwnerGone(port));
    DetachSevers(events);
  }

  /** So does a page that says it is going down. */
  lemma DownSeversExactlyWhen(events: seq<Event>, port: nat)
    ensures var b, b' := Play(events), Play(events + [Receive(port, Down)]);
      if b.port == Some(port) then Severed(events, b') else b' == b
  {
    PlayOne(events, Receive(port, Down));
    DetachSevers(events);
  }

  /** A wake that fails rejects every fetch that waits for it; the failure of an earlier wake does nothing. */
  lemma EpochFailureRejectsEveryone(events: seq<Event>, epoch: nat)
    ensures var b, b' := Play(events), Play(events + [EpochFails(epoch)]);
      if b.epoch == Some(epoch)
      then
        && b.port.None? && b' == b.(epoch := None, waiters := [], rejected := b'.rejected)
        && (forall w :: w in b'.rejected <==> w in b.rejected || w in b.waiters)
      else b' == b
  {
    PlayOne(events, EpochFails(epoch));
    PlayInv(events);
  }

  // ---------------------------------------------------------------------------
  // Gaining a port
  // ---------------------------------------------------------------------------

  /** The requests whose page stays the same, identified one and has answered. */
  function Kept(b: Bridge, owner: Option<nat>): set<nat> {
    set id | id in b.pending && b.pending[id] && b.owner.Some? && owner.Some?
  }

  /** The port is installed unready under its timer, and `lost` fails. */
  predicate Installs(b: Bridge, b': Bridge, port: nat, owner: Option<nat>, lost: set<nat>) {
    && b'.port == Some(port) && !b'.ready && b'.owner == owner && b'.timer == Some(port) && b'.epoch.None?
    && b'.portOwners == b.portOwners[port := owner]
    && Loses(b, b', lost)
  }

  lemma ReplacingInstalls(b: Bridge, port: nat, owner: Option<nat>)
    ensures Installs(b, Installed(Detached(b), port, owner), port, owner, b.pending.Keys)
  {
  }

  lemma RefreshingInstalls(b: Bridge, port: nat, owner: Option<nat>)
    ensures Installs(b, Installed(Failing(b, Heard(b.pending)), port, owner), port, owner,
                     b.pending.Keys - Heard(b.pending).Keys)
  {
  }

  lemma KeptIsHeard(b: Bridge, owner: Option<nat>)
    ensures Kept(b, owner) == if b.owner.Some? && owner.Some? then Heard(b.pending).Keys else {}
  {
  }

  /** A new port is installed unready under its timer, unless another identified page holds the carrier. A request
      survives exactly when both ports are of identified pages and its head has arrived. */
  lemma AttachInstallsExactlyWhen(events: seq<Event>, port: nat, owner: Option<nat>)
    ensures var b, b' := Play(events), Play(events + [Attach(port, owner)]);
      if b.port.Some? && b.owner.Some? && owner.Some? && b.owner != owner
      then b' == b
      else Installs(b, b', port, owner, b.pending.Keys - Kept(b, owner))
  {
    PlayOne(events, Attach(port, owner));
    PlayInv(events);
    var b := Play(events);
    KeptIsHeard(b, owner);
    if b.port.Some? && !(b.owner.Some? && owner.Some?) {
      ReplacingInstalls(b, port, owner);
      assert b.pending.Keys - Kept(b, owner) == b.pending.Keys;
    } else {
      RefreshingInstalls(b, port, owner);
      assert b.pending.Keys - Kept(b, owner) == b.pending.Keys - Heard(b.pending).Keys;
    }
  }

  /** The port's page completes the handshake: the timer and the wake end and every fetch gets the port. A second
      `Ready`, or one from another port, does nothing. */
  lemma ReadyServesExactlyWhen(events: seq<Event>, port: nat)
    ensures var b, b' := Play(events), Play(events + [Receive(port, Ready)]);
      if b.port == Some(port) && !b.ready
      then
        && b' == b.(ready := true, timer := None, epoch := None, waiters := [], resolved := b'.resolved)
        && (forall w :: w in b'.resolved <==> w in b.resolved || w in b.waiters)
        && (forall w :: w in b.waiters ==> b'.resolved[w] == port)
      else b' == b
  {
    PlayOne(events, Receive(port, Ready));
    PlayInv(events);
  }

  // ---------------------------------------------------------------------------
  // Fetches
  // ---------------------------------------------------------------------------

  /** A fetch gets a ready port at once. Otherwise it waits last in line; with no port a wake is then under way, the
      one there was or a new one. */
  lemma AcquireServesOrWaits(events: seq<Event>)
    ensures var b, b', w := Play(events), Play(events + [Acquire]), Fetches(events);
      if b.ready
      then b.port.Some? && b' == b.(nextWaiter := w + 1, resolved := b.resolved[w := b.port.value])
      else
        && b' == b.(nextWaiter := w + 1, waiters := b.waiters + [w], epoch := b'.epoch, nextEpoch := b'.nextEpoch)
        && (b.port.Some? ==> b'.epoch == b.epoch)
        && (b.port.None? ==> b'.epoch.Some? && (b.epoch.Some? ==> b'.epoch == b.epoch))
        && (b.port.None? && b.epoch.None? ==> NewEpoch(events, b'.epoch.value))
  {
    PlayOne(events, Acquire);
    PlayInv(events);
    PlayCounts(events);
    NextEpochIsNew(events);
  }

  lemma {:induction false} WithoutDrops(line: seq<nat>, at: nat)
    requires Distinct(line) && at < |line|
    ensures Without(line, line[at]) == line[..at] + line[at + 1..]
    decreases |line|
  {
    var rest := line[1..];
    if at == 0 {
      WithoutAbsent(rest, line[0]);
    } else {
      WithoutDrops(rest, at - 1);
      assert line[..at] == [line[0]] + rest[..at - 1] && line[at + 1..] == rest[at..];
    }
  }

  lemma {:induction false} WithoutAbsent(line: seq<nat>, x: nat)
    requires x !in line
    ensures Without(line, x) == line
    decreases |line|
  {
    if line != [] {
      WithoutAbsent(line[1..], x);
    }
  }

  lemma WaiterFailedLeaves(b: Bridge, waiter: nat)
    requires waiter in b.waiters
    ensures var b' := WaiterFailed(b, waiter);
      b'.rejected == b.rejected + {waiter} && b'.resolved == b.resolved && b'.waiters == Without(b.waiters, waiter)
  {
  }

  /** A fetch that gives up leaves the line and is rejected; the others keep their order. */
  lemma GivingUpLeavesTheLine(events: seq<Event>, at: nat)
    requires at < |Play(events).waiters|
    ensures var b, b' := Play(events), Play(events + [WaiterFails(Play(events).waiters[at])]);
      && b'.waiters == b.waiters[..at] + b.waiters[at + 1..]
      && b'.rejected == b.rejected + {b.waiters[at]} && b'.resolved == b.resolved
  {
    var b := Play(events);
    PlayOne(events, WaiterFails(b.waiters[at]));
    PlayInv(events);
    WithoutDrops(b.waiters, at);
    WaiterFailedLeaves(b, b.waiters[at]);
  }

  /** A fetch that does not wait has nothing to give up. */
  lemma SettledFetchCannotLeave(events: seq<Event>, waiter: nat)
    requires waiter !in Play(events).waiters
    ensures Play(events + [WaiterFails(waiter)]) == Play(events)
  {
    PlayOne(events, WaiterFails(waiter));
  }

  lemma WaiterFailedAbandons(b: Bridge, waiter: nat)
    requires Attended(b) && waiter in b.waiters
    ensures var b' := WaiterFailed(b, waiter);
      if b'.waiters == []
      then
        && b'.port.None? && b'.owner.None? && b'.timer.None? && b'.epoch.None? && b'.pending == map[]
        && b'.failed == b.failed + b.pending.Keys && b'.finished == b.finished
      else b' == b.(waiters := b'.waiters, rejected := b'.rejected)
  {
  }

  /** The last fetch to leave abandons an unfinished handshake, with the requests on its port, or the wake. Nobody
      else's leaving touches either. */
  lemma LastToLeaveAbandons(events: seq<Event>, waiter: nat)
    requires waiter in Play(events).waiters
    ensures var b, b' := Play(events), Play(events + [WaiterFails(waiter)]);
      if b'.waiters == []
      then
        && b'.port.None? && b'.owner.None? && b'.timer.None? && b'.epoch.None? && b'.pending == map[]
        && b'.failed == b.failed + b.pending.Keys && b'.finished == b.finished
      else b' == b.(waiters := b'.waiters, rejected := b'.rejected)
  {
    PlayOne(events, WaiterFails(waiter));
    PlayInv(events);
    WaiterFailedAbandons(Play(events), waiter);
  }

  // ---------------------------------------------------------------------------
  // Requests
  // ---------------------------------------------------------------------------

  /** A request is posted on the current port exactly when that is the port it acquired, or one of the same identified
      page; otherwise it fails at once. */
  lemma RequestIsPostedExactlyWhen(events: seq<Event>, port: nat)
    ensures var b, b', id := Play(events), Play(events + [Open(port)]), Posts(events) + 1;
      if b.port.Some? && (b.port.value == port
                          || (exists page :: Registered(b, port, page) && Registered(b, b.port.value, page)))
      then b' == b.(nextId := id + 1, pending := b.pending[id := false])
      else b' == b.(nextId := id + 1, failed := b.failed + {id})
  {
    PlayOne(events, Open(port));
    PlayCounts(events);
    var b := Play(events);
    if b.port.Some? && Carries(b.portOwners, port, b.port.value) && b.port.value != port {
      assert Registered(b, port, b.portOwners[port].value);
    }
  }

  /** The port was attached by this page. */
  predicate Registered(b: Bridge, port: nat, page: nat) {
    port in b.portOwners && b.portOwners[port] == Some(page)
  }

  /** An abort fails a pending request, alone and for good, whatever comes after it; it does nothing to one that has
      ended. */
  lemma AbortIsFinal(events: seq<Event>, id: nat, later: seq<Event>)
    ensures var b, b' := Play(events), Play(events + [Abort(id)]);
      b' == if id in b.pending then b.(pending := b.pending - {id}, failed := b.failed + {id}) else b
    ensures id in Play(events).pending ==>
      var b := Play(events + [Abort(id)] + later);
      id in b.failed && id !in b.finished && id !in b.pending
  {
    PlayOne(events, Abort(id));
    RunUpholds(events + [Abort(id)], later);
    PlayInv(events + [Abort(id)] + later);
  }

  /** An answer of the current port moves its own pending request; from any other port it does nothing. */
  lemma AnswerCountsExactlyWhen(events: seq<Event>, port: nat, message: Message)
    requires !message.Down? && !message.Ready?
    ensures var b, b', id := Play(events), Play(events + [Receive(port, message)]), message.id;
      if b.port == Some(port) && id in b.pending
      then
        && b'.pending == (if message.Head? then b.pending[id := true] else b.pending - {id})
        && b'.finished == (if message.Finish? then b.finished + {id} else b.finished)
        && b'.failed == (if message.Fault? then b.failed + {id} else b.failed)
        && b' == b.(pending := b'.pending, finished := b'.finished, failed := b'.failed)
      else b' == b
  {
    PlayOne(events, Receive(port, message));
  }
}
