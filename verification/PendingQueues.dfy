/** `nextPendingLocked` as the session runs it: four queues, cleaned in place while they are scanned. */
module PendingQueues {
  import opened Options
  import opened Scheduler

  /** Later classes are scanned the same whatever the earlier queues hold. */
  lemma {:induction false} NextIgnoresEarlierQueues(t: Table, t': Table, p: nat)
    requires |t.pending| == |t'.pending| == CLASSES && p <= CLASSES
    requires t' == t.(pending := t'.pending)
    requires forall q :: p <= q < CLASSES ==> t'.pending[q] == t.pending[q]
    ensures NextFrom(t', p) == NextFrom(t, p)
    decreases CLASSES - p
  {
    if p < CLASSES {
      PruneIgnoresPending(t, t', t.pending[p]);
      NextIgnoresEarlierQueues(t, t', p + 1);
    }
  }

  class PeerSession {
    const reqs: seq<Request>
    var requests: map<nat, nat>
    var started: set<nat>
    var pending: seq<seq<nat>>
    var activeHandlers: int
    var activeNonInteractive: int

    constructor (t: Table)
      ensures reqs == t.reqs && requests == t.requests && started == t.started && pending == t.pending
      ensures activeHandlers == t.activeHandlers && activeNonInteractive == t.activeNonInteractive
    {
      reqs, requests, started, pending := t.reqs, t.requests, t.started, t.pending;
      activeHandlers, activeNonInteractive := t.activeHandlers, t.activeNonInteractive;
    }

    ghost function View(): Table
      reads this
    {
      Table(reqs, requests, started, pending, activeHandlers, activeNonInteractive, 0, false)
    }

    /** Steps past requests that have started or are gone. */
    method SkipUnwanted(from: seq<nat>) returns (queue: seq<nat>)
      requires forall i :: 0 <= i < |from| ==> from[i] < |reqs|
      ensures queue == Prune(View(), from)
    {
      queue := from;
      while |queue| != 0
        invariant Prune(View(), queue) == Prune(View(), from)
        invariant forall i :: 0 <= i < |queue| ==> queue[i] < |reqs|
      {
        var state := queue[0];
        if state in started || reqs[state].id !in requests || requests[reqs[state].id] != state {
          queue := queue[1..];
        } else {
          return;
        }
      }
    }

    method NextPendingLocked() returns (choice: Option<nat>)
      requires |pending| == CLASSES
      requires forall p :: 0 <= p < CLASSES ==> forall i :: 0 <= i < |pending[p]| ==> pending[p][i] < |reqs|
      modifies this`pending
      ensures choice == Next(old(View()))
      ensures pending == ScanFrom(old(View()), 0)
    {
      var priority := 0;
      while priority < CLASSES
        invariant 0 <= priority <= CLASSES && |pending| == CLASSES
        invariant forall p :: priority <= p < CLASSES ==> pending[p] == old(pending)[p]
        invariant NextFrom(View(), priority) == Next(old(View()))
        invariant ScanFrom(View(), priority) == ScanFrom(old(View()), 0)
      {
        if activeHandlers < MAX_ACTIVE && (priority == 0 || activeNonInteractive < MAX_ACTIVE_NON_INTERACTIVE) {
          ghost var before := View();
          var queue := SkipUnwanted(pending[priority]);
          pending := pending[priority := queue];
          if |queue| != 0 {
            return Some(queue[0]);
          }
          NextIgnoresEarlierQueues(before, View(), priority + 1);
        }
        priority := priority + 1;
      }
      return None;
    }
  }
}
