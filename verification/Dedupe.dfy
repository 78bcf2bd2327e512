/** `Dedupe`: raced offers for one session share one answer.

The table of recent sessions is expired through a chronological queue with a moving head, so a join
looks at expired records only. The reference is the naive table: filter everything by age.
 */
module Dedupe {

  /** A result slot; `id` stands for the identity of the object that holds the result. */
  datatype Slot = Slot(id: nat, at: int)

  datatype Record = Record(session: string, slot: Slot)

  datatype Reply = Reply(slot: Slot, lead: bool)

  datatype Request = Request(session: string, now: int)

  /** The naive table: every slot older than the time to live is gone. */
  function Expire(seen: map<string, Slot>, now: int, ttl: nat): map<string, Slot> {
    map s | s in seen && now - seen[s].at <= ttl :: seen[s]
  }

  /** A join on a naive table that holds only live slots. */
  function Joined(live: map<string, Slot>, session: string, now: int, slots: nat): (Reply, map<string, Slot>, nat) {
    if session in live then (Reply(live[session], false), live, slots)
    else (Reply(Slot(slots, now), true), live[session := Slot(slots, now)], slots + 1)
  }

  /** The table that the unexpired records stand for. */
  function TableOf(live: seq<Record>): map<string, Slot> {
    if live == [] then map[]
    else
      var last := live[|live| - 1];
      TableOf(live[..|live| - 1])[last.session := last.slot]
  }

  /** Each record opened a session that the table did not hold. */
  predicate Once(live: seq<Record>) {
    live != [] ==>
      && Once(live[..|live| - 1])
      && live[|live| - 1].session !in TableOf(live[..|live| - 1])
  }

  /** Records are in order of time, none of them later than `now`. */
  predicate Timed(live: seq<Record>, now: int) {
    live != [] ==>
      && live[|live| - 1].slot.at <= now
      && Timed(live[..|live| - 1], live[|live| - 1].slot.at)
  }

  lemma {:induction false} TableSize(live: seq<Record>)
    requires Once(live)
    ensures |TableOf(live)| == |live|
  {
    if live != [] {
      TableSize(live[..|live| - 1]);
    }
  }

  lemma Appended(live: seq<Record>, r: Record)
    requires r.session !in TableOf(live) && Once(live) && Timed(live, r.slot.at)
    ensures TableOf(live + [r]) == TableOf(live)[r.session := r.slot]
    ensures Once(live + [r]) && Timed(live + [r], r.slot.at)
  {
    assert (live + [r])[..|live|] == live;
  }

  lemma {:induction false} FirstDropped(first: Record, rest: seq<Record>, now: int)
    requires Once([first] + rest) && Timed([first] + rest, now)
    ensures Once(rest) && Timed(rest, now) && first.session !in TableOf(rest)
    ensures TableOf([first] + rest) == TableOf(rest)[first.session := first.slot]
    decreases |rest|
  {
    var live := [first] + rest;
    if rest == [] {
      assert live[..|live| - 1] == [];
    } else {
      var shorter, last := rest[..|rest| - 1], rest[|rest| - 1];
      assert live[..|live| - 1] == [first] + shorter && live[|live| - 1] == last;
      FirstDropped(first, shorter, last.slot.at);
    }
  }

  lemma {:induction false} LaterTimed(live: seq<Record>, now: int, later: int)
    requires Timed(live, now) && now <= later
    ensures Timed(live, later)
  {
  }

  /** No slot in the table is older than the first record. */
  lemma {:induction false} FirstIsOldest(live: seq<Record>, now: int, s: string)
    requires Timed(live, now) && s in TableOf(live)
    ensures live[0].slot.at <= TableOf(live)[s].at <= now
  {
    var shorter, last := live[..|live| - 1], live[|live| - 1];
    if s == last.session {
      if shorter != [] {
        OldestFirst(shorter, last.slot.at);
      }
    } else {
      FirstIsOldest(shorter, last.slot.at, s);
    }
  }

  lemma {:induction false} OldestFirst(live: seq<Record>, now: int)
    requires Timed(live, now) && live != []
    ensures live[0].slot.at <= now
  {
    if |live| > 1 {
      OldestFirst(live[..|live| - 1], live[|live| - 1].slot.at);
    }
  }

  lemma StaleExpires(seen: map<string, Slot>, s: string, slot: Slot, now: int, ttl: nat)
    requires s !in seen && now - slot.at > ttl
    ensures Expire(seen[s := slot], now, ttl) == Expire(seen, now, ttl)
    ensures seen[s := slot] - {s} == seen
  {
  }

  /** Once the first record is live, the whole table is. */
  lemma LiveFirstMeansAllLive(live: seq<Record>, now: int, ttl: nat)
    requires Timed(live, now)
    requires live != [] ==> now - live[0].slot.at <= ttl
    ensures Expire(TableOf(live), now, ttl) == TableOf(live)
  {
    forall s | s in TableOf(live) ensures now - TableOf(live)[s].at <= ttl {
      FirstIsOldest(live, now, s);
    }
  }

  class Table {
    var seen: map<string, Slot>
    var order: seq<Record>
    var head: nat
    const ttl: nat
    /** Slots handed out so far, the identity of the next one. */
    var slots: nat

    constructor (ttl: nat)
      ensures (forall now :: Valid(now)) && seen == map[] && order == [] && slots == 0 && this.ttl == ttl
    {
      seen, order, head, slots := map[], [], 0, 0;
      this.ttl := ttl;
    }

    /** The queue from its head on is the table, in order of time, none of it later than `now`. */
    ghost predicate Valid(now: int)
      reads this
    {
      head <= |order| && seen == TableOf(order[head..]) && Once(order[head..]) && Timed(order[head..], now)
    }

    /** The slot of an expired record is always still the one in the table. */
    method DropFirst(now: int)
      requires Valid(now) && head < |order| && now - order[head].slot.at > ttl
      modifies this`seen, this`head
      ensures Valid(now) && head == old(head) + 1
      ensures Expire(seen, now, ttl) == Expire(old(seen), now, ttl)
    {
      var record := order[head];
      ghost var rest := order[head + 1..];
      assert order[head..] == [record] + rest;
      FirstDropped(record, rest, now);
      StaleExpires(TableOf(rest), record.session, record.slot, now, ttl);
      if record.session in seen && seen[record.session] == record.slot {
        seen := seen - {record.session};
      }
      head := head + 1;
    }

    method DropExpired(now: int)
      requires Valid(now)
      modifies this`seen, this`head
      ensures Valid(now) && seen == Expire(old(seen), now, ttl)
    {
      while head < |order|
        invariant Valid(now)
        invariant Expire(seen, now, ttl) == Expire(old(seen), now, ttl)
      {
        if now - order[head].slot.at <= ttl {
          break;
        }
        DropFirst(now);
      }
      LiveFirstMeansAllLive(order[head..], now, ttl);
    }

    /** Leaves the naive table, in storage bounded by twice what is live or by the batch of 1024. */
    method PruneLocked(now: int)
      requires Valid(now)
      modifies this`seen, this`order, this`head
      ensures Valid(now) && seen == Expire(old(seen), now, ttl)
      ensures |order| <= |seen| + 1023 || |order| < 2 * |seen|
    {
      DropExpired(now);
      TableSize(order[head..]);
      if head >= 1024 && head * 2 >= |order| {
        assert order[head..][0..] == order[head..];
        order := order[head..];
        head := 0;
      }
    }

    method Append(session: string, slot: Slot)
      requires Valid(slot.at) && session !in seen
      modifies this`seen, this`order
      ensures Valid(slot.at) && seen == old(seen)[session := slot]
    {
      ghost var r := Record(session, slot);
      Appended(order[head..], r);
      assert (order + [r])[head..] == order[head..] + [r];
      seen := seen[session := slot];
      order := order + [Record(session, slot)];
    }

    /** A join finds the live slot for its session, or allocates the one it must fill. */
    method Join(session: string, now: int) returns (reply: Reply)
      requires Valid(now)
      modifies this
      ensures Valid(now)
      ensures (reply, seen, slots) == Joined(Expire(old(seen), now, ttl), session, now, old(slots))
    {
      PruneLocked(now);
      if session in seen {
        return Reply(seen[session], false);
      }
      var slot := Slot(slots, now);
      slots := slots + 1;
      Append(session, slot);
      return Reply(slot, true);
    }
  }

  // ---- Whole runs ----

  predicate Timely(requests: seq<Request>) {
    forall i, j :: 0 <= i < j < |requests| ==> requests[i].now <= requests[j].now
  }

  /** Request `j` leads for the session of request `i`, no more than the time to live before it. */
  predicate Covers(requests: seq<Request>, replies: seq<Reply>, ttl: nat, j: nat, i: nat)
    requires j < |replies| <= |requests| && i < |requests|
  {
    replies[j].lead && requests[j].session == requests[i].session && requests[i].now - requests[j].now <= ttl
  }

  /** `last` names, for each session, the latest request that led for it. */
  ghost predicate Leaders(requests: seq<Request>, replies: seq<Reply>, last: map<string, nat>, ttl: nat, slots: nat) {
    && |replies| <= |requests|
    && (forall s :: s in last ==> last[s] < |replies| && replies[last[s]].lead && requests[last[s]].session == s)
    && (forall j :: 0 <= j < |replies| && replies[j].lead ==>
        && replies[j].slot.at == requests[j].now && replies[j].slot.id < slots
        && requests[j].session in last && j <= last[requests[j].session])
    && (forall j, k :: 0 <= j < k < |replies| && replies[j].lead && replies[k].lead ==>
        replies[j].slot.id != replies[k].slot.id)
    && (forall j, k :: 0 <= j < k < |replies| && replies[k].lead ==> !Covers(requests, replies, ttl, j, k))
  }

  /** A session is in the table while its latest leader is fresh, and leaves it only once stale. */
  ghost predicate Tracks(requests: seq<Request>, replies: seq<Reply>, last: map<string, nat>, ttl: nat,
                         seen: map<string, Slot>, now: int)
    requires |replies| <= |requests|
  {
    && (forall s :: s in seen ==> s in last && last[s] < |replies| && seen[s] == replies[last[s]].slot)
    && (forall s :: s in last && s !in seen ==> last[s] < |replies| && now - requests[last[s]].now > ttl)
  }

  /** Only the latest leader of a session can cover a later request. */
  lemma OnlyLatestCovers(requests: seq<Request>, replies: seq<Reply>, last: map<string, nat>, ttl: nat, slots: nat,
                         j: nat, i: nat)
    requires Timely(requests) && Leaders(requests, replies, last, ttl, slots)
    requires j < |replies| <= i < |requests| && Covers(requests, replies, ttl, j, i)
    ensures requests[i].session in last && last[requests[i].session] == j
  {
    var k := last[requests[j].session];
    assert j < k ==> !Covers(requests, replies, ttl, j, k);
  }

  /** Expiring the table by a later clock keeps track of the same leaders. */
  lemma ExpiryTracks(requests: seq<Request>, replies: seq<Reply>, last: map<string, nat>, ttl: nat, slots: nat,
                     seen: map<string, Slot>, before: int, now: int)
    requires Leaders(requests, replies, last, ttl, slots) && before <= now
    requires Tracks(requests, replies, last, ttl, seen, before)
    ensures Tracks(requests, replies, last, ttl, Expire(seen, now, ttl), now)
  {
  }

  /** The live table answers a session exactly when some leader covers the request. */
  lemma LiveExactlyWhenCovered(requests: seq<Request>, replies: seq<Reply>, last: map<string, nat>, ttl: nat,
                               slots: nat, live: map<string, Slot>)
    requires Timely(requests) && Leaders(requests, replies, last, ttl, slots) && |replies| < |requests|
    requires Tracks(requests, replies, last, ttl, live, requests[|replies|].now)
    requires forall s :: s in live ==> requests[|replies|].now - live[s].at <= ttl
    ensures var n := |replies|; var s := requests[n].session;
      && (s in live ==> Covers(requests, replies, ttl, last[s], n) && live[s] == replies[last[s]].slot)
      && (s !in live ==> forall j :: 0 <= j < n ==> !Covers(requests, replies, ttl, j, n))
  {
    var n := |replies|;
    forall j | 0 <= j < n && Covers(requests, replies, ttl, j, n) ensures requests[n].session in live {
      OnlyLatestCovers(requests, replies, last, ttl, slots, j, n);
    }
  }

  /** A request led exactly when no earlier leader covers it, and shares the slot of one that does. */
  ghost predicate Correct(requests: seq<Request>, replies: seq<Reply>, ttl: nat)
    requires |replies| <= |requests|
  {
    && (forall i :: 0 <= i < |replies| && !replies[i].lead ==>
        exists j :: 0 <= j < i && Covers(requests, replies, ttl, j, i))
    && (forall j, i :: 0 <= j < i < |replies| && Covers(requests, replies, ttl, j, i) ==>
        !replies[i].lead && replies[i].slot == replies[j].slot)
    && (forall j, k :: 0 <= j < k < |replies| && replies[j].lead && replies[k].lead ==>
        replies[j].slot.id != replies[k].slot.id)
  }

  lemma FollowerStep(requests: seq<Request>, replies: seq<Reply>, last: map<string, nat>, ttl: nat, slots: nat,
                     slot: Slot)
    requires Timely(requests) && Leaders(requests, replies, last, ttl, slots) && |replies| < |requests|
    requires Correct(requests, replies, ttl)
    requires requests[|replies|].session in last && slot == replies[last[requests[|replies|].session]].slot
    requires Covers(requests, replies, ttl, last[requests[|replies|].session], |replies|)
    ensures Leaders(requests, replies + [Reply(slot, false)], last, ttl, slots)
    ensures Correct(requests, replies + [Reply(slot, false)], ttl)
  {
    var n := |replies|;
    var after := replies + [Reply(slot, false)];
    assert Covers(requests, after, ttl, last[requests[n].session], n);
    forall j, k | 0 <= j < k < |after| && after[k].lead ensures !Covers(requests, after, ttl, j, k) {
      assert !Covers(requests, replies, ttl, j, k);
    }
    forall i | 0 <= i < n && !after[i].lead ensures exists j :: 0 <= j < i && Covers(requests, after, ttl, j, i) {
      var j :| 0 <= j < i && Covers(requests, replies, ttl, j, i);
      assert Covers(requests, after, ttl, j, i);
    }
    forall j, i | 0 <= j < i < |after| && Covers(requests, after, ttl, j, i)
      ensures !after[i].lead && after[i].slot == after[j].slot
    {
      assert Covers(requests, replies, ttl, j, i);
      if i == n {
        OnlyLatestCovers(requests, replies, last, ttl, slots, j, n);
      }
    }
  }

  function AfterLeading(requests: seq<Request>, replies: seq<Reply>, slots: nat): seq<Reply>
    requires |replies| < |requests|
  {
    replies + [Reply(Slot(slots, requests[|replies|].now), true)]
  }

  lemma NewLeader(requests: seq<Request>, replies: seq<Reply>, last: map<string, nat>, ttl: nat, slots: nat)
    requires Leaders(requests, replies, last, ttl, slots) && |replies| < |requests|
    requires forall j :: 0 <= j < |replies| ==> !Covers(requests, replies, ttl, j, |replies|)
    ensures Leaders(requests, AfterLeading(requests, replies, slots),
                    last[requests[|replies|].session := |replies|], ttl, slots + 1)
  {
    var after := AfterLeading(requests, replies, slots);
    forall j, k | 0 <= j < k < |after| && after[k].lead ensures !Covers(requests, after, ttl, j, k) {
      assert !Covers(requests, replies, ttl, j, k);
    }
  }

  lemma LeadingIsCorrect(requests: seq<Request>, replies: seq<Reply>, last: map<string, nat>, ttl: nat, slots: nat)
    requires Leaders(requests, replies, last, ttl, slots) && |replies| < |requests|
    requires Correct(requests, replies, ttl)
    requires forall j :: 0 <= j < |replies| ==> !Covers(requests, replies, ttl, j, |replies|)
    ensures Correct(requests, AfterLeading(requests, replies, slots), ttl)
  {
    var n, after := |replies|, AfterLeading(requests, replies, slots);
    forall i | 0 <= i < n && !after[i].lead ensures exists j :: 0 <= j < i && Covers(requests, after, ttl, j, i) {
      var j :| 0 <= j < i && Covers(requests, replies, ttl, j, i);
      assert Covers(requests, after, ttl, j, i);
    }
    forall j, i | 0 <= j < i < |after| && Covers(requests, after, ttl, j, i)
      ensures !after[i].lead && after[i].slot == after[j].slot
    {
      assert Covers(requests, replies, ttl, j, i);
    }
  }

  ghost predicate Inv(requests: seq<Request>, replies: seq<Reply>, last: map<string, nat>, ttl: nat,
                      seen: map<string, Slot>, slots: nat, clock: int)
  {
    && Leaders(requests, replies, last, ttl, slots)
    && Correct(requests, replies, ttl)
    && Tracks(requests, replies, last, ttl, seen, clock)
  }

  /** One join on the naive table keeps the history correct. */
  lemma JoinKeepsInv(requests: seq<Request>, replies: seq<Reply>, last: map<string, nat>, ttl: nat,
                     seen: map<string, Slot>, slots: nat, clock: int) returns (after: map<string, nat>)
    requires Timely(requests) && Inv(requests, replies, last, ttl, seen, slots, clock)
    requires |replies| < |requests| && clock <= requests[|replies|].now
    ensures var r := requests[|replies|];
      var joined := Joined(Expire(seen, r.now, ttl), r.session, r.now, slots);
      Inv(requests, replies + [joined.0], after, ttl, joined.1, joined.2, r.now)
  {
    var n := |replies|;
    var r := requests[n];
    var live := Expire(seen, r.now, ttl);
    var joined := Joined(live, r.session, r.now, slots);
    ExpiryTracks(requests, replies, last, ttl, slots, seen, clock, r.now);
    LiveExactlyWhenCovered(requests, replies, last, ttl, slots, live);
    if r.session in live {
      after := last;
      FollowerStep(requests, replies, last, ttl, slots, joined.0.slot);
    } else {
      after := last[r.session := n];
      NewLeader(requests, replies, last, ttl, slots);
      LeadingIsCorrect(requests, replies, last, ttl, slots);
    }
    StepTracks(requests, replies, last, ttl, live, r.now, joined.0, joined.1, after);
  }

  lemma StepTracks(requests: seq<Request>, replies: seq<Reply>, last: map<string, nat>, ttl: nat,
                   live: map<string, Slot>, now: int, reply: Reply, seen: map<string, Slot>, after: map<string, nat>)
    requires |replies| < |requests| && Tracks(requests, replies, last, ttl, live, now)
    requires var s := requests[|replies|].session;
      || (seen == live && after == last)
      || (seen == live[s := reply.slot] && after == last[s := |replies|])
    ensures Tracks(requests, replies + [reply], after, ttl, seen, now)
  {
  }

  /** Any run of joins under a clock that never goes back. */
  method RunJoins(requests: seq<Request>, ttl: nat) returns (replies: seq<Reply>)
    requires Timely(requests)
    ensures |replies| == |requests| && Correct(requests, replies, ttl)
  {
    var table := new Table(ttl);
    replies := [];
    ghost var last: map<string, nat> := map[];
    ghost var clock := if requests == [] then 0 else requests[0].now;
    for n := 0 to |requests|
      invariant fresh(table) && table.ttl == ttl && |replies| == n
      invariant n < |requests| ==> clock <= requests[n].now && table.Valid(requests[n].now)
      invariant Inv(requests, replies, last, ttl, table.seen, table.slots, clock)
    {
      last := JoinKeepsInv(requests, replies, last, ttl, table.seen, table.slots, clock);
      var reply := table.Join(requests[n].session, requests[n].now);
      replies := replies + [reply];
      clock := requests[n].now;
      if n + 1 < |requests| {
        LaterTimed(table.order[table.head..], clock, requests[n + 1].now);
      }
    }
  }
}
