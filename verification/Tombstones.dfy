/** `rejectedBodies`: the bounded table of removed uploads whose last frames are still on the lane. */
module Tombstones {
  import opened Limits

  const MAX_TOMBSTONES: nat := 256

  /** Times are nanoseconds after the zero time, which no tombstone carries. */
  datatype Tombstone = Tombstone(lane: nat, remaining: nat, expires: nat)

  /** The tombstones a full scan at `now` keeps. */
  function Unexpired(table: map<nat, Tombstone>, now: nat): map<nat, Tombstone> {
    map id | id in table && now < table[id].expires :: table[id]
  }

  predicate SoonestToExpire(table: map<nat, Tombstone>, id: nat) {
    id in table && forall other :: other in table ==> table[id].expires <= table[other].expires
  }

  /** What the locked sections do. `evicted` is the victim of a full table, of which there may be a choice. A request
      that begins only prunes. */
  datatype Step =
    | Remembers(id: nat, lane: nat, now: nat, evicted: set<nat>)
    | Discards(id: nat, lane: nat, end: bool, now: nat)
    | Prunes(now: nat)

  predicate Can(table: map<nat, Tombstone>, step: Step) {
    match step
    case Remembers(_, _, now, evicted) =>
      var live := Unexpired(table, now);
      && (|live| < MAX_TOMBSTONES <==> evicted == {})
      && |evicted| <= 1 && forall victim :: victim in evicted ==> SoonestToExpire(live, victim)
    case Discards(_, _, _, _) => true
    case Prunes(_) => true
  }

  /** A late frame is absorbed exactly while an unexpired tombstone of its lane has one left; an end always. */
  predicate Absorbs(table: map<nat, Tombstone>, id: nat, lane: nat, end: bool, now: nat) {
    var live := Unexpired(table, now);
    id in live && live[id].lane == lane && (end || live[id].remaining > 0)
  }

  function Do(table: map<nat, Tombstone>, step: Step, lifetime: nat): map<nat, Tombstone> {
    match step
    case Remembers(id, lane, now, evicted) =>
      (Unexpired(table, now) - evicted)[id := Tombstone(lane, TRAILING_FRAMES, now + lifetime)]
    case Discards(id, lane, end, now) =>
      var live := Unexpired(table, now);
      if !Absorbs(table, id, lane, end, now) then live
      else if end then live - {id}
      else live[id := live[id].(remaining := live[id].remaining - 1)]
    case Prunes(now) => Unexpired(table, now)
  }

  /** The scan visits the table in any order; a zero time stands for no candidate yet. */
  method Oldest(table: map<nat, Tombstone>) returns (oldestId: nat)
    requires table != map[]
    requires forall id :: id in table ==> table[id].expires > 0
    ensures SoonestToExpire(table, oldestId)
  {
    oldestId := 0;
    var oldest := 0;
    var unseen := table.Keys;
    while unseen != {}
      invariant unseen <= table.Keys
      invariant oldest == 0 <==> unseen == table.Keys
      invariant oldest != 0 ==> oldestId in table && table[oldestId].expires == oldest
      invariant oldest != 0 ==> forall id :: id in table && id !in unseen ==> oldest <= table[id].expires
      decreases |unseen|
    {
      var candidateId :| candidateId in unseen;
      unseen := unseen - {candidateId};
      if oldest == 0 || table[candidateId].expires < oldest {
        oldestId, oldest := candidateId, table[candidateId].expires;
      }
    }
  }

  class RejectedBodies {
    var table: map<nat, Tombstone>
    const lifetime: nat

    constructor (lifetime: nat)
      requires lifetime > 0
      ensures Valid() && table == map[] && this.lifetime == lifetime
    {
      table := map[];
      this.lifetime := lifetime;
    }

    ghost predicate Valid()
      reads this
    {
      && lifetime > 0
      && |table| <= MAX_TOMBSTONES
      && forall id :: id in table ==> table[id].expires > 0 && table[id].remaining <= TRAILING_FRAMES
    }

    method PruneLocked(now: nat)
      requires Valid()
      modifies this
      ensures Valid() && table == Unexpired(old(table), now)
    {
      var unseen := table.Keys;
      while unseen != {}
        invariant Valid() && unseen <= table.Keys
        invariant Unexpired(table, now) == Unexpired(old(table), now)
        invariant forall id :: id in table && id !in unseen ==> now < table[id].expires
        decreases |unseen|
      {
        var id :| id in unseen;
        unseen := unseen - {id};
        if now >= table[id].expires {
          table := table - {id};
        }
      }
    }

    /** The new tombstone is in, and only a full table loses one: the soonest to expire. */
    method RememberLocked(id: nat, lane: nat, now: nat) returns (evicted: set<nat>)
      requires Valid()
      modifies this
      ensures Valid() && Can(old(table), Remembers(id, lane, now, evicted))
      ensures table == Do(old(table), Remembers(id, lane, now, evicted), lifetime)
    {
      PruneLocked(now);
      evicted := {};
      if |table| >= MAX_TOMBSTONES {
        var oldestId := Oldest(table);
        evicted := {oldestId};
        table := table - {oldestId};
      }
      table := table[id := Tombstone(lane, TRAILING_FRAMES, now + lifetime)];
    }

    method Discard(id: nat, lane: nat, end: bool, now: nat) returns (absorbed: bool)
      requires Valid()
      modifies this
      ensures Valid() && absorbed == Absorbs(old(table), id, lane, end, now)
      ensures Can(old(table), Discards(id, lane, end, now))
      ensures table == Do(old(table), Discards(id, lane, end, now), lifetime)
    {
      PruneLocked(now);
      if id !in table || table[id].lane != lane {
        return false;
      }
      if end {
        table := table - {id};
        return true;
      }
      if table[id].remaining == 0 {
        return false;
      }
      table := table[id := table[id].(remaining := table[id].remaining - 1)];
      return true;
    }
  }

  /** Other tombstones that expire no sooner than `expires`. */
  function Later(table: map<nat, Tombstone>, id: nat, expires: nat): set<nat> {
    set other | other in table && other != id && table[other].expires >= expires
  }

  lemma SubsetSize(small: set<nat>, large: set<nat>)
    requires small <= large
    ensures |small| <= |large|
  {
    assert large == small + (large - small);
  }

  /** Being evicted from a full table takes 255 others that expire no sooner. */
  lemma EvictionNeedsLater(live: map<nat, Tombstone>, id: nat)
    requires |live| >= MAX_TOMBSTONES && SoonestToExpire(live, id)
    ensures |Later(live, id, live[id].expires)| >= MAX_TOMBSTONES - 1
  {
    SubsetSize(live.Keys - {id}, Later(live, id, live[id].expires));
  }

  /** Remembering another upload leaves at most one more tombstone that expires as late. */
  lemma OneMoreLater(before: map<nat, Tombstone>, now: nat, evicted: set<nat>, other: nat, t: Tombstone,
                     id: nat, expires: nat)
    ensures var live := Unexpired(before, now);
      |Later((live - evicted)[other := t], id, expires)| <= |Later(before, id, expires)| + 1
    ensures |Later(Unexpired(before, now), id, expires)| <= |Later(before, id, expires)|
  {
    var live := Unexpired(before, now);
    SubsetSize(Later(live, id, expires), Later(before, id, expires));
    SubsetSize(Later((live - evicted)[other := t], id, expires), Later(before, id, expires) + {other});
  }

  /** Remembering another upload keeps a tombstone that too few others outlast. */
  lemma KeptByRemembering(before: map<nat, Tombstone>, step: Step, lifetime: nat, id: nat)
    requires step.Remembers? && Can(before, step) && step.id != id
    requires id in before && step.now < before[id].expires
    requires |Later(before, id, before[id].expires)| < MAX_TOMBSTONES - 1
    ensures var after := Do(before, step, lifetime);
      && id in after && after[id] == before[id]
      && |Later(after, id, before[id].expires)| <= |Later(before, id, before[id].expires)| + 1
  {
    OneMoreLater(before, step.now, step.evicted, step.id, Do(before, step, lifetime)[step.id],
                 id, before[id].expires);
    if id in step.evicted {
      EvictionNeedsLater(Unexpired(before, step.now), id);
      assert false;
    }
  }

  /** A late frame of its own costs a tombstone one; any other frame costs it nothing. */
  lemma KeptByDiscarding(before: map<nat, Tombstone>, step: Step, lifetime: nat, id: nat)
    requires !step.Remembers? && id in before && step.now < before[id].expires
    requires !(step.Discards? && step.id == id && step.lane == before[id].lane && step.end)
    ensures var after := Do(before, step, lifetime);
      var own := step.Discards? && step.id == id && step.lane == before[id].lane;
      && id in after
      && after[id] == before[id].(remaining := if own && before[id].remaining > 0
                                               then before[id].remaining - 1 else before[id].remaining)
      && |Later(after, id, before[id].expires)| <= |Later(before, id, before[id].expires)|
  {
    SubsetSize(Later(Do(before, step, lifetime), id, before[id].expires), Later(before, id, before[id].expires));
  }

  // ---- Whole runs ----

  ghost predicate IsRun(tables: seq<map<nat, Tombstone>>, steps: seq<Step>, lifetime: nat) {
    && |tables| == |steps| + 1
    && tables[0] == map[]
    && forall i :: 0 <= i < |steps| ==> Linked(tables, steps, lifetime, i)
  }

  ghost predicate Linked(tables: seq<map<nat, Tombstone>>, steps: seq<Step>, lifetime: nat, i: nat)
    requires i < |steps| < |tables|
  {
    Can(tables[i], steps[i]) && tables[i + 1] == Do(tables[i], steps[i], lifetime)
  }

  lemma StepKeepsBound(table: map<nat, Tombstone>, step: Step, lifetime: nat)
    requires |table| <= MAX_TOMBSTONES && Can(table, step)
    ensures |Do(table, step, lifetime)| <= MAX_TOMBSTONES
  {
    var live := Unexpired(table, step.now);
    SubsetSize(live.Keys, table.Keys);
    match step
    case Remembers(id, _, _, evicted) =>
      SubsetSize((live - evicted).Keys, live.Keys);
      if |live| >= MAX_TOMBSTONES {
        var victim :| victim in evicted;
        assert (live - evicted).Keys <= live.Keys - {victim};
        SubsetSize((live - evicted).Keys, live.Keys - {victim});
      }
      assert Do(table, step, lifetime).Keys == (live - evicted).Keys + {id};
    case _ =>
      SubsetSize(Do(table, step, lifetime).Keys, live.Keys);
  }

  /** The table never exceeds its bound. */
  lemma {:induction false} TableStaysBounded(tables: seq<map<nat, Tombstone>>, steps: seq<Step>, lifetime: nat, k: nat)
    requires IsRun(tables, steps, lifetime) && k < |tables|
    ensures |tables[k]| <= MAX_TOMBSTONES
    decreases k
  {
    if k > 0 {
      TableStaysBounded(tables, steps, lifetime, k - 1);
      assert Linked(tables, steps, lifetime, k - 1);
      StepKeepsBound(tables[k - 1], steps[k - 1], lifetime);
    }
  }

  /** Remembering an upload loses no unexpired tombstone while there are fewer than 256 of them, and otherwise exactly
      one, with none that expires sooner; only its own entry is new. */
  lemma RememberingLosesAtMostOne(tables: seq<map<nat, Tombstone>>, steps: seq<Step>, lifetime: nat, k: nat)
    requires IsRun(tables, steps, lifetime) && k < |steps| && steps[k].Remembers?
    ensures var before, after, step := tables[k], tables[k + 1], steps[k];
      var lost := set id | id in before && step.now < before[id].expires && (id !in after || id in step.evicted);
      && |lost| == (if |Unexpired(before, step.now)| < 256 then 0 else 1)
      && (forall id, other :: id in lost && other in Unexpired(before, step.now) ==>
            before[id].expires <= before[other].expires)
      && (forall id :: id in after && id != step.id ==> id in before && after[id] == before[id])
      && step.id in after
  {
    var before, after, step := tables[k], tables[k + 1], steps[k];
    assert Linked(tables, steps, lifetime, k);
    TableStaysBounded(tables, steps, lifetime, k);
    var lost := set id | id in before && step.now < before[id].expires && (id !in after || id in step.evicted);
    assert lost == step.evicted;
  }

  /** Other uploads removed, and late frames of this one, among the steps from `i` to `j`. */
  function Removals(steps: seq<Step>, i: nat, j: nat): nat
    requires i <= j <= |steps|
    decreases j
  {
    if i == j then 0 else Removals(steps, i, j - 1) + if steps[j - 1].Remembers? then 1 else 0
  }

  function LateFrames(steps: seq<Step>, id: nat, lane: nat, i: nat, j: nat): nat
    requires i <= j <= |steps|
    decreases j
  {
    if i == j then 0
    else
      var s := steps[j - 1];
      LateFrames(steps, id, lane, i, j - 1) + if s.Discards? && s.id == id && s.lane == lane then 1 else 0
  }

  /** Within its lifetime the upload is neither ended nor removed again. */
  predicate Undisturbed(steps: seq<Step>, id: nat, lane: nat, expires: nat, i: nat, j: nat)
    requires i <= j <= |steps|
  {
    forall m :: i <= m < j ==>
      && steps[m].now < expires
      && (steps[m].Remembers? ==> steps[m].id != id)
      && (steps[m].Discards? && steps[m].id == id && steps[m].lane == lane ==> !steps[m].end)
  }

  /** The tombstone is there, and at most `later` others expire no sooner. */
  ghost predicate Stands(table: map<nat, Tombstone>, id: nat, t: Tombstone, later: int) {
    id in table && table[id] == t && |Later(table, id, t.expires)| <= later
  }

  lemma StandsAtFirst(before: map<nat, Tombstone>, step: Step, lifetime: nat)
    requires step.Remembers? && Can(before, step)
    ensures var t := Tombstone(step.lane, TRAILING_FRAMES, step.now + lifetime);
      Stands(Do(before, step, lifetime), step.id, t, |Later(before, step.id, t.expires)|)
  {
    var expires := step.now + lifetime;
    SubsetSize(Later(Do(before, step, lifetime), step.id, expires), Later(before, step.id, expires));
  }

  lemma StandsOn(before: map<nat, Tombstone>, step: Step, lifetime: nat, id: nat, t: Tombstone, later: nat)
    requires Can(before, step) && Stands(before, id, t, later) && step.now < t.expires
    requires step.Remembers? ==> step.id != id && later < MAX_TOMBSTONES - 1
    requires step.Discards? && step.id == id && step.lane == t.lane ==> !step.end && t.remaining > 0
    ensures var own := step.Discards? && step.id == id && step.lane == t.lane;
      Stands(Do(before, step, lifetime), id, t.(remaining := t.remaining - if own then 1 else 0),
             later + if step.Remembers? then 1 else 0)
  {
    if step.Remembers? {
      KeptByRemembering(before, step, lifetime, id);
    } else {
      KeptByDiscarding(before, step, lifetime, id);
    }
  }

  lemma StandsNext(tables: seq<map<nat, Tombstone>>, steps: seq<Step>, lifetime: nat, k: nat,
                   id: nat, t: Tombstone, later: nat)
    requires IsRun(tables, steps, lifetime) && k < |steps|
    requires Stands(tables[k], id, t, later) && steps[k].now < t.expires
    requires steps[k].Remembers? ==> steps[k].id != id && later < MAX_TOMBSTONES - 1
    requires steps[k].Discards? && steps[k].id == id && steps[k].lane == t.lane ==> !steps[k].end && t.remaining > 0
    ensures var own := steps[k].Discards? && steps[k].id == id && steps[k].lane == t.lane;
      Stands(tables[k + 1], id, t.(remaining := t.remaining - if own then 1 else 0),
             later + if steps[k].Remembers? then 1 else 0)
  {
    assert Linked(tables, steps, lifetime, k);
    StandsOn(tables[k], steps[k], lifetime, id, t, later);
  }

  lemma OneStepLess(steps: seq<Step>, id: nat, lane: nat, expires: nat, i: nat, j: nat)
    requires i < j <= |steps| && Undisturbed(steps, id, lane, expires, i, j)
    ensures Undisturbed(steps, id, lane, expires, i, j - 1)
    ensures steps[j - 1].now < expires && (steps[j - 1].Remembers? ==> steps[j - 1].id != id)
    ensures steps[j - 1].Discards? && steps[j - 1].id == id && steps[j - 1].lane == lane ==> !steps[j - 1].end
  {
  }

  lemma {:induction false} StandsThroughout(tables: seq<map<nat, Tombstone>>, steps: seq<Step>, lifetime: nat,
                                            id: nat, lane: nat, expires: nat, later: nat, i: nat, j: nat)
    requires IsRun(tables, steps, lifetime) && i <= j < |tables|
    requires Stands(tables[i], id, Tombstone(lane, TRAILING_FRAMES, expires), later)
    requires Undisturbed(steps, id, lane, expires, i, j)
    requires later + Removals(steps, i, j) < MAX_TOMBSTONES && LateFrames(steps, id, lane, i, j) <= TRAILING_FRAMES
    ensures Stands(tables[j], id, Tombstone(lane, TRAILING_FRAMES - LateFrames(steps, id, lane, i, j), expires),
                   later + Removals(steps, i, j))
    decreases j
  {
    if i < j {
      OneStepLess(steps, id, lane, expires, i, j);
      StandsThroughout(tables, steps, lifetime, id, lane, expires, later, i, j - 1);
      var left := TRAILING_FRAMES - LateFrames(steps, id, lane, i, j - 1);
      StandsNext(tables, steps, lifetime, j - 1, id, Tombstone(lane, left, expires),
                 later + Removals(steps, i, j - 1));
    }
  }

  /** A tombstone outlives every run of too few later removals, and has lost exactly one frame for each that came. */
  lemma TombstoneSurvives(tables: seq<map<nat, Tombstone>>, steps: seq<Step>, lifetime: nat,
                          id: nat, lane: nat, at: nat, i: nat, j: nat)
    requires IsRun(tables, steps, lifetime) && i < j < |tables|
    requires steps[i].Remembers? && steps[i].id == id && steps[i].lane == lane && steps[i].now == at
    requires Undisturbed(steps, id, lane, at + lifetime, i + 1, j)
    requires |Later(tables[i], id, at + lifetime)| + Removals(steps, i + 1, j) < MAX_TOMBSTONES
    requires LateFrames(steps, id, lane, i + 1, j) <= TRAILING_FRAMES
    ensures id in tables[j]
    ensures tables[j][id] == Tombstone(lane, TRAILING_FRAMES - LateFrames(steps, id, lane, i + 1, j), at + lifetime)
  {
    assert Linked(tables, steps, lifetime, i);
    StandsAtFirst(tables[i], steps[i], lifetime);
    StandsThroughout(tables, steps, lifetime, id, lane, at + lifetime, |Later(tables[i], id, at + lifetime)|, i + 1, j);
  }

  /** So every one of the first sixteen late frames is absorbed, and the end whenever it comes. */
  lemma TailIsAbsorbed(tables: seq<map<nat, Tombstone>>, steps: seq<Step>, lifetime: nat,
                       id: nat, lane: nat, at: nat, i: nat, j: nat, end: bool, now: nat)
    requires IsRun(tables, steps, lifetime) && i < j < |tables| && now < at + lifetime
    requires steps[i].Remembers? && steps[i].id == id && steps[i].lane == lane && steps[i].now == at
    requires Undisturbed(steps, id, lane, at + lifetime, i + 1, j)
    requires |Later(tables[i], id, at + lifetime)| + Removals(steps, i + 1, j) < MAX_TOMBSTONES
    requires LateFrames(steps, id, lane, i + 1, j) + (if end then 0 else 1) <= TRAILING_FRAMES
    ensures Absorbs(tables[j], id, lane, end, now)
  {
    TombstoneSurvives(tables, steps, lifetime, id, lane, at, i, j);
  }

  // ---------------------------------------------------------------------------
  // And nothing else is absorbed
  // ---------------------------------------------------------------------------

  /** Frames left to a tombstone after `late` of its own came. */
  function Left(late: nat): nat { if late <= TRAILING_FRAMES then TRAILING_FRAMES - late else 0 }

  /** The tombstone of `id` at `j` goes back to its removal at `i`. */
  ghost predicate Since(table: map<nat, Tombstone>, steps: seq<Step>, lifetime: nat, id: nat, i: nat, j: nat)
    requires i < j <= |steps|
  {
    && steps[i].Remembers? && steps[i].id == id && id in table
    && Undisturbed(steps, id, steps[i].lane, steps[i].now + lifetime, i + 1, j)
    && table[id] == Tombstone(steps[i].lane, Left(LateFrames(steps, id, steps[i].lane, i + 1, j)),
                              steps[i].now + lifetime)
  }

  /** An entry that a step leaves in place was there before, unexpired, and lost at most a frame of its own. */
  lemma EntryGoesBack(before: map<nat, Tombstone>, step: Step, lifetime: nat, id: nat)
    requires id in Do(before, step, lifetime) && !(step.Remembers? && step.id == id)
    ensures id in before && step.now < before[id].expires
    ensures var own := step.Discards? && step.id == id && step.lane == before[id].lane;
      && (own ==> !step.end)
      && Do(before, step, lifetime)[id]
         == if own && before[id].remaining > 0 then before[id].(remaining := before[id].remaining - 1) else before[id]
  {
  }

  lemma SinceNext(tables: seq<map<nat, Tombstone>>, steps: seq<Step>, lifetime: nat, id: nat, i: nat, k: nat)
    requires |tables| == |steps| + 1 && i < k < |steps| && Linked(tables, steps, lifetime, k)
    requires Since(tables[k], steps, lifetime, id, i, k)
    requires id in tables[k + 1] && !(steps[k].Remembers? && steps[k].id == id)
    ensures Since(tables[k + 1], steps, lifetime, id, i, k + 1)
  {
    EntryGoesBack(tables[k], steps[k], lifetime, id);
  }

  lemma {:induction false} PresentSinceRemoval(tables: seq<map<nat, Tombstone>>, steps: seq<Step>, lifetime: nat,
                                               id: nat, j: nat) returns (i: nat)
    requires IsRun(tables, steps, lifetime) && j < |tables| && id in tables[j]
    ensures i < j && Since(tables[j], steps, lifetime, id, i, j)
    decreases j
  {
    assert tables[0] == map[];
    assert Linked(tables, steps, lifetime, j - 1);
    if steps[j - 1].Remembers? && steps[j - 1].id == id {
      i := j - 1;
    } else {
      EntryGoesBack(tables[j - 1], steps[j - 1], lifetime, id);
      i := PresentSinceRemoval(tables, steps, lifetime, id, j - 1);
      SinceNext(tables, steps, lifetime, id, i, j - 1);
    }
  }

  /** Whatever is absorbed belongs to an upload that was removed on the same lane less than a lifetime ago, has not
      been ended or removed again since, and has, unless it is the end, had fewer than sixteen frames. */
  lemma AbsorbedOnlyAfterRemoval(tables: seq<map<nat, Tombstone>>, steps: seq<Step>, lifetime: nat,
                                 id: nat, lane: nat, j: nat, end: bool, now: nat) returns (i: nat)
    requires IsRun(tables, steps, lifetime) && j < |tables| && Absorbs(tables[j], id, lane, end, now)
    ensures i < j && steps[i].Remembers? && steps[i].id == id && steps[i].lane == lane
    ensures now < steps[i].now + lifetime && Undisturbed(steps, id, lane, steps[i].now + lifetime, i + 1, j)
    ensures !end ==> LateFrames(steps, id, lane, i + 1, j) < 16
  {
    i := PresentSinceRemoval(tables, steps, lifetime, id, j);
  }
}
