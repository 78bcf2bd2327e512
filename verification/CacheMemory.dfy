/** The gzip cache remembers: what a build yields stays there until another version of the file replaces it or newer
entries leave it no room.

`CacheRuns` proves that what the cache holds is right. A cache that holds nothing would satisfy that.
 */
module CacheMemory {
  import opened Options
  import opened GzipCache
  import opened CacheRuns

  ghost predicate Remembers(s: System, key: Key) {
    exists e :: e in s.lru && e.key == key
  }

  /** A finish whose result is put into the cache. */
  predicate Stores(step: Step, build: Key -> Answer) {
    && step.Finishes? && !step.fails && !step.cancelled
    && (build(step.key).use ==> 1 <= |build(step.key).data| <= 8 * 1024 * 1024)
  }

  /** Another version of the same file takes the place of `key`. */
  predicate Replaces(step: Step, key: Key, build: Key -> Answer) {
    Stores(step, build) && step.key.path == key.path && step.key != key
  }

  /** The identities asked for or built by the steps from `i` to `j`. */
  function Used(steps: seq<Step>, i: nat, j: nat): set<Key>
    requires i <= j <= |steps|
    decreases j
  {
    if i == j then {}
    else Used(steps, i, j - 1) + if steps[j - 1].GivesUp? then {} else {steps[j - 1].key}
  }

  /** Entries of other paths, all of them used, that together with `key` exceed 64 MiB or 4096 entries. */
  ghost predicate Crowds(ahead: seq<Entry>, key: Key, used: set<Key>, build: Key -> Answer) {
    var all := ahead + [Entry(key, Normal(build(key)))];
    && Distinct(all)
    && (forall e :: e in ahead ==> e.key in used && e.answer == Normal(build(e.key)))
    && (Total(all) > 64 * 1024 * 1024 || |all| > 4096)
  }

  ghost predicate CrowdedOut(key: Key, used: set<Key>, build: Key -> Answer) {
    exists ahead :: Crowds(ahead, key, used, build)
  }

  lemma CrowdedStays(key: Key, used: set<Key>, more: set<Key>, build: Key -> Answer)
    requires CrowdedOut(key, used, build) && used <= more
    ensures CrowdedOut(key, more, build)
  {
    var ahead :| Crowds(ahead, key, used, build);
    assert Crowds(ahead, key, more, build);
  }

  // ---- One step ----

  /** The entry of `key` stands at `p`, and everything before it was used. */
  predicate HeldAt(lru: seq<Entry>, p: nat, key: Key, used: set<Key>) {
    p < |lru| && lru[p].key == key && forall q :: 0 <= q < p ==> lru[q].key in used
  }

  ghost predicate Held(lru: seq<Entry>, key: Key, used: set<Key>) {
    exists p: nat :: HeldAt(lru, p, key, used)
  }

  /** Putting another path's entry in front. */
  lemma PushedBack(lru: seq<Entry>, p: nat, key: Key, used: set<Key>, front: Entry) returns (p': nat)
    requires Distinct(lru) && HeldAt(lru, p, key, used) && front.key.path != key.path
    ensures HeldAt([front] + Without(lru, front.key.path), p', key, used + {front.key})
  {
    var i := IndexOf(lru, front.key.path);
    p' := if i < p then p else p + 1;
  }

  /** What the trim drops did not fit with what stands before it. */
  lemma TrimKeepsOrCrowds(full: seq<Entry>, p: nat, key: Key, used: set<Key>, build: Key -> Answer)
    requires Distinct(full) && HeldAt(full, p, key, used)
    requires forall e :: e in full ==> e.answer == Normal(build(e.key))
    ensures HeldAt(Trim(full), p, key, used) || CrowdedOut(key, used, build)
  {
    TrimIsLongestFit(full, p + 1);
    if p >= |Trim(full)| {
      var ahead := full[..p];
      assert full[..p + 1] == ahead + [full[p]];
      assert full[p] == Entry(key, Normal(build(key)));
      assert Crowds(ahead, key, used, build);
    }
  }

  lemma StoreKeepsOrCrowds(lru: seq<Entry>, key: Key, used: set<Key>, other: Key, build: Key -> Answer)
    requires Distinct(lru) && Faithful(lru, build) && Held(lru, key, used)
    requires other.path != key.path && Cacheable(build(other))
    ensures Held(Store(lru, other, build(other)), key, used + {other}) || CrowdedOut(key, used + {other}, build)
  {
    var p: nat :| HeldAt(lru, p, key, used);
    var front := Entry(other, Normal(build(other)));
    var p' := PushedBack(lru, p, key, used, front);
    WithoutKeeps(lru, other.path);
    ConsDistinct(front, Without(lru, other.path));
    TrimKeepsOrCrowds([front] + Without(lru, other.path), p', key, used + {other}, build);
  }

  lemma TouchKeepsHeld(lru: seq<Entry>, key: Key, used: set<Key>, e: Entry)
    requires Distinct(lru) && Held(lru, key, used) && e in lru
    ensures Held(Touch(lru, e), key, used + {e.key})
  {
    var p: nat :| HeldAt(lru, p, key, used);
    if e.key.path == key.path {
      SamePath(lru, e, lru[p]);
      assert HeldAt(Touch(lru, e), 0, key, used + {e.key});
    } else {
      var p' := PushedBack(lru, p, key, used, e);
    }
  }

  lemma MoreUsed(lru: seq<Entry>, key: Key, used: set<Key>, more: set<Key>)
    requires Held(lru, key, used) && used <= more
    ensures Held(lru, key, more)
  {
    var p: nat :| HeldAt(lru, p, key, used);
    assert HeldAt(lru, p, key, more);
  }

  /** A stored result stands in front of the list. */
  lemma StoredIsHeld(lru: seq<Entry>, key: Key, answer: Answer)
    requires Cacheable(answer)
    ensures Held(Store(lru, key, answer), key, {})
  {
    StoreKeepsNewEntry(lru, key, answer);
    assert HeldAt(Store(lru, key, answer), 0, key, {});
  }

  /** What a finish does to the list. */
  lemma FinishChangesList(s: System, k: nat, step: Step, build: Key -> Answer)
    requires step.Finishes? && Can(s, step)
    ensures Do(s, k, step, build).lru == if Stores(step, build) then Store(s.lru, step.key, build(step.key)) else s.lru
    ensures Do(s, k, step, build).flights == s.flights - {step.key}
  {
  }

  /** What a load does to the list and to the builds. */
  lemma AskChangesList(s: System, k: nat, key: Key, build: Key -> Answer)
    requires Distinct(s.lru) && Faithful(s.lru, build)
    ensures var s' := Do(s, k, Asks(key), build);
      if Remembers(s, key)
      then
        && s'.lru == Touch(s.lru, Entry(key, Normal(build(key)))) && s'.flights == s.flights
        && s'.answered == s.answered[k := Normal(build(key))] && Entry(key, Normal(build(key))) in s.lru
      else s'.lru == s.lru && key in s'.flights
  {
    LookupFinds(s.lru, key);
  }

  lemma StepKeepsHeld(s: System, steps: seq<Step>, k: nat, build: Key -> Answer, key: Key, used: set<Key>)
    requires Inv(s, steps, k, build) && k < |steps| && Can(s, steps[k]) && Held(s.lru, key, used)
    requires !Replaces(steps[k], key, build)
    ensures var lru', more := Do(s, k, steps[k], build).lru, used + if steps[k].GivesUp? then {} else {steps[k].key};
      Held(lru', key, more) || CrowdedOut(key, more, build)
  {
    var p: nat :| HeldAt(s.lru, p, key, used);
    match steps[k]
    case GivesUp(_, _) => MoreUsed(s.lru, key, used, used + {});
    case Asks(other) =>
      AskChangesList(s, k, other, build);
      if Remembers(s, other) {
        TouchKeepsHeld(s.lru, key, used, Entry(other, Normal(build(other))));
      } else {
        MoreUsed(s.lru, key, used, used + {other});
      }
    case Finishes(other, _, _) =>
      FinishChangesList(s, k, steps[k], build);
      assert other != key;
      if Stores(steps[k], build) {
        StoreKeepsOrCrowds(s.lru, key, used, other, build);
      } else {
        MoreUsed(s.lru, key, used, used + {other});
      }
  }

  // ---- Every run ----

  lemma StoredAtOnce(states: seq<System>, steps: seq<Step>, build: Key -> Answer, i: nat)
    requires IsRun(states, steps, build) && i < |steps| && Stores(steps[i], build)
    ensures Held(states[i + 1].lru, steps[i].key, {})
  {
    assert Linked(states, steps, build, i);
    FinishChangesList(states[i], i, steps[i], build);
    StoredIsHeld(states[i].lru, steps[i].key, build(steps[i].key));
  }

  /** The result stands in the list, or what was used leaves it no room. */
  ghost predicate Kept(lru: seq<Entry>, key: Key, used: set<Key>, build: Key -> Answer) {
    Held(lru, key, used) || CrowdedOut(key, used, build)
  }

  lemma KeptNext(states: seq<System>, steps: seq<Step>, build: Key -> Answer, key: Key, i: nat, k: nat)
    requires IsRun(states, steps, build) && i <= k < |steps| && !Replaces(steps[k], key, build)
    requires Kept(states[k].lru, key, Used(steps, i, k), build)
    ensures Kept(states[k + 1].lru, key, Used(steps, i, k + 1), build)
  {
    var used := Used(steps, i, k);
    if Held(states[k].lru, key, used) {
      RunInv(states, steps, build, k);
      assert Linked(states, steps, build, k);
      StepKeepsHeld(states[k], steps, k, build, key, used);
    } else {
      CrowdedStays(key, used, Used(steps, i, k + 1), build);
    }
  }

  lemma {:induction false} KeptUntil(states: seq<System>, steps: seq<Step>, build: Key -> Answer, i: nat, j: nat)
    requires IsRun(states, steps, build) && i < j < |states| && Stores(steps[i], build)
    requires forall m :: i < m < j ==> !Replaces(steps[m], steps[i].key, build)
    ensures Kept(states[j].lru, steps[i].key, Used(steps, i + 1, j), build)
    decreases j
  {
    if j == i + 1 {
      StoredAtOnce(states, steps, build, i);
    } else {
      KeptUntil(states, steps, build, i, j - 1);
      KeptNext(states, steps, build, steps[i].key, i + 1, j - 1);
    }
  }

  /** After a build that was stored, its result is remembered, unless another version of the file was stored since or
      what was used since leaves it no room. */
  lemma RememberedUntil(states: seq<System>, steps: seq<Step>, build: Key -> Answer, i: nat, j: nat)
    requires IsRun(states, steps, build) && i < j < |states| && Stores(steps[i], build)
    requires forall m :: i < m < j ==> !Replaces(steps[m], steps[i].key, build)
    ensures Remembers(states[j], steps[i].key) || CrowdedOut(steps[i].key, Used(steps, i + 1, j), build)
  {
    KeptUntil(states, steps, build, i, j);
    HeldIsRemembered(states[j], steps[i].key, Used(steps, i + 1, j));
  }

  lemma HeldIsRemembered(s: System, key: Key, used: set<Key>)
    ensures Held(s.lru, key, used) ==> Remembers(s, key)
  {
    if Held(s.lru, key, used) {
      var p: nat :| HeldAt(s.lru, p, key, used);
      assert s.lru[p] in s.lru;
    }
  }

  /** A load of a remembered identity is answered at once with what its build yields, and starts no build. */
  lemma RememberedLoadHits(states: seq<System>, steps: seq<Step>, build: Key -> Answer, k: nat)
    requires IsRun(states, steps, build) && k < |steps| && steps[k].Asks? && Remembers(states[k], steps[k].key)
    ensures k in states[k + 1].answered && Agrees(states[k + 1].answered[k], build(steps[k].key))
    ensures states[k + 1].flights == states[k].flights
    ensures states[k + 1].lru != [] && states[k + 1].lru[0].key == steps[k].key
  {
    RunInv(states, steps, build, k);
    assert Linked(states, steps, build, k);
    AskChangesList(states[k], k, steps[k].key, build);
  }

  /** So a load after a stored build hits, for as long as the result is neither replaced nor crowded out. */
  lemma LoadAfterBuildHits(states: seq<System>, steps: seq<Step>, build: Key -> Answer, i: nat, j: nat)
    requires IsRun(states, steps, build) && i < j < |steps| && Stores(steps[i], build) && steps[j] == Asks(steps[i].key)
    requires forall m :: i < m < j ==> !Replaces(steps[m], steps[i].key, build)
    requires !CrowdedOut(steps[i].key, Used(steps, i + 1, j), build)
    ensures j in states[j + 1].answered && Agrees(states[j + 1].answered[j], build(steps[i].key))
    ensures states[j + 1].flights == states[j].flights
  {
    RememberedUntil(states, steps, build, i, j);
    RememberedLoadHits(states, steps, build, j);
  }

  /** A load of an identity that is not remembered waits for a build: the one in flight, or its own. */
  lemma ForgottenLoadBuilds(states: seq<System>, steps: seq<Step>, build: Key -> Answer, k: nat)
    requires IsRun(states, steps, build) && k < |steps| && steps[k].Asks? && !Remembers(states[k], steps[k].key)
    ensures Waits(states[k + 1], steps[k].key, k) && states[k + 1].lru == states[k].lru
    ensures steps[k].key !in states[k].flights ==> states[k + 1].flights[steps[k].key].leader == k
    ensures steps[k].key in states[k].flights ==>
              states[k + 1].flights[steps[k].key].leader == states[k].flights[steps[k].key].leader
  {
    RunInv(states, steps, build, k);
    assert Linked(states, steps, build, k);
    AskChangesList(states[k], k, steps[k].key, build);
    LookupFinds(states[k].lru, steps[k].key);
  }

  /** A build that failed, was cancelled or is too large to keep leaves the list as it was. Failed or not, it ends. */
  lemma UnstoredBuildLeavesList(states: seq<System>, steps: seq<Step>, build: Key -> Answer, k: nat)
    requires IsRun(states, steps, build) && k < |steps| && steps[k].Finishes? && !Stores(steps[k], build)
    ensures states[k + 1].lru == states[k].lru && steps[k].key !in states[k + 1].flights
  {
    assert Linked(states, steps, build, k);
    FinishChangesList(states[k], k, steps[k], build);
  }

  /** A stored build comes first; every other entry of another path stays exactly if it fits with those before it. */
  lemma StoredBuildEvictsExactly(states: seq<System>, steps: seq<Step>, build: Key -> Answer, k: nat, n: nat)
    requires IsRun(states, steps, build) && k < |steps| && Stores(steps[k], build)
    requires n <= |Without(states[k].lru, steps[k].key.path)|
    ensures var others := Without(states[k].lru, steps[k].key.path);
      var kept := [Entry(steps[k].key, Normal(build(steps[k].key)))] + others[..n];
      kept <= states[k + 1].lru <==> Total(kept) <= 64 * 1024 * 1024 && |kept| <= 4096
  {
    assert Linked(states, steps, build, k);
    FinishChangesList(states[k], k, steps[k], build);
    var others := Without(states[k].lru, steps[k].key.path);
    var full := [Entry(steps[k].key, Normal(build(steps[k].key)))] + others;
    TrimIsLongestFit(full, n + 1);
    assert full[..n + 1] == [full[0]] + others[..n];
  }

  /** A build that fails fails its leader and everyone who joined it. */
  lemma FailureFailsEveryone(states: seq<System>, steps: seq<Step>, build: Key -> Answer, key: Key,
                             i: nat, c: nat, k: nat)
    requires IsRun(states, steps, build) && i <= c < k < |steps|
    requires CacheRuns.Leads(states[i], steps[i], key) && steps[c] == Asks(key)
    requires Ends(steps[k], key) && steps[k].fails
    requires forall m :: i <= m < k ==> !Ends(steps[m], key)
    requires forall m :: c < m < k ==> steps[m] != GivesUp(key, c)
    ensures c in states[k + 1].failed && key !in states[k + 1].flights
  {
    WaitsSinceLead(states, steps, build, key, i, c, k);
    assert Linked(states, steps, build, k);
  }

  /** A caller whose own request is cancelled fails alone; the build goes on. */
  lemma GivingUpFailsOne(states: seq<System>, steps: seq<Step>, build: Key -> Answer, k: nat)
    requires IsRun(states, steps, build) && k < |steps| && steps[k].GivesUp?
    ensures var key, caller := steps[k].key, steps[k].caller;
      && states[k + 1].failed == states[k].failed + {caller} && !Waits(states[k + 1], key, caller)
      && (forall c :: c != caller ==> (Waits(states[k + 1], key, c) <==> Waits(states[k], key, c)))
      && states[k + 1].answered == states[k].answered && states[k + 1].lru == states[k].lru
  {
    RunInv(states, steps, build, k);
    assert Linked(states, steps, build, k);
    assert Waits(states[k], steps[k].key, steps[k].caller);
  }
}
