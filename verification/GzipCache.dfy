/** `wireGzipCache`: an LRU of compressed assets with one build in flight for each identity.

The cache is one list, most recently used first, indexed twice: by full identity and by path. The
functions below are the list alone; the class keeps the two indexes and the byte counter with it.
 */
module GzipCache {
  import opened ByteStrings
  import opened Options

  const MAX_ENTRY_BYTES: nat := 8 * 1024 * 1024
  const MAX_BYTES: nat := 64 * 1024 * 1024
  const MAX_ENTRIES: nat := 4096

  datatype Key = Key(path: string, size: nat, modified: int)

  /** What a build yields: compressed bytes, or the decision not to compress. */
  datatype Answer = Answer(data: Bytes, use: bool)

  datatype Entry = Entry(key: Key, answer: Answer)

  datatype Outcome = Built(answer: Answer) | Failed

  datatype Reply = Hit(answer: Answer) | Join | Lead

  // ---- The list ----

  function Total(lru: seq<Entry>): nat {
    if lru == [] then 0 else |lru[0].answer.data| + Total(lru[1..])
  }

  /** Where the entry for a path stands, or the length of the list. */
  function IndexOf(lru: seq<Entry>, path: string): (i: nat)
    ensures i <= |lru|
    ensures i < |lru| ==> lru[i].key.path == path
    ensures forall j :: 0 <= j < i ==> lru[j].key.path != path
  {
    if lru == [] || lru[0].key.path == path then 0 else 1 + IndexOf(lru[1..], path)
  }

  function Without(lru: seq<Entry>, path: string): seq<Entry> {
    var i := IndexOf(lru, path);
    if i == |lru| then lru else lru[..i] + lru[i + 1..]
  }

  predicate Fits(lru: seq<Entry>) {
    Total(lru) <= MAX_BYTES && |lru| <= MAX_ENTRIES
  }

  /** Evicting from the back until the rest fits. */
  function Trim(lru: seq<Entry>): seq<Entry> {
    if lru == [] || Fits(lru) then lru else Trim(lru[..|lru| - 1])
  }

  predicate Cacheable(answer: Answer) {
    answer.use ==> 0 < |answer.data| <= MAX_ENTRY_BYTES
  }

  function Normal(answer: Answer): Answer {
    if answer.use then answer else Answer([], false)
  }

  /** Two answers mean the same to a reader: the same decision and, where it is to compress, the same bytes. */
  predicate Agrees(a: Answer, b: Answer) {
    a.use == b.use && (a.use ==> a.data == b.data)
  }

  function Store(lru: seq<Entry>, key: Key, answer: Answer): seq<Entry> {
    if !Cacheable(answer) then lru
    else Trim([Entry(key, Normal(answer))] + Without(lru, key.path))
  }

  function Touch(lru: seq<Entry>, e: Entry): seq<Entry> {
    [e] + Without(lru, e.key.path)
  }

  /** The entry for exactly this identity; an older identity of the same file does not count. */
  function Lookup(lru: seq<Entry>, key: Key): Option<Entry> {
    var i := IndexOf(lru, key.path);
    if i < |lru| && lru[i].key == key then Some(lru[i]) else None
  }

  /** What the lock guards: the list, and the identities being built. */
  datatype Shelf = Shelf(lru: seq<Entry>, flights: set<Key>)

  /** The first locked section of a load. */
  function Begun(s: Shelf, key: Key): (Shelf, Reply) {
    match Lookup(s.lru, key)
    case Some(e) => (s.(lru := Touch(s.lru, e)), Hit(e.answer))
    case None => if key in s.flights then (s, Join) else (s.(flights := s.flights + {key}), Lead)
  }

  /** The second locked section, run by the caller that leads. */
  function Finished(s: Shelf, key: Key, outcome: Outcome, cancelled: bool): Shelf {
    Shelf(if outcome.Built? && !cancelled then Store(s.lru, key, outcome.answer) else s.lru, s.flights - {key})
  }

  predicate Distinct(lru: seq<Entry>) {
    forall i, j :: 0 <= i < j < |lru| ==> lru[i].key.path != lru[j].key.path
  }

  /** Every remembered answer is one the build for its identity gives. */
  ghost predicate Faithful(lru: seq<Entry>, build: Key -> Answer) {
    forall e :: e in lru ==> Cacheable(e.answer) && e.answer == Normal(build(e.key))
  }

  // ---- Facts about the list ----

  lemma {:induction false} TotalSplits(a: seq<Entry>, b: seq<Entry>)
    ensures Total(a + b) == Total(a) + Total(b)
  {
    if a == [] {
      assert a + b == b;
    } else {
      assert (a + b)[1..] == a[1..] + b;
      TotalSplits(a[1..], b);
    }
  }

  /** With one entry for each path, `Without` takes out exactly that entry. */
  lemma WithoutRemoves(lru: seq<Entry>, i: nat)
    requires Distinct(lru) && i < |lru|
    ensures Without(lru, lru[i].key.path) == lru[..i] + lru[i + 1..]
    ensures Total(Without(lru, lru[i].key.path)) == Total(lru) - |lru[i].answer.data|
  {
    assert IndexOf(lru, lru[i].key.path) == i;
    assert lru == lru[..i] + lru[i..] && lru[i..][1..] == lru[i + 1..];
    TotalSplits(lru[..i], lru[i..]);
    TotalSplits(lru[..i], lru[i + 1..]);
  }

  lemma WithoutMembers(lru: seq<Entry>, i: nat)
    requires Distinct(lru) && i < |lru|
    ensures forall e :: e in lru[..i] + lru[i + 1..] <==> e in lru && e.key.path != lru[i].key.path
  {
    forall e | e in lru && e.key.path != lru[i].key.path ensures e in lru[..i] + lru[i + 1..] {
      var j :| 0 <= j < |lru| && lru[j] == e;
      assert e == if j < i then lru[..i][j] else lru[i + 1..][j - i - 1];
    }
  }

  lemma WithoutKeeps(lru: seq<Entry>, path: string)
    requires Distinct(lru)
    ensures Distinct(Without(lru, path))
    ensures forall e :: e in Without(lru, path) <==> e in lru && e.key.path != path
  {
    var i := IndexOf(lru, path);
    if i < |lru| {
      WithoutMembers(lru, i);
    }
  }

  lemma ConsDistinct(e: Entry, rest: seq<Entry>)
    requires Distinct(rest)
    requires forall x :: x in rest ==> x.key.path != e.key.path
    ensures Distinct([e] + rest)
  {
  }

  lemma SamePath(lru: seq<Entry>, x: Entry, y: Entry)
    requires Distinct(lru) && x in lru && y in lru && x.key.path == y.key.path
    ensures x == y
  {
  }

  lemma {:induction false} PrefixTotal(lru: seq<Entry>, n: nat)
    requires n <= |lru|
    ensures Total(lru[..n]) <= Total(lru)
  {
    assert lru[..n] + lru[n..] == lru;
    TotalSplits(lru[..n], lru[n..]);
  }

  /** Eviction keeps exactly the longest run of most recent entries that fits. */
  lemma {:induction false} TrimIsLongestFit(lru: seq<Entry>, n: nat)
    requires n <= |lru|
    ensures Trim(lru) <= lru && Fits(Trim(lru))
    ensures Fits(lru[..n]) <==> n <= |Trim(lru)|
    decreases |lru|
  {
    if lru == [] {
    } else if Fits(lru) {
      PrefixTotal(lru, n);
    } else {
      var shorter := lru[..|lru| - 1];
      if n == |lru| {
        assert lru[..n] == lru;
        TrimIsLongestFit(shorter, 0);
      } else {
        TrimIsLongestFit(shorter, n);
        assert shorter[..n] == lru[..n];
      }
    }
  }

  lemma LastIsDropped(lru: seq<Entry>)
    requires Distinct(lru) && !Fits(lru)
    ensures lru != [] && Without(lru, lru[|lru| - 1].key.path) == lru[..|lru| - 1]
    ensures Trim(lru) == Trim(lru[..|lru| - 1])
  {
    WithoutRemoves(lru, |lru| - 1);
  }

  /** Storing a cacheable answer keeps the new entry in front, whatever it pushes out. */
  lemma StoreKeepsNewEntry(lru: seq<Entry>, key: Key, answer: Answer)
    requires Cacheable(answer)
    ensures Store(lru, key, answer) != []
    ensures Store(lru, key, answer)[0] == Entry(key, Normal(answer))
    ensures Store(lru, key, answer)[1..] <= Without(lru, key.path)
  {
    var e := Entry(key, Normal(answer));
    var full := [e] + Without(lru, key.path);
    assert full[..1] == [e];
    assert Total([e]) == |e.answer.data|;
    TrimIsLongestFit(full, 1);
    assert full[1..] == Without(lru, key.path);
  }

  lemma StoreKeepsCache(lru: seq<Entry>, key: Key, answer: Answer, build: Key -> Answer)
    requires Distinct(lru) && Fits(lru) && Faithful(lru, build) && answer == build(key)
    ensures Distinct(Store(lru, key, answer)) && Fits(Store(lru, key, answer))
    ensures Faithful(Store(lru, key, answer), build)
  {
    if Cacheable(answer) {
      WithoutKeeps(lru, key.path);
      TrimIsLongestFit([Entry(key, Normal(answer))] + Without(lru, key.path), 0);
    }
  }

  /** A hit reorders the list and loses nothing. */
  lemma TouchReorders(lru: seq<Entry>, e: Entry)
    requires Distinct(lru) && e in lru
    ensures Distinct(Touch(lru, e))
    ensures forall x :: x in Touch(lru, e) <==> x in lru
    ensures Total(Touch(lru, e)) == Total(lru) && |Touch(lru, e)| == |lru|
  {
    var i :| 0 <= i < |lru| && lru[i] == e;
    WithoutRemoves(lru, i);
    WithoutKeeps(lru, e.key.path);
    ConsDistinct(e, Without(lru, e.key.path));
    forall x | x in lru && x.key.path == e.key.path ensures x == e {
      SamePath(lru, x, e);
    }
  }

  lemma TouchKeepsCache(lru: seq<Entry>, e: Entry, build: Key -> Answer)
    requires Distinct(lru) && Fits(lru) && Faithful(lru, build) && e in lru
    ensures Fits(Touch(lru, e)) && Faithful(Touch(lru, e), build) && e.answer == Normal(build(e.key))
  {
    TouchReorders(lru, e);
  }

  // ---- The object ----

  /** Each index names exactly the entries of the list. */
  ghost predicate ByKey(lru: seq<Entry>, entries: map<Key, Entry>) {
    && |entries| == |lru|
    && (forall k :: k in entries ==> entries[k] in lru && entries[k].key == k)
    && (forall e :: e in lru ==> e.key in entries && entries[e.key] == e)
  }

  ghost predicate ByPath(lru: seq<Entry>, entries: map<Key, Entry>, paths: map<string, Key>) {
    && (forall p :: p in paths ==> paths[p].path == p && paths[p] in entries)
    && (forall e :: e in lru ==> e.key.path in paths && paths[e.key.path] == e.key)
  }

  ghost predicate Indexed(lru: seq<Entry>, entries: map<Key, Entry>, paths: map<string, Key>) {
    Distinct(lru) && ByKey(lru, entries) && ByPath(lru, entries, paths)
  }

  lemma RemovalKeepsIndexed(lru: seq<Entry>, entries: map<Key, Entry>, paths: map<string, Key>, e: Entry)
    requires Indexed(lru, entries, paths) && e in lru
    ensures Indexed(Without(lru, e.key.path), entries - {e.key}, paths - {e.key.path})
    ensures Total(Without(lru, e.key.path)) == Total(lru) - |e.answer.data|
  {
    var rest := Without(lru, e.key.path);
    var i :| 0 <= i < |lru| && lru[i] == e;
    WithoutRemoves(lru, i);
    WithoutKeeps(lru, e.key.path);
    forall x | x in lru && x.key.path == e.key.path ensures x == e {
      SamePath(lru, x, e);
    }
    RemovalIndexes(lru, rest, entries, paths, e);
  }

  lemma RemovalIndexes(lru: seq<Entry>, rest: seq<Entry>, entries: map<Key, Entry>, paths: map<string, Key>, e: Entry)
    requires ByKey(lru, entries) && ByPath(lru, entries, paths) && e in lru && |rest| == |lru| - 1
    requires forall x :: x in rest <==> x in lru && x.key.path != e.key.path
    requires forall x :: x in lru && x.key.path == e.key.path ==> x == e
    ensures ByKey(rest, entries - {e.key}) && ByPath(rest, entries - {e.key}, paths - {e.key.path})
  {
  }

  lemma PushByKey(lru: seq<Entry>, entries: map<Key, Entry>, e: Entry)
    requires ByKey(lru, entries) && e.key !in entries
    ensures ByKey([e] + lru, entries[e.key := e])
  {
  }

  lemma PushByPath(lru: seq<Entry>, entries: map<Key, Entry>, paths: map<string, Key>, e: Entry)
    requires ByPath(lru, entries, paths) && e.key.path !in paths
    ensures ByPath([e] + lru, entries[e.key := e], paths[e.key.path := e.key])
  {
  }

  lemma PushKeepsIndexed(lru: seq<Entry>, entries: map<Key, Entry>, paths: map<string, Key>, e: Entry)
    requires Indexed(lru, entries, paths) && e.key.path !in paths
    ensures Indexed([e] + lru, entries[e.key := e], paths[e.key.path := e.key])
    ensures Total([e] + lru) == Total(lru) + |e.answer.data|
  {
    ConsDistinct(e, lru);
    assert ([e] + lru)[1..] == lru;
    PushByKey(lru, entries, e);
    PushByPath(lru, entries, paths, e);
  }

  /** The entry map answers as the list does. */
  lemma EntriesAreLookup(lru: seq<Entry>, entries: map<Key, Entry>, paths: map<string, Key>, key: Key)
    requires Indexed(lru, entries, paths)
    ensures Lookup(lru, key) == if key in entries then Some(entries[key]) else None
  {
    if key in entries {
      var i :| 0 <= i < |lru| && lru[i] == entries[key];
      assert IndexOf(lru, key.path) == i;
    }
  }

  class WireGzipCache {
    var used: int
    var lru: seq<Entry>
    var entries: map<Key, Entry>
    var paths: map<string, Key>
    /** Identities being built. */
    var flights: set<Key>

    constructor ()
      ensures Coherent() && View() == Shelf([], {})
    {
      used, lru, entries, paths, flights := 0, [], map[], map[], {};
    }

    ghost function View(): Shelf
      reads this
    {
      Shelf(lru, flights)
    }

    ghost predicate Coherent()
      reads this
    {
      Indexed(lru, entries, paths) && used == Total(lru)
    }

    method RemoveLocked(e: Entry)
      requires Coherent() && e in lru
      modifies this`used, this`lru, this`entries, this`paths
      ensures Coherent() && lru == Without(old(lru), e.key.path)
      ensures entries == old(entries) - {e.key} && paths == old(paths) - {e.key.path}
    {
      RemovalKeepsIndexed(lru, entries, paths, e);
      used := used - |e.answer.data|;
      entries := entries - {e.key};
      paths := paths - {e.key.path};
      lru := Without(lru, e.key.path);
    }

    method DropPath(path: string)
      requires Coherent()
      modifies this`used, this`lru, this`entries, this`paths
      ensures Coherent() && lru == Without(old(lru), path)
      ensures path !in paths
    {
      if path in paths {
        RemoveLocked(entries[paths[path]]);
      }
    }

    method PushFront(e: Entry)
      requires Coherent() && e.key.path !in paths
      modifies this`used, this`lru, this`entries, this`paths
      ensures Coherent() && lru == [e] + old(lru)
    {
      PushKeepsIndexed(lru, entries, paths, e);
      lru := [e] + lru;
      entries := entries[e.key := e];
      paths := paths[e.key.path := e.key];
      used := used + |e.answer.data|;
    }

    method RemoveBack()
      requires Coherent() && !Fits(lru)
      modifies this`used, this`lru, this`entries, this`paths
      ensures Coherent() && |lru| < |old(lru)| && Trim(lru) == Trim(old(lru))
    {
      LastIsDropped(lru);
      RemoveLocked(lru[|lru| - 1]);
    }

    /** The eviction loop. It stops, and never finds the list empty. */
    method Evict()
      requires Coherent()
      modifies this`used, this`lru, this`entries, this`paths
      ensures Coherent() && lru == Trim(old(lru))
    {
      while used > MAX_BYTES || |entries| > MAX_ENTRIES
        invariant Coherent() && Trim(lru) == Trim(old(lru))
        decreases |lru|
      {
        RemoveBack();
      }
    }

    method StoreResultLocked(key: Key, answer: Answer)
      requires Coherent()
      modifies this`used, this`lru, this`entries, this`paths
      ensures Coherent() && lru == Store(old(lru), key, answer)
    {
      if answer.use && (|answer.data| == 0 || |answer.data| > MAX_ENTRY_BYTES) {
        return;
      }
      DropPath(key.path);
      PushFront(Entry(key, Normal(answer)));
      Evict();
    }

    /** Answers, waits for a build, or starts one. */
    method Begin(key: Key) returns (reply: Reply)
      requires Coherent()
      modifies this`lru, this`flights
      ensures Coherent() && (View(), reply) == Begun(old(View()), key)
    {
      EntriesAreLookup(lru, entries, paths, key);
      if key in entries {
        var e := entries[key];
        TouchReorders(lru, e);
        lru := Touch(lru, e);
        return Hit(e.answer);
      }
      if key in flights {
        return Join;
      }
      flights := flights + {key};
      return Lead;
    }

    /** Stores what was built and ends the flight. */
    method Finish(key: Key, outcome: Outcome, cancelled: bool)
      requires Coherent()
      modifies this
      ensures Coherent() && View() == Finished(old(View()), key, outcome, cancelled)
      ensures outcome.Built? && !cancelled && Cacheable(outcome.answer) ==>
                lru != [] && lru[0] == Entry(key, Normal(outcome.answer))
      ensures !(outcome.Built? && !cancelled && Cacheable(outcome.answer)) ==> lru == old(lru)
      ensures flights == old(flights) - {key}
    {
      if outcome.Built? && Cacheable(outcome.answer) {
        StoreKeepsNewEntry(lru, key, outcome.answer);
      }
      if outcome.Built? && !cancelled {
        StoreResultLocked(key, outcome.answer);
      }
      flights := flights - {key};
    }
  }
}
