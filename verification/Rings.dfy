/** Fixed-capacity ring buffers over a sequence of slots, and the queue they stand for. */
module Rings {

  /** The index `n` slots after `at`, once around a ring of `size`. */
  function Wrap(at: nat, n: nat, size: nat): nat
    requires at < size && n <= size
  {
    if at + n < size then at + n else at + n - size
  }

  /** The queue held by the `len` slots from `at` on. */
  function Contents<T>(slots: seq<T>, at: nat, len: nat): seq<T>
    requires at < |slots| && len <= |slots|
  {
    if at + len <= |slots| then slots[at..at + len] else slots[at..] + slots[..at + len - |slots|]
  }

  lemma PushBack<T>(slots: seq<T>, at: nat, len: nat, x: T)
    requires at < |slots| && len < |slots|
    ensures Contents(slots[Wrap(at, len, |slots|) := x], at, len + 1) == Contents(slots, at, len) + [x]
  {
  }

  lemma PopFront<T>(slots: seq<T>, at: nat, len: nat, blank: T)
    requires at < |slots| && 0 < len <= |slots|
    ensures Contents(slots, at, len)[0] == slots[at]
    ensures Contents(slots[at := blank], Wrap(at, 1, |slots|), len - 1) == Contents(slots, at, len)[1..]
  {
    var rest := Contents(slots[at := blank], Wrap(at, 1, |slots|), len - 1);
    assert |rest| == len - 1;
    assert forall i {:trigger rest[i]} :: 0 <= i < len - 1 ==> rest[i] == Contents(slots, at, len)[i + 1];
  }
}
