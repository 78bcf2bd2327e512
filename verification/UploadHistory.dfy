/** What a run of an upload amounts to, told from its steps.

The flags that excuse a violation are shown to have a cause among the steps, the page's reads are counted, and every
run may be broken off by either side at any moment, so that the laws of `Upload` are laws about those runs too.
 */
module UploadHistory {
  import opened ByteStrings
  import opened Limits
  import opened Sums
  import opened RequestBody
  import BodyLifecycle
  import opened Upload
  import UploadCompletes

  // ---------------------------------------------------------------------------
  // Excuses
  // ---------------------------------------------------------------------------

  /** Step `i` closes the body of a request that is in the table and unfinished. */
  predicate Cuts(states: seq<Sys>, steps: seq<Step>, i: nat)
    requires |states| == |steps| + 1 && i < |steps|
  {
    steps[i] == NodeBody(BodyLifecycle.CloseBegin) && states[i].node.live && !states[i].node.body.bodyEnded
  }

  lemma HandleExcusesNothing(s: Sys, allow: bool)
    requires !s.node.hand.Nothing?
    ensures Handle(s, allow).cut == s.cut && Handle(s, allow).expired == s.expired
  {
  }

  /** A body counts as cut off, and a tombstone as forgotten, exactly when a step of the run did it. */
  lemma {:induction false} ExcusesHaveACause(source: Bytes, states: seq<Sys>, steps: seq<Step>, k: nat)
    requires IsRun(source, states, steps) && k < |states|
    ensures states[k].cut <==> exists i :: 0 <= i < k && Cuts(states, steps, i)
    ensures states[k].expired <==> exists i :: 0 <= i < k && steps[i].NodeForget?
  {
    if k > 0 {
      ExcusesHaveACause(source, states, steps, k - 1);
      assert Linked(states, steps, k - 1);
      if steps[k - 1].NodeHandle? {
        HandleExcusesNothing(states[k - 1], steps[k - 1].allow);
      }
      assert states[k].cut == (states[k - 1].cut || Cuts(states, steps, k - 1));
      assert states[k].expired == (states[k - 1].expired || steps[k - 1].NodeForget?);
    }
  }

  /** So a page is charged a violation only if its source is longer than 16 MiB, a tombstone was forgotten, or a live,
      unfinished body was closed. */
  lemma ViolationHasACause(source: Bytes, states: seq<Sys>, steps: seq<Step>, k: nat)
    requires IsRun(source, states, steps) && k < |states| && states[k].node.violations > 0
    ensures |source| > 16 * 1024 * 1024
         || (exists i :: 0 <= i < k && steps[i].NodeForget?)
         || (exists i :: 0 <= i < k && Cuts(states, steps, i))
  {
    RunInv(source, states, steps, k);
    ExcusesHaveACause(source, states, steps, k);
  }

  // ---------------------------------------------------------------------------
  // Reads
  // ---------------------------------------------------------------------------

  function Reads(steps: seq<Step>, k: nat): nat
    requires k <= |steps|
  {
    if k == 0 then 0 else Reads(steps, k - 1) + if steps[k - 1].PageRead? then 1 else 0
  }

  /** Where the source stands after `n` full payloads. */
  function Offset(source: Bytes, n: nat): (at: nat)
    ensures at <= |source|
  {
    if n * MAX_PAYLOAD_BYTES <= |source| then n * MAX_PAYLOAD_BYTES else |source|
  }

  /** After `n` reads: what is left is the source without `n` payloads, and its end has been seen exactly when the last
      of them came out short. */
  predicate ReadSoFar(source: Bytes, p: Sender, n: nat) {
    && p.rest == source[Offset(source, n)..]
    && (p.sourceEnded <==> n * MAX_PAYLOAD_BYTES > |source|)
    && (p.sourceEnded ==> (n - 1) * MAX_PAYLOAD_BYTES <= |source|)
    && (p.phase.Idle? || p.phase.Taken? ==> !p.sourceEnded)
  }

  lemma ReadAdvances(source: Bytes, p: Sender, n: nat)
    requires ReadSoFar(source, p, n) && p.phase.Taken?
    ensures ReadSoFar(source, ReadSender(p), n + 1)
  {
    var payload := NextPayload(p.rest);
    assert (n + 1) * MAX_PAYLOAD_BYTES == n * MAX_PAYLOAD_BYTES + MAX_PAYLOAD_BYTES;
    assert p.rest[|payload|..] == source[Offset(source, n + 1)..];
  }

  lemma OthersLeaveSource(source: Bytes, s: Sys, step: Step, n: nat)
    requires Inv(s) && ReadSoFar(source, s.sender, n) && Can(s, step) && !step.PageRead?
    ensures ReadSoFar(source, Do(s, step).sender, n)
  {
    if step.NodeHandle? {
      assert Handle(s, step.allow).sender == s.sender;
    }
  }

  lemma {:induction false} ReadsAreCounted(source: Bytes, states: seq<Sys>, steps: seq<Step>, k: nat)
    requires IsRun(source, states, steps) && k < |states|
    ensures ReadSoFar(source, states[k].sender, Reads(steps, k))
  {
    if k == 0 {
      assert source[0..] == source;
    } else {
      ReadsAreCounted(source, states, steps, k - 1);
      RunInv(source, states, steps, k - 1);
      assert Linked(states, steps, k - 1);
      if steps[k - 1].PageRead? {
        ReadAdvances(source, states[k - 1].sender, Reads(steps, k - 1));
      } else {
        OthersLeaveSource(source, states[k - 1], steps[k - 1], Reads(steps, k - 1));
      }
    }
  }

  /** A page that ends its upload has read once for every full payload of the source and once more: a source that is a
      multiple of the payload limit, the empty one included, costs it one credit for a read that yields nothing. */
  lemma EndedUploadReads(source: Bytes, states: seq<Sys>, steps: seq<Step>, k: nat)
    requires IsRun(source, states, steps) && k < |steps| && steps[k].PageEnd?
    ensures Reads(steps, k) == |source| / MAX_PAYLOAD_BYTES + 1
  {
    ReadsAreCounted(source, states, steps, k);
    RunInv(source, states, steps, k);
    assert Linked(states, steps, k);
  }

  // ---------------------------------------------------------------------------
  // A node that grants what it likes
  // ---------------------------------------------------------------------------

  function Granted(p: Sender, grants: seq<int>): Sender
    decreases |grants|
  {
    if grants == [] then p else Granted(GrantSender(p, grants[0]), grants[1..])
  }

  lemma {:induction false} ClosedIgnoresGrants(p: Sender, grants: seq<int>)
    requires !p.open
    ensures Granted(p, grants) == p
    decreases |grants|
  {
    if grants != [] {
      ClosedIgnoresGrants(p, grants[1..]);
    }
  }

  /** Grants fail the upload exactly when together they leave the window of sixteen, and then it is over. */
  lemma {:induction false} GrantsFailExactlyWhen(p: Sender, grants: seq<int>)
    requires p.open && !p.failed && 0 <= p.credits <= 16
    requires forall i :: 0 <= i < |grants| ==> grants[i] >= 1
    ensures var p' := Granted(p, grants);
      && (p'.failed <==> p.credits + Sum(grants) > 16)
      && (!p'.failed ==> p' == p.(credits := p.credits + Sum(grants)))
      && (p'.failed ==> !p'.open && p'.phase.Finished? && p'.credits <= 16)
    decreases |grants|
  {
    if grants != [] {
      var next := GrantSender(p, grants[0]);
      SumAtLeast(grants[1..]);
      if next.failed {
        ClosedIgnoresGrants(next, grants[1..]);
      } else {
        GrantsFailExactlyWhen(next, grants[1..]);
      }
    }
  }

  // ---------------------------------------------------------------------------
  // Interruptions
  // ---------------------------------------------------------------------------

  /** No continuation brings the upload to its end. */
  ghost predicate Over(s: Sys) {
    forall s' :: UploadCompletes.Leads(false, s, s') ==> !UploadCompletes.Complete(s')
  }

  lemma LostIsOver(source: Bytes, s: Sys)
    requires Reaches(source, s) && !UploadCompletes.Completable(s)
    ensures Over(s)
  {
    var states: seq<Sys>, steps: seq<Step> :| IsRun(source, states, steps) && states[|states| - 1] == s;
    UploadCompletes.CompletesExactlyWhenCompletable(source, states, steps, |steps|);
  }

  lemma ReachesSound(source: Bytes, s: Sys)
    requires Reaches(source, s)
    ensures UploadCompletes.Sound(s)
  {
    var states: seq<Sys>, steps: seq<Step> :| IsRun(source, states, steps) && states[|states| - 1] == s;
    UploadCompletes.RunSound(source, states, steps, |steps|);
  }

  /** A page that has not sent its end may give up silently at any moment, and then the upload is over. */
  lemma UploadMayBeAbandoned(source: Bytes, s: Sys) returns (s': Sys)
    requires Reaches(source, s) && s.sender.open
    ensures Reaches(source, s') && s'.sender.phase.Finished? && s'.up == s.up && s'.node == s.node
    ensures Over(s')
  {
    ReachesSound(source, s);
    ReachesNext(source, s, PageAbandon);
    s' := Do(s, PageAbandon);
    EndIsYetToCome(s);
    assert Inbox(s') == Inbox(s);
    LostIsOver(source, s');
  }

  lemma EndIsYetToCome(s: Sys)
    requires UploadCompletes.Sound(s) && s.sender.open
    ensures !s.node.body.ring.ended && !UploadCompletes.EndUnderWay(s) && s.node.hand != Held(ReqEnd, true)
  {
    if s.node.hand == Held(ReqEnd, true) {
      HandSplits(s);
      assert false;
    }
  }

  lemma RequestLeaves(source: Bytes, s: Sys) returns (s': Sys)
    requires Reaches(source, s)
    ensures Reaches(source, s') && !s'.node.live && s'.node.body == s.node.body && s'.sender == s.sender
  {
    var allow := !s.node.body.bodyEnded;
    ReachesNext(source, s, NodeRemove(allow));
    s' := Do(s, NodeRemove(allow));
  }

  lemma BodyStep(source: Bytes, s: Sys, inner: BodyLifecycle.Step) returns (s': Sys)
    requires Reaches(source, s) && BodyLifecycle.Can(s.node.body, inner) && Internal(s.node, inner)
    ensures Reaches(source, s') && s'.sender == s.sender
    ensures s'.node == s.node.(body := BodyLifecycle.Do(s.node.body, inner))
  {
    ReachesNext(source, s, NodeBody(inner));
    s' := Do(s, NodeBody(inner));
  }

  /** At any moment the node may remove the request, cancel it and end its body; unless the end has come by then, the
      upload is over. */
  lemma RequestMayBeRemoved(source: Bytes, s: Sys) returns (s': Sys)
    requires Reaches(source, s)
    ensures Reaches(source, s') && !s'.node.live && s'.sender == s.sender
    ensures s'.node.body == s.node.body.(bodyEnded := true, cancelled := true)
    ensures !s.node.body.ring.ended ==> Over(s')
  {
    s' := RequestLeaves(source, s);
    s' := BodyStep(source, s', BodyLifecycle.Stop);
    s' := BodyStep(source, s', BodyLifecycle.Cancel);
    if !s.node.body.ring.ended {
      LostIsOver(source, s');
    }
  }

  /** An unfinished upload may time out, which ends it, and a tombstone may be forgotten at any moment. */
  lemma UploadMayTimeOut(source: Bytes, s: Sys) returns (late: Sys)
    requires Reaches(source, s) && s.node.live && !s.node.body.bodyEnded
    ensures Reaches(source, late) && late.node.body.bodyEnded && late.node.live && late.node.tombstone.NoTombstone?
    ensures Over(late)
  {
    ReachesSound(source, s);
    ReachesNext(source, s, NodeTimeout);
    late := Do(s, NodeTimeout);
    ReachesNext(source, late, NodeForget);
    late := Do(late, NodeForget);
    LostIsOver(source, late);
  }
}
