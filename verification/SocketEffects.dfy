/** What becomes of a web socket's messages, over every run: who sleeps, who is woken, what gets through. */
module SocketEffects {
  import opened Options
  import opened WebSocketRing
  import opened SocketRuns

  // ---------------------------------------------------------------------------
  // The writer
  // ---------------------------------------------------------------------------

  /** The writer falls asleep exactly when it finds the queue empty, and a wake is what ends its sleep. The channel
      holds a token from a signal to the next wake. */
  lemma WriterSleepsExactlyWhen(states: seq<Socket>, steps: seq<Step>, k: nat)
    requires IsRun(states, steps) && k < |steps|
    ensures var o, o' := states[k].box, states[k + 1].box;
      && (o'.sleeping <==> (steps[k].Polls? && o.queue == []) || (o.sleeping && !steps[k].Wakes?))
      && (o'.woken <==> steps[k].Signals? || (o.woken && !steps[k].Wakes?))
  {
    assert Can(states[k], steps[k]) && states[k + 1] == Do(states[k], steps[k]);
  }

  function Signallings(steps: seq<Step>, k: nat): nat
    requires k <= |steps|
  {
    if k == 0 then 0 else Signallings(steps, k - 1) + if steps[k - 1].Signals? then 1 else 0
  }

  /** An item owes a signal exactly when it comes before any close. */
  lemma SendOwesOne(s: Socket, item: Item)
    requires Can(s, Sends(item)) && s.box.closing == Closed(UpToClose(s.sent))
    ensures var s' := Do(s, Sends(item));
      s'.box.owed - s.box.owed == |UpToClose(s'.sent)| - |UpToClose(s.sent)|
  {
    SentOneMore(s.sent, item);
  }

  lemma OthersSendNothing(s: Socket, step: Step)
    requires Can(s, step) && !step.Sends?
    ensures Do(s, step).sent == s.sent
    ensures Do(s, step).box.owed == s.box.owed - if step.Signals? then 1 else 0
  {
  }

  /** Each item that enters the queue is signalled once. */
  lemma {:induction false} ItemsAreSignalledOnce(states: seq<Socket>, steps: seq<Step>, k: nat)
    requires IsRun(states, steps) && k < |states|
    ensures Signallings(steps, k) + states[k].box.owed == |UpToClose(states[k].sent)|
  {
    if k > 0 {
      ItemsAreSignalledOnce(states, steps, k - 1);
      RunInv(states, steps, k - 1);
      assert Can(states[k - 1], steps[k - 1]) && states[k] == Do(states[k - 1], steps[k - 1]);
      if steps[k - 1].Sends? {
        SendOwesOne(states[k - 1], steps[k - 1].item);
      } else {
        OthersSendNothing(states[k - 1], steps[k - 1]);
      }
    }
  }

  /** A write hands its item over, and so does a close whatever the upstream makes of it; then, and after a failed
      write, the writer is done. */
  lemma WriteTakesEffect(states: seq<Socket>, steps: seq<Step>, k: nat)
    requires IsRun(states, steps) && k < |steps| && steps[k].Writes?
    ensures states[k].hand.Some?
    ensures var s, s', item := states[k], states[k + 1], states[k].hand.value;
      && s'.hand.None?
      && (if steps[k].ok || item.Close? then s'.handed == s.handed + [item] && s'.lost == s.lost
          else s'.handed == s.handed && s'.lost == [item])
      && (s'.done <==> item.Close? || !steps[k].ok)
  {
    assert Can(states[k], steps[k]) && states[k + 1] == Do(states[k], steps[k]);
  }

  /** The context of the socket can end a sleeping writer at any time, and from then on nothing goes upstream, whatever
      else is sent. */
  lemma SleepingWriterMayLeave(states: seq<Socket>, steps: seq<Step>)
    requires IsRun(states, steps) && states[|steps|].box.sleeping && !states[|steps|].done
    ensures exists states': seq<Socket> :: IsRun(states', steps + [Leaves])
    ensures forall states': seq<Socket>, steps': seq<Step> :: IsRun(states', steps') && steps + [Leaves] <= steps' ==>
              states'[|steps'|].done && states'[|steps'|].handed == states[|steps|].handed
  {
    var left, leaving := Extend(states, steps, Leaves);
    forall states': seq<Socket>, steps': seq<Step> | IsRun(states', steps') && steps + [Leaves] <= steps'
      ensures states'[|steps'|].done && states'[|steps'|].handed == states[|steps|].handed
    {
      PrefixStates(states, steps, states', steps', |steps|);
      assert steps'[|steps|] == (steps + [Leaves])[|steps|];
      assert states'[|steps| + 1] == Do(states'[|steps|], steps'[|steps|]);
      DoneForGood(states', steps', |steps|, |steps'|);
    }
  }

  // ---------------------------------------------------------------------------
  // What gets through
  // ---------------------------------------------------------------------------

  /** The browser sent exactly these items, none was refused, and the upstream has them through the first close. */
  predicate Through(s: Socket, items: seq<Item>) {
    s.sent == items && !s.refused && s.handed == UpToClose(items)
  }

  ghost predicate CanGetThrough(items: seq<Item>) {
    exists states: seq<Socket>, steps: seq<Step> :: IsRun(states, steps) && Through(states[|steps|], items)
  }

  predicate EachFits(items: seq<Item>) {
    forall i :: 0 <= i < |items| && items[i].Message? ==> |items[i].data| <= 1024 * 1024
  }

  /** With everything so far upstream, the next item finds an empty queue and is not refused. */
  lemma NextIsAccepted(s: Socket, items: seq<Item>, item: Item)
    requires Inv(s) && Through(s, items) && EachFits(UpToClose(items + [item]))
    ensures Can(s, Sends(item)) && !Do(s, Sends(item)).refused && Do(s, Sends(item)).sent == items + [item]
  {
    SentOneMore(items, item);
    assert s.lost + Ahead(s) == [] by {
      assert s.handed + s.lost + Ahead(s) == s.handed + (s.lost + Ahead(s));
    }
    if !s.box.closing && item.Message? {
      assert UpToClose(items + [item])[|UpToClose(items)|] == item;
      assert QueuedBytes([]) == 0;
    }
  }

  /** The writer of a run with everything upstream has left only after a close. */
  predicate LeftAfterClose(s: Socket) { s.done ==> Closed(s.handed) }

  lemma {:induction false} ItemsGetThrough(items: seq<Item>) returns (states: seq<Socket>, steps: seq<Step>)
    requires EachFits(UpToClose(items))
    ensures IsRun(states, steps) && Through(states[|steps|], items) && LeftAfterClose(states[|steps|])
    decreases |items|
  {
    if items == [] {
      states, steps := [OPEN], [];
    } else {
      var most, item := items[..|items| - 1], items[|items| - 1];
      assert most + [item] == items;
      SentOneMore(most, item);
      FitsBefore(most, item);
      states, steps := ItemsGetThrough(most);
      RunInv(states, steps, |steps|);
      NextIsAccepted(states[|steps|], most, item);
      states, steps := Extend(states, steps, Sends(item));
      RunInv(states, steps, |steps|);
      if states[|steps|].done {
        CloseIsLast(states[|steps|]);
      } else {
        states, steps := FinishesUpstream(states, steps);
      }
    }
  }

  lemma FitsBefore(most: seq<Item>, item: Item)
    requires EachFits(UpToClose(most + [item]))
    ensures EachFits(UpToClose(most))
  {
    SentOneMore(most, item);
    assert forall i :: 0 <= i < |UpToClose(most)| ==> UpToClose(most + [item])[i] == UpToClose(most)[i];
  }

  lemma FinishesUpstream(states: seq<Socket>, steps: seq<Step>) returns (states': seq<Socket>, steps': seq<Step>)
    requires IsRun(states, steps) && !states[|steps|].done && !states[|steps|].refused
    ensures IsRun(states', steps') && Through(states'[|steps'|], states[|steps|].sent)
    ensures LeftAfterClose(states'[|steps'|])
  {
    states', steps' := EverythingCanReachUpstream(states, steps);
    WriterKeepsAccepting(states', steps', |steps|, |steps'|);
    PrefixStates(states, steps, states', steps', |steps|);
  }

  /** A run is determined by its steps. */
  lemma {:induction false} PrefixStates(
      states: seq<Socket>, steps: seq<Step>, states': seq<Socket>, steps': seq<Step>, k: nat)
    requires IsRun(states, steps) && IsRun(states', steps') && steps <= steps' && k <= |steps|
    ensures states'[k] == states[k]
  {
    if k > 0 {
      PrefixStates(states, steps, states', steps', k - 1);
      assert states[k] == Do(states[k - 1], steps[k - 1]) && states'[k] == Do(states'[k - 1], steps'[k - 1]);
    }
  }

  /** The writer and its wakers refuse nothing, and leave only after a close. */
  lemma {:induction false} WriterKeepsAccepting(states: seq<Socket>, steps: seq<Step>, i: nat, j: nat)
    requires IsRun(states, steps) && i <= j < |states| && forall m :: i <= m < j ==> OfWriter(steps[m])
    ensures states[j].refused == states[i].refused
    ensures LeftAfterClose(states[i]) ==> LeftAfterClose(states[j])
    decreases j
  {
    if i < j {
      WriterKeepsAccepting(states, steps, i, j - 1);
      RunInv(states, steps, j - 1);
      assert Can(states[j - 1], steps[j - 1]) && states[j] == Do(states[j - 1], steps[j - 1]);
    }
  }

  lemma SendKeepsFitting(s: Socket, item: Item)
    requires Can(s, Sends(item)) && s.box.closing == Closed(UpToClose(s.sent)) && EachFits(UpToClose(s.sent))
    ensures EachFits(UpToClose(Do(s, Sends(item)).sent))
  {
    SentOneMore(s.sent, item);
  }

  lemma {:induction false} AcceptedFits(states: seq<Socket>, steps: seq<Step>, k: nat)
    requires IsRun(states, steps) && k < |states|
    ensures EachFits(UpToClose(states[k].sent))
  {
    if k > 0 {
      AcceptedFits(states, steps, k - 1);
      RunInv(states, steps, k - 1);
      assert Can(states[k - 1], steps[k - 1]) && states[k] == Do(states[k - 1], steps[k - 1]);
      if steps[k - 1].Sends? {
        SendKeepsFitting(states[k - 1], steps[k - 1].item);
      } else {
        OthersSendNothing(states[k - 1], steps[k - 1]);
      }
    }
  }

  /** What the browser sends can get through to its first close, in order and with nothing refused, exactly when each
      message up to there has at most 1 MiB; there may be any number of them. */
  lemma GetsThroughExactlyWhen(items: seq<Item>)
    ensures CanGetThrough(items) <==> EachFits(UpToClose(items))
  {
    if EachFits(UpToClose(items)) {
      var states, steps := ItemsGetThrough(items);
      assert IsRun(states, steps) && Through(states[|steps|], items);
    }
    if CanGetThrough(items) {
      var states: seq<Socket>, steps: seq<Step> :| IsRun(states, steps) && Through(states[|steps|], items);
      AcceptedFits(states, steps, |steps|);
    }
  }
}
