/** The three parties of a response as the objects the source keeps, each callback proved to
compute the corresponding handler of the step system in `ResponseHops`.
 */
module ResponseParties {
  import opened Limits
  import opened AdaptiveWindow
  import opened ResponseHops

  /** The closure variables of `SwBridge.request`; `posted` logs the credit messages sent to the page. */
  class ResponseStream {
    const initialCredit: int
    var targetCredit: int
    var creditBalance: int
    var queued: seq<Frame>
    var waitingForChunk: bool
    var ended: bool
    var closed: bool
    var failed: bool
    var sampleConsumed: int
    var samplePeakQueue: int
    var delivered: seq<Frame>
    var posted: seq<int>

    constructor (initial: int)
      ensures View() == NewWorker(initial)
      ensures posted == []
    {
      initialCredit := initial;
      targetCredit, creditBalance := initial, initial;
      queued, delivered, posted := [], [], [];
      waitingForChunk, ended, closed, failed := false, false, false, false;
      sampleConsumed, samplePeakQueue := 0, 0;
    }

    ghost function Credits(): Window
      reads this
    {
      Window(initialCredit, targetCredit, creditBalance, |queued|, waitingForChunk, sampleConsumed, samplePeakQueue)
    }

    ghost function View(): Worker
      reads this
    {
      Worker(Credits(), queued, delivered, ended, closed, failed)
    }

    method RefillCredit(force: bool, flushGrowth: bool)
      modifies this`creditBalance, this`posted
      ensures !ended ==> Credits() == Refill(old(Credits()), force, flushGrowth).window
      ensures !ended ==> posted == old(posted) + Refill(old(Credits()), force, flushGrowth).posts
      ensures ended ==> Credits() == old(Credits()) && posted == old(posted)
    {
      if ended {
        return;
      }
      var available := targetCredit - creditBalance - |queued|;
      if available <= 0 {
        return;
      }
      var refillThreshold := Min(CREDIT_REFILL, HalfUp(targetCredit));
      if available < refillThreshold && !flushGrowth && !(force && creditBalance == 0) {
        return;
      }
      posted := posted + [available];
      creditBalance := creditBalance + available;
    }

    method RecordConsumption(fast: bool) returns (grew: bool)
      modifies this`targetCredit, this`sampleConsumed, this`samplePeakQueue
      ensures (Credits(), grew) == Record(old(Credits()), fast)
      ensures grew <==> old(sampleConsumed >= 15 && samplePeakQueue <= 2 && targetCredit < 64) && fast
      ensures grew ==> targetCredit == Min(64, old(targetCredit) + 8)
      ensures !grew && old(sampleConsumed >= 15 && 2 * samplePeakQueue >= targetCredit > initialCredit) ==>
                targetCredit == Max(initialCredit, old(targetCredit) - 8)
      ensures !grew && !old(sampleConsumed >= 15 && 2 * samplePeakQueue >= targetCredit > initialCredit) ==>
                targetCredit == old(targetCredit)
    {
      grew := false;
      sampleConsumed := sampleConsumed + 1;
      if sampleConsumed < CREDIT_SAMPLE_FRAMES {
        return;
      }
      if fast && samplePeakQueue <= 2 && targetCredit < MAX_RESPONSE_CREDITS {
        targetCredit := Min(MAX_RESPONSE_CREDITS, targetCredit + CREDIT_GROWTH_STEP);
        grew := true;
      } else if samplePeakQueue >= HalfUp(targetCredit) && targetCredit > initialCredit {
        targetCredit := Max(initialCredit, targetCredit - CREDIT_GROWTH_STEP);
      }
      sampleConsumed := 0;
      samplePeakQueue := |queued|;
    }

    /** `refillCredit(false, recordConsumption())`, the tail of both callbacks. */
    method ConsumeOne(fast: bool)
      requires !ended
      modifies this`targetCredit, this`sampleConsumed, this`samplePeakQueue, this`creditBalance, this`posted
      ensures Credits() == Consume(old(Credits()), fast).window
      ensures posted == old(posted) + Consume(old(Credits()), fast).posts
    {
      var grew := RecordConsumption(fast);
      RefillCredit(false, grew);
    }

    method CloseIfDrained()
      modifies this`waitingForChunk, this`closed
      ensures View() == ResponseHops.CloseIfDrained(old(View()))
    {
      if !ended || queued != [] {
        return;
      }
      waitingForChunk, closed := false, true;
    }

    method OnEnd()
      requires !failed
      modifies this`ended, this`waitingForChunk, this`closed
      ensures View() == EndWorker(old(View()))
    {
      ended := true;
      CloseIfDrained();
    }

    method OnPull(fast: bool)
      requires !failed
      modifies this
      ensures (View(), posted) == (PullWorker(old(View()), fast).0, old(posted) + PullWorker(old(View()), fast).1)
    {
      if queued != [] {
        delivered := delivered + [queued[0]];
        queued := queued[1..];
        if !ended {
          ConsumeOne(fast);
        } else {
          assert posted == posted + [];
        }
        CloseIfDrained();
        return;
      }
      if ended {
        CloseIfDrained();
        assert posted == posted + [];
        return;
      }
      waitingForChunk := true;
      RefillCredit(true, false);
    }

    /** The part of `onChunk` that hands a frame straight to a waiting consumer. `reenter` is the synchronous
        `pull` that `controller.enqueue` may make; it finds an empty queue. */
    method Deliver(frame: Frame, fast: bool, reenter: bool)
      requires !failed && !ended && waitingForChunk && queued == []
      modifies this
      ensures Credits() == Consume(Pulled(old(Credits()), reenter).window, fast).window
      ensures View() == Worker(Credits(), [], old(delivered) + [frame], false, old(closed), false)
      ensures posted
           == old(posted) + (Pulled(old(Credits()), reenter).posts
                             + Consume(Pulled(old(Credits()), reenter).window, fast).posts)
    {
      waitingForChunk := false;
      delivered := delivered + [frame];
      ghost var pulled := Pulled(old(Credits()), reenter);
      if reenter {
        OnPull(false);
      }
      assert Credits() == pulled.window && posted == old(posted) + pulled.posts;
      ConsumeOne(fast);
      ghost var rest := Consume(pulled.window, fast).posts;
      assert old(posted) + pulled.posts + rest == old(posted) + (pulled.posts + rest);
    }

    ghost static function Pulled(w: Window, reenter: bool): Reply {
      var delivered := w.(waiting := false);
      if reenter then AdaptiveWindow.OnPull(delivered, false) else Reply(delivered, [], false)
    }

    /** The request is dropped and downstream sees the error. */
    method Fail()
      modifies this`queued, this`waitingForChunk, this`failed
      ensures View() == FailWorker(old(View()), old(Credits()))
    {
      queued, waitingForChunk, failed := [], false, true;
    }

    method OnChunk(frame: Frame, fast: bool, reenter: bool)
      requires !failed && !ended
      requires waitingForChunk ==> queued == []
      modifies this
      ensures (View(), posted) == (ChunkWorker(old(View()), frame, fast, reenter).0,
                                   old(posted) + ChunkWorker(old(View()), frame, fast, reenter).1)
    {
      if |frame| > MAX_PAYLOAD_BYTES || creditBalance <= 0 {
        Fail();
        assert posted == posted + [];
        return;
      }
      creditBalance := creditBalance - 1;
      if waitingForChunk {
        Deliver(frame, fast, reenter);
        return;
      }
      if |queued| >= targetCredit {
        Fail();
        assert posted == posted + [];
        return;
      }
      queued := queued + [frame];
      samplePeakQueue := Max(samplePeakQueue, |queued|);
      assert posted == posted + [];
    }
  }

  /** The page's `Outbound` entry for one request. */
  class Outbound {
    var begun: bool
    var closed: bool
    var rejected: bool
    var credit: int

    constructor (initialCredits: int)
      ensures View() == Page(true, false, false, initialCredits)
    {
      begun, closed, rejected, credit := true, false, false, initialCredits;
    }

    ghost function View(): Page
      reads this
    {
      Page(begun, closed, rejected, credit)
    }

    method OnCredit(n: int) returns (forward: seq<Credit>)
      modifies this
      ensures (View(), forward) == GrantPage(old(View()), n)
    {
      forward := [];
      if closed || rejected {
        return;
      }
      if n <= 0 || n > MAX_RESPONSE_CREDITS || credit > MAX_RESPONSE_CREDITS - n {
        rejected := true;
        return;
      }
      credit := credit + n;
      forward := [Grant(n)];
    }

    method OnResBody(frame: Frame) returns (forward: seq<Answer>)
      modifies this
      ensures (View(), forward) == BodyPage(old(View()), frame)
    {
      forward := [];
      if closed || rejected {
        return;
      }
      if credit <= 0 {
        rejected := true;
        return;
      }
      credit := credit - 1;
      forward := [Body(frame)];
    }

    method OnResEnd() returns (forward: seq<Answer>)
      modifies this
      ensures (View(), forward) == EndPage(old(View()))
    {
      forward := [];
      if closed || rejected {
        return;
      }
      closed := true;
      forward := [End];
    }
  }
}
