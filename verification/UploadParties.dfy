/** The two ends of an upload as the objects the source keeps, proved to compute the handlers
that the step systems in `BodyLifecycle` and `Upload` are built from.
 */
module UploadParties {
  import opened Limits
  import opened ByteStrings
  import opened RequestBody
  import opened BodyLifecycle
  import opened Upload

  /** The upload half of the node's `requestState`. */
  class RequestState {
    var requestCreditsAvailable: int
    var requestCreditsPending: int
    var bodyEnded: bool
    var bodyBytes: int
    var cancelled: bool
    const body: AsyncRequestBody
    ghost var accepted: Bytes

    constructor ()
      ensures Valid() && View() == FRESH
    {
      requestCreditsAvailable, requestCreditsPending := MAX_REQUEST_CREDITS, 0;
      bodyEnded, bodyBytes, cancelled := false, 0, false;
      accepted := [];
      body := new AsyncRequestBody();
    }

    ghost predicate Valid()
      reads this, body
    {
      body.Valid()
    }

    /** The credit counters and the ring; locks and drain bookkeeping are not this object's. */
    ghost function View(): Body
      requires Valid()
      reads this, body, body.chunks
    {
      FRESH.(ring := body.View(), available := requestCreditsAvailable, pending := requestCreditsPending,
             bodyEnded := bodyEnded, bodyBytes := bodyBytes, cancelled := cancelled, accepted := accepted)
    }

    method EnqueueRequestBody(payload: Bytes) returns (rejected: bool, error: BodyError)
      requires Valid()
      modifies this, body, body.chunks
      ensures Valid()
      ensures var o := Offer(old(View()), payload);
              && rejected == o.Rejected?
              && (if rejected then error == o.error && View() == old(View()) else View() == o.body)
    {
      rejected, error := true, BodyEnded;
      if bodyEnded {
        return;
      }
      if requestCreditsAvailable == 0 {
        error := CreditExhausted;
        return;
      }
      if |payload| > MAX_REQUEST_BODY_BYTES - bodyBytes {
        error := TooLarge;
        return;
      }
      var refused, reason := body.EnqueueFrame(payload);
      if refused {
        error := RingRefused(reason);
        return;
      }
      rejected := false;
      requestCreditsAvailable := requestCreditsAvailable - 1;
      bodyBytes := bodyBytes + |payload|;
      accepted := accepted + payload;
    }

    /** Returns the grant to send, zero for none. */
    method RequestBodyChunkConsumed() returns (grant: int)
      requires Valid()
      modifies this
      ensures Valid() && (View(), grant) == ChunkConsumed(old(View()))
    {
      grant := 0;
      if bodyEnded || cancelled {
        return;
      }
      requestCreditsPending := requestCreditsPending + 1;
      if requestCreditsPending < REQUEST_CREDIT_BATCH && requestCreditsAvailable != 0 {
        return;
      }
      grant := requestCreditsPending;
      var capacity := MAX_REQUEST_CREDITS - requestCreditsAvailable;
      if grant > capacity {
        grant := capacity;
      }
      if grant == 0 {
        return;
      }
      requestCreditsPending := requestCreditsPending - grant;
      requestCreditsAvailable := requestCreditsAvailable + grant;
    }

    method EndRequestBody()
      requires Valid()
      modifies this, body
      ensures Valid() && View() == EndBody(old(View()))
    {
      if !bodyEnded {
        bodyEnded := true;
        body.End();
      }
    }
  }

  /** The state `streamRequestBody` threads through `readUploadPayload`; `chunks` is what the reader will yield. */
  class UploadReader {
    var chunks: seq<Bytes>
    var carry: Bytes
    var ended: bool

    constructor (source: seq<Bytes>)
      ensures Remaining() == Flatten(source) && !ended
    {
      chunks, carry, ended := source, [], false;
    }

    ghost function Remaining(): Bytes
      reads this
    {
      carry + Flatten(chunks)
    }

    /** Makes the reader's next chunk the carry, or records that there is none. */
    method NextChunk() returns (ok: bool)
      requires carry == []
      modifies this
      ensures ok <==> old(chunks) != []
      ensures Remaining() == old(Remaining())
      ensures ok ==> |chunks| < |old(chunks)| && ended == old(ended)
      ensures !ok ==> ended && Remaining() == []
    {
      ok := chunks != [];
      if ok {
        carry, chunks := chunks[0], chunks[1..];
      } else {
        ended := true;
      }
    }

    method TakeCarry(most: nat) returns (part: Bytes)
      requires carry != [] && most > 0
      modifies this`carry
      ensures part != [] && part + Remaining() == old(Remaining())
      ensures |part| <= most && |carry| < |old(carry)|
    {
      var take := if most <= |carry| then most else |carry|;
      part := carry[..take];
      assert part + (carry[take..] + Flatten(chunks)) == carry + Flatten(chunks);
      carry := carry[take..];
    }

    /** Gathers views until a frame is full or the source is done; no parts stands for the null payload. */
    method ReadUploadPayload() returns (parts: seq<Bytes>)
      modifies this
      ensures Flatten(parts) == NextPayload(old(Remaining()))
      ensures Flatten(parts) + Remaining() == old(Remaining())
      ensures forall i :: 0 <= i < |parts| ==> parts[i] != []
      ensures ended == (old(ended) || |old(Remaining())| < MAX_PAYLOAD_BYTES)
    {
      parts := [];
      var byteLength := 0;
      while byteLength < MAX_PAYLOAD_BYTES
        invariant byteLength == |Flatten(parts)| <= MAX_PAYLOAD_BYTES
        invariant Flatten(parts) + Remaining() == old(Remaining())
        invariant forall i :: 0 <= i < |parts| ==> parts[i] != []
        invariant ended == old(ended)
        decreases |chunks|, |carry|
      {
        if carry == [] {
          var more := NextChunk();
          if !more {
            break;
          }
          if carry == [] {
            continue;
          }
        }
        var part := TakeCarry(MAX_PAYLOAD_BYTES - byteLength);
        PartAppended(parts, part, Remaining());
        parts := parts + [part];
        byteLength := byteLength + |part|;
      }
    }

    static lemma PartAppended(parts: seq<Bytes>, part: Bytes, rest: Bytes)
      ensures Flatten(parts + [part]) == Flatten(parts) + part
      ensures Flatten(parts + [part]) + rest == Flatten(parts) + (part + rest)
    {
      FlattenConcat(parts, [part]);
      assert Flatten([part]) == part;
    }
  }

  /** The page's `UploadFlow`: credits and at most one parked `takeUploadCredit`. */
  class UploadFlow {
    var credits: int
    var parked: bool

    constructor ()
      ensures Valid() && credits == 0 && !parked
    {
      credits, parked := 0, false;
    }

    /** A parked take never overlooks a credit. */
    ghost predicate Valid()
      reads this
    {
      0 <= credits && (parked ==> credits == 0)
    }

    /** Returns false when the grant leaves the window and the request is failed. A grant always wakes the waiter.
        The payload decoder has already refused a zero count. */
    method GrantUploadCredit(count: int) returns (ok: bool)
      requires Valid() && count >= 1
      modifies this
      ensures Valid()
      ensures forall p: Sender :: p.open && !p.failed && p.credits == old(credits) ==>
                ok == !GrantSender(p, count).failed && credits == GrantSender(p, count).credits
      ensures ok ==> !parked
    {
      if count > MAX_REQUEST_CREDITS || credits > MAX_REQUEST_CREDITS - count {
        return false;
      }
      credits := credits + count;
      parked := false;
      return true;
    }

    /** One turn of `takeUploadCredit`: it takes a credit, or parks because there is none. */
    method TakeUploadCredit() returns (taken: bool)
      requires Valid() && !parked
      modifies this
      ensures Valid()
      ensures taken == (old(credits) > 0) == !parked
      ensures credits == old(credits) - if taken then 1 else 0
    {
      if credits > 0 {
        credits := credits - 1;
        return true;
      }
      parked := true;
      return false;
    }
  }
}
