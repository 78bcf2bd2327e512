/** Response bodies cut into frames: `wireBodyWriter` behind the compressor, `streamEncodedBytes` beside it. */
module WireBody {
  import opened ByteStrings
  import opened Limits
  import opened Codec

  /** The peer connection. Which sends fail and at which checks the request is cancelled is anyone's choice. */
  datatype Peer = Peer(refuses: nat -> bool, cancels: nat -> bool)

  /** The frames that went out, and how often a send and a check of the request's context were made. */
  datatype Line = Line(sent: seq<Bytes>, sends: nat, checks: nat)

  function Sending(l: Line, frame: Bytes, peer: Peer): Line {
    l.(sent := if peer.refuses(l.sends) then l.sent else l.sent + [frame], sends := l.sends + 1)
  }

  /** Between the two no send was refused and no cancellation seen. */
  ghost predicate Smooth(l: Line, l': Line, peer: Peer) {
    && (forall c :: l.sends <= c < l'.sends ==> !peer.refuses(c))
    && (forall c :: l.checks <= c < l'.checks ==> !peer.cancels(c))
  }

  /** The last check between the two found the request cancelled. */
  ghost predicate Stopped(l: Line, l': Line, peer: Peer) {
    l.checks < l'.checks && peer.cancels(l'.checks - 1)
  }

  /** Between the two every check but the last found the request alive, and each send came behind a check of its own
      that did. */
  ghost predicate Heeded(l: Line, l': Line, peer: Peer) {
    && l.sends <= l'.sends && l.checks <= l'.checks
    && (forall c :: l.checks <= c < l'.checks - 1 ==> !peer.cancels(c))
    && l'.sends - l.sends <= l'.checks - l.checks - (if Stopped(l, l', peer) then 1 else 0)
    && (l'.sends == l.sends ==> l'.sent == l.sent)
  }

  /** So a request that is cancelled from its `k`-th check on sends at most `k` frames. */
  lemma CancelledSendsNoMore(l: Line, l': Line, peer: Peer, k: nat)
    requires Heeded(l, l', peer) && forall c :: l.checks + k <= c ==> peer.cancels(c)
    ensures l'.sends - l.sends <= k
  {
    if l'.checks - l.checks > k {
      assert peer.cancels(l.checks + k);
    }
  }

  lemma HeededOn(a: Line, b: Line, c: Line, peer: Peer)
    requires Heeded(a, b, peer) && Smooth(a, b, peer) && Heeded(b, c, peer)
    ensures Heeded(a, c, peer)
    ensures Smooth(a, c, peer) <==> Smooth(b, c, peer)
  {
  }

  predicate AllFull(frames: seq<Bytes>) {
    forall i :: 0 <= i < |frames| ==> |frames[i]| == MAX_PAYLOAD_BYTES
  }

  // ---------------------------------------------------------------------------
  // Writing
  // ---------------------------------------------------------------------------

  /** What a write has done: `written` is what it admits to, `kept` what it has taken in. */
  datatype Writing = Writing(line: Line, pending: Bytes, written: nat, kept: nat, ok: bool)

  /** One turn of `Write`: it looks at the context, then sends a full slice of the data directly, or fills the pending
      frame and sends that once it is full. */
  function Turn(l: Line, pending: Bytes, data: Bytes, peer: Peer): Writing
    requires |pending| <= MAX_PAYLOAD_BYTES
  {
    var checked := l.(checks := l.checks + 1);
    if peer.cancels(l.checks) then Writing(checked, pending, 0, 0, false)
    else if pending == [] && |data| >= MAX_PAYLOAD_BYTES then
      var size := if peer.refuses(l.sends) then 0 else MAX_PAYLOAD_BYTES;
      Writing(Sending(checked, data[..MAX_PAYLOAD_BYTES], peer), [], size, size, !peer.refuses(l.sends))
    else
      var space := MAX_PAYLOAD_BYTES - |pending|;
      var size := if |data| < space then |data| else space;
      var filled := pending + data[..size];
      if |filled| < MAX_PAYLOAD_BYTES then Writing(checked, filled, size, size, true)
      else if peer.refuses(l.sends) then Writing(Sending(checked, filled, peer), filled, 0, size, false)
      else Writing(Sending(checked, filled, peer), [], size, size, true)
  }

  function After(done: Writing, rest: Writing): Writing {
    rest.(written := done.written + rest.written, kept := done.kept + rest.kept)
  }

  function Written(l: Line, pending: Bytes, data: Bytes, peer: Peer): Writing
    requires |pending| <= MAX_PAYLOAD_BYTES
    decreases |data|, |pending|
  {
    if data == [] then Writing(l, pending, 0, 0, true)
    else
      var turn := Turn(l, pending, data, peer);
      if !turn.ok then turn else After(turn, Written(turn.line, turn.pending, data[turn.kept..], peer))
  }

  /** The data that was taken in follows what was there, only full frames go out, and what a write admits to falls short
      of what it took in exactly when the send of a full pending frame with new bytes in it failed. */
  ghost predicate Faithful(l: Line, pending: Bytes, data: Bytes, w: Writing) {
    && w.written <= w.kept <= |data| && |w.pending| <= MAX_PAYLOAD_BYTES
    && Flatten(w.line.sent) + w.pending == Flatten(l.sent) + pending + data[..w.kept]
    && (AllFull(l.sent) ==> AllFull(w.line.sent))
    && (w.ok ==> w.written == w.kept == |data|)
    && (w.ok && |pending| < MAX_PAYLOAD_BYTES ==> |w.pending| < MAX_PAYLOAD_BYTES)
    && (|pending| < MAX_PAYLOAD_BYTES ==>
          (w.written < w.kept <==> !w.ok && |w.pending| == MAX_PAYLOAD_BYTES))
  }

  /** A turn of a write: what goes on has taken in all it admits to, and leaves room in the pending frame. */
  ghost predicate TurnFaithful(l: Line, pending: Bytes, data: Bytes, w: Writing) {
    && w.written <= w.kept <= |data| && |w.pending| <= MAX_PAYLOAD_BYTES
    && Flatten(w.line.sent) + w.pending == Flatten(l.sent) + pending + data[..w.kept]
    && (AllFull(l.sent) ==> AllFull(w.line.sent))
    && (w.ok ==> w.written == w.kept && |w.pending| < MAX_PAYLOAD_BYTES)
    && (w.ok && w.kept == 0 ==> |pending| == MAX_PAYLOAD_BYTES)
    && (!w.ok && |pending| < MAX_PAYLOAD_BYTES ==> (w.written < w.kept <==> |w.pending| == MAX_PAYLOAD_BYTES))
  }

  lemma SendsWhole(sent: seq<Bytes>, pending: Bytes, more: Bytes)
    ensures Flatten(sent + [pending + more]) + [] == Flatten(sent) + pending + more
    ensures Flatten(sent) + (pending + more) == Flatten(sent) + pending + more
  {
    FlattenSnoc(sent, pending + more);
  }

  lemma DirectTurn(l: Line, data: Bytes, peer: Peer)
    requires |data| >= MAX_PAYLOAD_BYTES && !peer.cancels(l.checks)
    ensures TurnFaithful(l, [], data, Turn(l, [], data, peer))
  {
    SendsWhole(l.sent, [], data[..MAX_PAYLOAD_BYTES]);
    assert [] + data[..MAX_PAYLOAD_BYTES] == data[..MAX_PAYLOAD_BYTES];
  }

  lemma FillingTurn(l: Line, pending: Bytes, data: Bytes, peer: Peer)
    requires |pending| <= MAX_PAYLOAD_BYTES && data != [] && !peer.cancels(l.checks)
    requires pending != [] || |data| < MAX_PAYLOAD_BYTES
    ensures TurnFaithful(l, pending, data, Turn(l, pending, data, peer))
  {
    SendsWhole(l.sent, pending, data[..Turn(l, pending, data, peer).kept]);
  }

  lemma TurnIsFaithful(l: Line, pending: Bytes, data: Bytes, peer: Peer)
    requires |pending| <= MAX_PAYLOAD_BYTES && data != []
    ensures TurnFaithful(l, pending, data, Turn(l, pending, data, peer))
  {
    if peer.cancels(l.checks) {
      assert data[..0] == [];
    } else if pending == [] && |data| >= MAX_PAYLOAD_BYTES {
      DirectTurn(l, data, peer);
    } else {
      FillingTurn(l, pending, data, peer);
    }
  }

  lemma AfterIsFaithful(l: Line, pending: Bytes, data: Bytes, turn: Writing, rest: Writing)
    requires turn.ok && TurnFaithful(l, pending, data, turn)
    requires Faithful(turn.line, turn.pending, data[turn.kept..], rest)
    ensures Faithful(l, pending, data, After(turn, rest))
  {
    var start, first, more := Flatten(l.sent) + pending, data[..turn.kept], data[turn.kept..][..rest.kept];
    assert first + more == data[..turn.kept + rest.kept];
    assert start + first + more == start + (first + more);
  }

  lemma {:induction false} WriteIsFaithful(l: Line, pending: Bytes, data: Bytes, peer: Peer)
    requires |pending| <= MAX_PAYLOAD_BYTES
    ensures Faithful(l, pending, data, Written(l, pending, data, peer))
    decreases |data|, |pending|
  {
    if data != [] {
      TurnIsFaithful(l, pending, data, peer);
      var turn := Turn(l, pending, data, peer);
      if turn.ok {
        WriteIsFaithful(turn.line, turn.pending, data[turn.kept..], peer);
        AfterIsFaithful(l, pending, data, turn, Written(turn.line, turn.pending, data[turn.kept..], peer));
      }
    }
  }

  /** Frames that `more` bytes go into when `held` are waiting already. */
  function Touched(held: nat, more: nat): nat
    requires held < MAX_PAYLOAD_BYTES
    decreases more
  {
    if more == 0 then 0
    else if held + more < MAX_PAYLOAD_BYTES then 1
    else 1 + Touched(0, more - (MAX_PAYLOAD_BYTES - held))
  }

  lemma TurnHeeds(l: Line, pending: Bytes, data: Bytes, peer: Peer)
    requires |pending| <= MAX_PAYLOAD_BYTES && data != []
    ensures var w := Turn(l, pending, data, peer);
      && w.line.checks == l.checks + 1 && Heeded(l, w.line, peer) && (w.ok <==> Smooth(l, w.line, peer))
      && (peer.cancels(l.checks) ==> !w.ok && w.kept == 0 && w.pending == pending && w.line.sends == l.sends)
      && (w.ok && |pending| < MAX_PAYLOAD_BYTES ==>
            1 + Touched(|w.pending|, |data| - w.kept) == Touched(|pending|, |data|))
      && (w.line.sends > l.sends <==> !peer.cancels(l.checks) && |pending| + |data| >= MAX_PAYLOAD_BYTES)
  {
  }

  /** A write goes through exactly when no send is refused and the request is not found cancelled. It looks at the
      request before each frame that it touches, and a cancelled one takes in and sends nothing. */
  lemma {:induction false} WriteHeedsCancel(l: Line, pending: Bytes, data: Bytes, peer: Peer)
    requires |pending| <= MAX_PAYLOAD_BYTES
    ensures var w := Written(l, pending, data, peer);
      && Heeded(l, w.line, peer) && (w.ok <==> Smooth(l, w.line, peer))
      && (data != [] && peer.cancels(l.checks) ==>
            !w.ok && w.written == w.kept == 0 && w.pending == pending && w.line == l.(checks := l.checks + 1))
      && (w.ok && |pending| < MAX_PAYLOAD_BYTES ==> w.line.checks == l.checks + Touched(|pending|, |data|))
      && (w.line.checks == l.checks <==> data == [])
      && (|pending| + |data| < MAX_PAYLOAD_BYTES ==> w.line.sends == l.sends)
    decreases |data|, |pending|
  {
    if data != [] {
      TurnIsFaithful(l, pending, data, peer);
      TurnHeeds(l, pending, data, peer);
      var turn := Turn(l, pending, data, peer);
      if turn.ok {
        var rest := data[turn.kept..];
        WriteHeedsCancel(turn.line, turn.pending, rest, peer);
        HeededOn(l, turn.line, Written(turn.line, turn.pending, rest, peer).line, peer);
      }
    }
  }

  /** What a write admits to falls short of what it has taken in exactly when the first frame it sends has bytes from
      before in it and is refused. A slice that is sent directly and refused has not been taken in. */
  lemma UnderReportsExactlyWhen(l: Line, pending: Bytes, data: Bytes, peer: Peer)
    requires |pending| < MAX_PAYLOAD_BYTES
    ensures var w := Written(l, pending, data, peer);
      w.written < w.kept <==>
        && 0 < |pending| && |pending| + |data| >= MAX_PAYLOAD_BYTES
        && !peer.cancels(l.checks) && peer.refuses(l.sends)
  {
    if data != [] {
      TurnIsFaithful(l, pending, data, peer);
      var turn := Turn(l, pending, data, peer);
      if turn.ok {
        DirectOrHeld(turn.line, turn.pending, data[turn.kept..], peer);
      }
    }
  }

  /** From an empty frame, or with too little data for a full one, nothing is taken in that is not admitted to. */
  lemma {:induction false} DirectOrHeld(l: Line, pending: Bytes, data: Bytes, peer: Peer)
    requires pending == [] || data == []
    requires |pending| < MAX_PAYLOAD_BYTES
    ensures Written(l, pending, data, peer).written == Written(l, pending, data, peer).kept
    decreases |data|
  {
    if data != [] {
      TurnIsFaithful(l, pending, data, peer);
      var turn := Turn(l, pending, data, peer);
      if turn.ok {
        DirectOrHeld(turn.line, turn.pending, data[turn.kept..], peer);
      }
    }
  }

  const REFUSING := Peer(_ => true, _ => false)

  lemma ShortWriteIsKept(first: Bytes)
    requires 0 < |first| < MAX_PAYLOAD_BYTES
    ensures Written(Line([], 0, 0), [], first, REFUSING) == Writing(Line([], 0, 1), first, |first|, |first|, true)
  {
    assert [] + first[..|first|] == first && first[|first|..] == [];
    assert Turn(Line([], 0, 0), [], first, REFUSING) == Writing(Line([], 0, 1), first, |first|, |first|, true);
  }

  /** A peer that refuses every frame: after a short write, the write that fills the frame reports nothing and yet has
      kept its bytes. */
  lemma FailedFlushUnderReports(first: Bytes, more: Bytes)
    requires 0 < |first| < MAX_PAYLOAD_BYTES <= |first| + |more|
    ensures var w := Written(Line([], 0, 0), [], first, REFUSING);
      && w.ok && w.pending == first && w.line.sends == 0
      && var w' := Written(w.line, first, more, REFUSING);
         && !w'.ok && w'.written == 0 && w'.kept == MAX_PAYLOAD_BYTES - |first| && w'.line.sent == []
         && w'.pending == first + more[..MAX_PAYLOAD_BYTES - |first|]
  {
    ShortWriteIsKept(first);
    assert !Turn(Line([], 0, 1), first, more, REFUSING).ok;
  }

  // ---------------------------------------------------------------------------
  // The objects
  // ---------------------------------------------------------------------------

  class Sender {
    var sent: seq<Bytes>
    var sends: nat
    var checks: nat
    const peer: Peer

    constructor (peer: Peer)
      ensures View() == Line([], 0, 0) && this.peer == peer
    {
      this.peer := peer;
      sent, sends, checks := [], 0, 0;
    }

    ghost function View(): Line
      reads this
    {
      Line(sent, sends, checks)
    }

    method SendBody(frame: Bytes) returns (ok: bool)
      modifies this
      ensures View() == Sending(old(View()), frame, peer) && ok == !peer.refuses(old(sends))
    {
      ok := !peer.refuses(sends);
      sends := sends + 1;
      if ok {
        sent := sent + [frame];
      }
    }

    method Cancelled() returns (cancelled: bool)
      modifies this
      ensures View() == old(View()).(checks := old(checks) + 1) && cancelled == peer.cancels(old(checks))
    {
      cancelled := peer.cancels(checks);
      checks := checks + 1;
    }
  }

  class WireBodyWriter {
    const out: Sender
    var pending: Bytes

    constructor (out: Sender)
      ensures pending == [] && this.out == out
    {
      this.out := out;
      pending := [];
    }

    /** The pending bytes become one frame, or stay pending if it is refused. */
    method Flush() returns (ok: bool)
      modifies this, out
      ensures out.View()
           == if old(pending) == [] then old(out.View()) else Sending(old(out.View()), old(pending), out.peer)
      ensures ok <==> old(pending) == [] || !out.peer.refuses(old(out.sends))
      ensures pending == if ok then [] else old(pending)
    {
      if |pending| == 0 {
        return true;
      }
      ok := out.SendBody(pending);
      if ok {
        pending := [];
      }
    }

    method Write(data: Bytes) returns (written: nat, ok: bool, ghost kept: nat)
      requires |pending| <= MAX_PAYLOAD_BYTES
      modifies this, out
      ensures Writing(out.View(), pending, written, kept, ok) == Written(old(out.View()), old(pending), data, out.peer)
    {
      written, ok, kept := 0, true, 0;
      var rest := data;
      ghost var goal := Written(out.View(), pending, data, out.peer);
      while |rest| > 0
        invariant |pending| <= MAX_PAYLOAD_BYTES && ok
        invariant goal == After(Writing(out.View(), pending, written, kept, true),
                                Written(out.View(), pending, rest, out.peer))
        decreases |rest|, |pending|
      {
        TurnIsFaithful(out.View(), pending, rest, out.peer);
        var size, taken, sent := TakeSome(rest);
        written, kept := written + size, kept + taken;
        if !sent {
          return written, false, kept;
        }
        rest := rest[size..];
      }
    }

    /** One turn of the loop in `Write`. */
    method TakeSome(data: Bytes) returns (size: nat, ghost taken: nat, ok: bool)
      requires |pending| <= MAX_PAYLOAD_BYTES && data != []
      modifies this, out
      ensures Writing(out.View(), pending, size, taken, ok) == Turn(old(out.View()), old(pending), data, out.peer)
    {
      var cancelled := out.Cancelled();
      if cancelled {
        return 0, 0, false;
      }
      if |pending| == 0 && |data| >= MAX_PAYLOAD_BYTES {
        ok := out.SendBody(data[..MAX_PAYLOAD_BYTES]);
        size := if ok then MAX_PAYLOAD_BYTES else 0;
        taken := size;
        return;
      }
      var space := MAX_PAYLOAD_BYTES - |pending|;
      size := if |data| < space then |data| else space;
      taken := size;
      pending := pending + data[..size];
      ok := true;
      if |pending| == MAX_PAYLOAD_BYTES {
        ok := Flush();
        if !ok {
          size := 0;
        }
      }
    }
  }

  /** The compressor's writes, until one fails. */
  method WriteAll(writer: WireBodyWriter, writes: seq<Bytes>) returns (ok: bool)
    requires writer.pending == [] && writer.out.sent == []
    modifies writer, writer.out
    ensures |writer.pending| <= MAX_PAYLOAD_BYTES && AllFull(writer.out.sent)
    ensures Flatten(writer.out.sent) + writer.pending <= Flatten(writes)
    ensures ok ==> |writer.pending| < MAX_PAYLOAD_BYTES
    ensures ok ==> Flatten(writer.out.sent) + writer.pending == Flatten(writes)
    ensures Heeded(old(writer.out.View()), writer.out.View(), writer.out.peer)
    ensures ok <==> Smooth(old(writer.out.View()), writer.out.View(), writer.out.peer)
    ensures writer.out.checks == old(writer.out.checks) ==> Flatten(writes) == []
  {
    var out := writer.out;
    for n := 0 to |writes|
      invariant |writer.pending| < MAX_PAYLOAD_BYTES && AllFull(out.sent)
      invariant Flatten(out.sent) + writer.pending == Flatten(writes[..n])
      invariant Heeded(old(out.View()), out.View(), out.peer) && Smooth(old(out.View()), out.View(), out.peer)
      invariant out.checks == old(out.checks) ==> Flatten(writes[..n]) == []
    {
      FlattenTaken(writes, n);
      PrefixOfWhole(writes, n + 1);
      ghost var before, held := out.View(), writer.pending;
      WriteIsFaithful(before, held, writes[n], out.peer);
      WriteHeedsCancel(before, held, writes[n], out.peer);
      var _, wrote, kept := writer.Write(writes[n]);
      HeededOn(old(out.View()), before, out.View(), out.peer);
      assert Flatten(before.sent) + held + writes[n][..kept] <= Flatten(before.sent) + held + writes[n];
      if !wrote {
        return false;
      }
      assert writes[n][..kept] == writes[n];
    }
    assert writes[..|writes|] == writes;
    ok := true;
  }

  /** Whatever the sizes of the compressor's writes, a body that goes through goes as full frames and a rest. It stops
      at the first refusal and at the first check that finds the request cancelled; only the rest is sent without
      another look. */
  method StreamWireGzip(out: Sender, writes: seq<Bytes>) returns (ok: bool)
    requires out.sent == []
    modifies out
    ensures Flatten(out.sent) <= Flatten(writes)
    ensures ok ==> Flatten(out.sent) == Flatten(writes) && Pieces(out.sent, MAX_PAYLOAD_BYTES)
    ensures !ok ==> AllFull(out.sent)
    ensures ok <==> Smooth(old(out.View()), out.View(), out.peer)
    ensures Stopped(old(out.View()), out.View(), out.peer) ==> Heeded(old(out.View()), out.View(), out.peer)
    ensures old(out.checks) <= out.checks && out.sends - old(out.sends) <= out.checks - old(out.checks) + 1
    ensures Flatten(writes) != [] && out.peer.cancels(old(out.checks)) ==>
              !ok && out.sent == [] && out.sends == old(out.sends)
  {
    var writer := new WireBodyWriter(out);
    ok := WriteAll(writer, writes);
    if ok {
      FlattenSnoc(out.sent, writer.pending);
      ok := writer.Flush();
    }
  }

  lemma PrefixOfWhole(writes: seq<Bytes>, n: nat)
    requires n <= |writes|
    ensures Flatten(writes[..n]) <= Flatten(writes)
  {
    assert writes == writes[..n] + writes[n..];
    FlattenConcat(writes[..n], writes[n..]);
  }

  lemma OneFrameMore(frames: seq<Bytes>, data: Bytes, at: nat, size: nat)
    requires at < |data| && Flatten(frames) == data[..at] && AllFull(frames)
    requires size == if |data| - at < MAX_PAYLOAD_BYTES then |data| - at else MAX_PAYLOAD_BYTES
    ensures var more := frames + [data[at..at + size]];
      && Flatten(more) == data[..at + size] && Pieces(more, MAX_PAYLOAD_BYTES)
      && (at + size < |data| ==> AllFull(more))
  {
    FlattenSnoc(frames, data[at..at + size]);
    assert data[..at] + data[at..at + size] == data[..at + size];
  }

  /** One turn of the loop over a cached body: it looks at the context, then sends the next frame. */
  method SendNext(out: Sender, data: Bytes, at: nat) returns (ok: bool, size: nat)
    requires at < |data| && Flatten(out.sent) == data[..at] && AllFull(out.sent)
    modifies out
    ensures !ok ==> out.sent == old(out.sent)
    ensures ok ==> 0 < size <= |data| - at && Flatten(out.sent) == data[..at + size]
    ensures ok ==> Pieces(out.sent, MAX_PAYLOAD_BYTES) && (at + size < |data| ==> AllFull(out.sent))
    ensures out.checks == old(out.checks) + 1
    ensures out.sends == old(out.sends) + if out.peer.cancels(old(out.checks)) then 0 else 1
    ensures ok ==> |out.sent| == |old(out.sent)| + 1
    ensures ok <==> Smooth(old(out.View()), out.View(), out.peer)
  {
    size := 0;
    var cancelled := out.Cancelled();
    if cancelled {
      return false, size;
    }
    size := if |data| - at < MAX_PAYLOAD_BYTES then |data| - at else MAX_PAYLOAD_BYTES;
    OneFrameMore(out.sent, data, at, size);
    ok := out.SendBody(data[at..at + size]);
  }

  /** A cached body is cut the same way: full frames and a rest, each behind a check of its own, until one is refused or
      the request is found cancelled. */
  method StreamEncodedBytes(out: Sender, data: Bytes) returns (ok: bool)
    requires out.sent == []
    modifies out
    ensures Flatten(out.sent) <= data && Pieces(out.sent, MAX_PAYLOAD_BYTES)
    ensures ok ==> Flatten(out.sent) == data
    ensures !ok ==> AllFull(out.sent)
    ensures ok <==> Smooth(old(out.View()), out.View(), out.peer)
    ensures Heeded(old(out.View()), out.View(), out.peer)
    ensures out.sends - old(out.sends)
         == out.checks - old(out.checks) - if Stopped(old(out.View()), out.View(), out.peer) then 1 else 0
    ensures ok ==> out.checks - old(out.checks) == |out.sent|
    ensures data != [] && out.peer.cancels(old(out.checks)) ==> !ok && out.sent == [] && out.sends == old(out.sends)
  {
    ok := true;
    var at := 0;
    while at < |data|
      invariant ok && at <= |data| && Flatten(out.sent) == data[..at] && Pieces(out.sent, MAX_PAYLOAD_BYTES)
      invariant at < |data| ==> AllFull(out.sent)
      invariant Smooth(old(out.View()), out.View(), out.peer) && old(out.checks) <= out.checks
      invariant out.sends - old(out.sends) == out.checks - old(out.checks) == |out.sent|
      invariant out.checks == old(out.checks) ==> at == 0 && out.sent == []
    {
      var size;
      ok, size := SendNext(out, data, at);
      if !ok {
        return;
      }
      at := at + size;
    }
    assert data[..at] == data;
  }
}
