/** The wire format that the page and the node share: `[u8 type][u32be request id][payload]`. */
module Codec {
  import opened ByteStrings
  import opened Limits

  const U32: nat := 0x1_0000_0000
  const CREDIT: nat := 9
  const REQ_CREDIT: nat := 10

  datatype Frame = Frame(kind: int, id: int, payload: Bytes)

  datatype Error = UnknownType | InvalidId | PayloadTooLarge | FrameTooLarge | ShortFrame | BufferTooSmall
    | NotACreditFrame | InvalidCredit | InvalidChunkSize

  datatype Result<T> = Ok(value: T) | Err(error: Error)

  predicate KnownType(kind: int) {
    1 <= kind <= 14
  }

  predicate ValidId(id: int) {
    1 <= id < U32
  }

  predicate ValidFrame(f: Frame) {
    KnownType(f.kind) && ValidId(f.id) && |f.payload| <= MAX_PAYLOAD_BYTES
  }

  // ---- Big-endian words ----

  function PutUint32(n: int): (b: Bytes)
    requires 0 <= n < U32
    ensures |b| == 4
  {
    [n / 256 / 256 / 256, n / 256 / 256 % 256, n / 256 % 256, n % 256]
  }

  function Join(high: nat, low: Byte): nat {
    high * 256 + low
  }

  function Uint32(b: Bytes): (n: nat)
    requires |b| == 4
    ensures n < U32
  {
    Join(Join(Join(b[0], b[1]), b[2]), b[3])
  }

  lemma JoinSplits(high: nat, low: Byte)
    ensures Join(high, low) / 256 == high && Join(high, low) % 256 == low
  {
  }

  lemma WordRoundTrip(n: int)
    requires 0 <= n < U32
    ensures Uint32(PutUint32(n)) == n
  {
    assert Join(n / 256 / 256 / 256, n / 256 / 256 % 256) == n / 256 / 256;
    assert Join(n / 256 / 256, n / 256 % 256) == n / 256;
  }

  lemma WordIsItsBytes(b: Bytes)
    requires |b| == 4
    ensures PutUint32(Uint32(b)) == b
  {
    var high := Join(b[0], b[1]);
    JoinSplits(b[0], b[1]);
    JoinSplits(high, b[2]);
    JoinSplits(Join(high, b[2]), b[3]);
  }

  // ---- Frames ----

  function HeaderError(kind: int, id: int): (r: Result<()>)
    ensures r.Ok? <==> KnownType(kind) && ValidId(id)
  {
    if !KnownType(kind) then Err(UnknownType)
    else if !ValidId(id) then Err(InvalidId)
    else Ok(())
  }

  function Header(kind: int, id: int): (h: Bytes)
    requires KnownType(kind) && ValidId(id)
    ensures |h| == HEADER_BYTES
  {
    [kind] + PutUint32(id)
  }

  function Encode(f: Frame): Result<Bytes> {
    match HeaderError(f.kind, f.id)
    case Err(e) => Err(e)
    case Ok(_) =>
      if |f.payload| > MAX_PAYLOAD_BYTES then Err(PayloadTooLarge)
      else Ok(Header(f.kind, f.id) + f.payload)
  }

  function Decode(data: Bytes): Result<Frame> {
    if |data| > MAX_FRAME_BYTES then Err(FrameTooLarge)
    else if |data| < HEADER_BYTES then Err(ShortFrame)
    else if !KnownType(data[0]) then Err(UnknownType)
    else
      var id := Uint32(data[1..5]);
      if !ValidId(id) then Err(InvalidId) else Ok(Frame(data[0], id, data[HEADER_BYTES..]))
  }

  /** Encoding accepts exactly the valid frames and decoding gives back what went in. */
  lemma EncodeRoundTrip(f: Frame)
    ensures Encode(f).Ok? <==> ValidFrame(f)
    ensures Encode(f).Ok? ==> |Encode(f).value| <= MAX_FRAME_BYTES && Decode(Encode(f).value) == Ok(f)
  {
    if ValidFrame(f) {
      var data := Encode(f).value;
      WordRoundTrip(f.id);
      assert data[1..5] == PutUint32(f.id);
      assert data[HEADER_BYTES..] == f.payload;
    }
  }

  /** The number that four bytes stand for, the most significant first. */
  function BigEndian(a: int, b: int, c: int, d: int): int {
    a * 0x100_0000 + b * 0x1_0000 + c * 0x100 + d
  }

  /** A byte string is a frame exactly when it has the five bytes of a header and at most 128 KiB, its first byte is
      one of the fourteen frame types, and the next four are not all zero. Each defect has its own error, the length
      first, then the type, then the id. */
  lemma DecodesExactlyWhen(data: Bytes)
    ensures var lengthFits := 5 <= |data| <= 128 * 1024;
      && (Decode(data) == Err(FrameTooLarge) <==> |data| > 128 * 1024)
      && (Decode(data) == Err(ShortFrame) <==> |data| < 5)
      && (Decode(data) == Err(UnknownType) <==>
            lengthFits && data[0] !in {1, 2, 3, 4, 5, 6, 7, 8, 9, 10, 11, 12, 13, 14})
      && (Decode(data) == Err(InvalidId) <==>
            lengthFits && 1 <= data[0] <= 14 && BigEndian(data[1], data[2], data[3], data[4]) == 0)
      && (Decode(data).Ok? <==>
            lengthFits && 1 <= data[0] <= 14 && BigEndian(data[1], data[2], data[3], data[4]) != 0)
  {
    if 5 <= |data| {
      assert data[1..5] == [data[1], data[2], data[3], data[4]];
      assert Uint32(data[1..5]) == BigEndian(data[1], data[2], data[3], data[4]);
    }
  }

  /** A frame is encoded exactly when it is valid. Each defect has its own error, the type first, then the id, then the
      length. */
  lemma EncodesExactlyWhen(f: Frame)
    ensures var known, numbered := 1 <= f.kind <= 14, 1 <= f.id <= 0xFFFF_FFFF;
      && (Encode(f) == Err(UnknownType) <==> !known)
      && (Encode(f) == Err(InvalidId) <==> known && !numbered)
      && (Encode(f) == Err(PayloadTooLarge) <==> known && numbered && |f.payload| > 128 * 1024 - 5)
      && (Encode(f).Ok? <==> known && numbered && |f.payload| <= 128 * 1024 - 5)
  {
  }

  /** The layout on the wire: type, request id with its most significant byte first, payload. */
  lemma WireLayout(f: Frame)
    requires ValidFrame(f)
    ensures var data := Encode(f).value;
      && |data| == 5 + |f.payload| && data[0] == f.kind && data[5..] == f.payload
      && f.id == BigEndian(data[1], data[2], data[3], data[4])
  {
    var data := Encode(f).value;
    WordRoundTrip(f.id);
    assert data[1..5] == PutUint32(f.id);
    assert data[1] == data[1..5][0] && data[2] == data[1..5][1] && data[3] == data[1..5][2] && data[4] == data[1..5][3];
    assert Uint32(data[1..5]) == f.id;
  }

  /** A byte string decodes to a frame exactly when it is the encoding of that frame. */
  lemma DecodesExactlyEncodings(data: Bytes, f: Frame)
    ensures Decode(data) == Ok(f) <==> Encode(f) == Ok(data)
  {
    if Decode(data) == Ok(f) {
      WordIsItsBytes(data[1..5]);
      assert data == [data[0]] + data[1..5] + data[HEADER_BYTES..];
    }
    if Encode(f) == Ok(data) {
      EncodeRoundTrip(f);
    }
  }

  /** No two frames share an encoding. */
  lemma EncodingIsUnique(f: Frame, g: Frame)
    requires Encode(f).Ok? && Encode(f) == Encode(g)
    ensures f == g
  {
    DecodesExactlyEncodings(Encode(f).value, f);
    DecodesExactlyEncodings(Encode(f).value, g);
  }

  // ---- Encoding from chunks ----

  /** The parts of the scan over the chunks: the nonempty ones, or the first excess. */
  method CollectParts(chunks: seq<Bytes>) returns (r: Result<seq<Bytes>>, payloadBytes: nat)
    ensures r.Ok? <==> |Flatten(chunks)| <= MAX_PAYLOAD_BYTES
    ensures r.Ok? ==> Flatten(r.value) == Flatten(chunks) && payloadBytes == |Flatten(chunks)|
    ensures r.Err? ==> r.error == PayloadTooLarge
  {
    var parts: seq<Bytes> := [];
    payloadBytes := 0;
    for n := 0 to |chunks|
      invariant Flatten(parts) == Flatten(chunks[..n]) && payloadBytes == |Flatten(parts)| <= MAX_PAYLOAD_BYTES
    {
      var chunk := chunks[n];
      FlattenTaken(chunks, n);
      if |chunk| > MAX_PAYLOAD_BYTES - payloadBytes {
        return Err(PayloadTooLarge), payloadBytes;
      }
      if |chunk| == 0 {
        continue;
      }
      FlattenSnoc(parts, chunk);
      parts := parts + [chunk];
      payloadBytes := payloadBytes + |chunk|;
    }
    assert chunks[..|chunks|] == chunks;
    return Ok(parts), payloadBytes;
  }

  /** Writing one view into the buffer at an offset leaves the rest of it alone. */
  method SetAt(buffer: array<Byte>, part: Bytes, offset: nat)
    requires offset + |part| <= buffer.Length
    modifies buffer
    ensures buffer[..] == old(buffer[..offset]) + part + old(buffer[offset + |part|..])
  {
    forall i | 0 <= i < |part| {
      buffer[offset + i] := part[i];
    }
  }

  /** Encoding straight from the chunks equals encoding their concatenation. */
  method EncodeFrameChunks(kind: int, id: int, chunks: seq<Bytes>) returns (r: Result<Bytes>)
    ensures r == Encode(Frame(kind, id, Flatten(chunks)))
  {
    var header := HeaderError(kind, id);
    if header.Err? {
      return Err(header.error);
    }
    var collected, payloadBytes := CollectParts(chunks);
    if collected.Err? {
      return Err(collected.error);
    }
    var parts := collected.value;
    var frame := new Byte[HEADER_BYTES + payloadBytes](_ => 0);
    SetAt(frame, Header(kind, id), 0);
    var offset := HEADER_BYTES;
    for n := 0 to |parts|
      invariant offset == HEADER_BYTES + |Flatten(parts[..n])| <= frame.Length
      invariant frame[..offset] == Header(kind, id) + Flatten(parts[..n])
    {
      FlattenTaken(parts, n);
      SetAt(frame, parts[n], offset);
      offset := offset + |parts[n]|;
    }
    assert parts[..|parts|] == parts;
    assert frame[..] == frame[..offset];
    return Ok(frame[..]);
  }

  // ---- Encoding in place ----

  /** The payload bytes that `copy` finds once the header is in the buffer. */
  function Seen(payload: Bytes, shared: bool, at: nat, header: Bytes): (seen: Bytes)
    ensures |seen| == |payload|
  {
    if shared && at < |header| then
      var n := if |payload| < |header| - at then |payload| else |header| - at;
      header[at..at + n] + payload[n..]
    else payload
  }

  lemma SeenAt(payload: Bytes, shared: bool, at: nat, header: Bytes)
    ensures forall i :: 0 <= i < |payload| ==>
      Seen(payload, shared, at, header)[i] == if shared && at + i < |header| then header[at + i] else payload[i]
  {
  }

  lemma HeaderOverPayload(before: Bytes, header: Bytes, at: nat, n: nat)
    requires |header| <= |before| && at + n <= |before|
    ensures (header + before[|header|..])[at..at + n] == Seen(before[at..at + n], true, at, header)
  {
    var now := (header + before[|header|..])[at..at + n];
    SeenAt(before[at..at + n], true, at, header);
    assert forall i :: 0 <= i < n ==> now[i] == if at + i < |header| then header[at + i] else before[at + i];
  }

  lemma FrameLayout(before: Bytes, header: Bytes, payload: Bytes)
    requires |header| + |payload| <= |before|
    ensures var begun := header + before[|header|..];
      var frame := begun[..|header|] + payload + begun[|header| + |payload|..];
      && |frame| == |before|
      && frame[..|header| + |payload|] == header + payload
      && frame[|header| + |payload|..] == before[|header| + |payload|..]
  {
  }

  /** Header first, then a move of the payload, which may be part of the same buffer.

  `source[at..at + n]` is the payload. Nothing past the frame is touched.
   */
  method EncodeFrameInto(out: array<Byte>, kind: int, id: int, source: array<Byte>, at: nat, n: nat)
    returns (r: Result<nat>)
    requires at + n <= source.Length
    modifies out
    ensures match HeaderError(kind, id)
      case Err(e) => r == Err(e)
      case Ok(_) =>
        if n > MAX_PAYLOAD_BYTES then r == Err(PayloadTooLarge)
        else if out.Length < HEADER_BYTES + n then r == Err(BufferTooSmall)
        else r == Ok(HEADER_BYTES + n)
    ensures r.Err? ==> out[..] == old(out[..])
    ensures r.Ok? ==> var header := Header(kind, id);
      && r.value == HEADER_BYTES + n <= out.Length
      && out[..r.value] == header + Seen(old(source[at..at + n]), source == out, at, header)
      && out[r.value..] == old(out[r.value..])
  {
    var check := HeaderError(kind, id);
    if check.Err? {
      return Err(check.error);
    }
    if n > MAX_PAYLOAD_BYTES {
      return Err(PayloadTooLarge);
    }
    var frameSize := HEADER_BYTES + n;
    if out.Length < frameSize {
      return Err(BufferTooSmall);
    }
    var header := Header(kind, id);
    SetAt(out, header, 0);
    assert out[..] == header + old(out[..])[HEADER_BYTES..];
    var payload := source[at..at + n];
    if source == out {
      HeaderOverPayload(old(out[..]), header, at, n);
    }
    FrameLayout(old(out[..]), header, payload);
    SetAt(out, payload, HEADER_BYTES);
    return Ok(frameSize);
  }

  /** In-place encoding is the pure encoding unless the header overwrote a payload byte with another.

  A payload in a buffer of its own, or standing where the frame wants it, is always safe.
   */
  lemma InPlaceExactlyWhen(f: Frame, shared: bool, at: nat)
    requires ValidFrame(f)
    ensures var header := Header(f.kind, f.id);
      Ok(header + Seen(f.payload, shared, at, header)) == Encode(f) <==>
      !shared || forall i :: at <= i < HEADER_BYTES && i - at < |f.payload| ==> f.payload[i - at] == header[i]
    ensures !shared || at >= HEADER_BYTES ==>
      Seen(f.payload, shared, at, Header(f.kind, f.id)) == f.payload
  {
    var header := Header(f.kind, f.id);
    var seen := Seen(f.payload, shared, at, header);
    assert (header + seen)[HEADER_BYTES..] == seen;
    assert (header + f.payload)[HEADER_BYTES..] == f.payload;
    SeenAt(f.payload, shared, at, header);
    if seen == f.payload {
      forall i | shared && at <= i < HEADER_BYTES && i - at < |f.payload| ensures f.payload[i - at] == header[i] {
        assert seen[i - at] == header[at + (i - at)];
      }
    }
  }

  // ---- Credit payloads ----

  function EncodeCredit(amount: int): Result<Bytes> {
    if 1 <= amount < U32 then Ok(PutUint32(amount)) else Err(InvalidCredit)
  }

  function DecodeCredit(payload: Bytes): Result<int> {
    if |payload| != 4 then Err(InvalidCredit)
    else
      var amount := Uint32(payload);
      if amount == 0 then Err(InvalidCredit) else Ok(amount)
  }

  lemma CreditDecodesExactly(payload: Bytes, amount: int)
    ensures DecodeCredit(payload) == Ok(amount) <==> EncodeCredit(amount) == Ok(payload)
  {
    if |payload| == 4 {
      WordIsItsBytes(payload);
    }
    if 1 <= amount < U32 {
      WordRoundTrip(amount);
    }
  }

  function EncodeCreditFrame(kind: int, id: int, count: int): Result<Bytes>
    requires 0 <= count < U32
  {
    if kind != CREDIT && kind != REQ_CREDIT then Err(NotACreditFrame)
    else if count == 0 then Err(InvalidCredit)
    else Encode(Frame(kind, id, PutUint32(count)))
  }

  /** What the node sends as a grant, the page reads as that grant for that request; only the two credit types carry
      one, and it is never zero. */
  lemma CreditFrameRoundTrip(kind: int, id: int, count: int)
    requires 0 <= count < U32
    ensures EncodeCreditFrame(kind, id, count).Ok? <==> kind in {9, 10} && count > 0 && ValidId(id)
    ensures EncodeCreditFrame(kind, id, count) == Err(NotACreditFrame) <==> kind !in {9, 10}
    ensures EncodeCreditFrame(kind, id, count) == Err(InvalidCredit) <==> kind in {9, 10} && count == 0
    ensures var r := EncodeCreditFrame(kind, id, count);
      r.Ok? ==> Decode(r.value) == Ok(Frame(kind, id, PutUint32(count))) && DecodeCredit(PutUint32(count)) == Ok(count)
  {
    EncodeRoundTrip(Frame(kind, id, PutUint32(count)));
    WordRoundTrip(count);
  }

  /** On the wire a credit for a response has type 9 and one for an upload type 10, and both are the number itself, its
      most significant byte first. */
  lemma CreditOnTheWire(kind: int, id: int, count: int)
    requires kind in {9, 10} && ValidId(id) && 1 <= count < U32
    ensures EncodeCreditFrame(kind, id, count).Ok?
    ensures var data := EncodeCreditFrame(kind, id, count).value;
      && |data| == 9 && data[0] == kind && id == BigEndian(data[1], data[2], data[3], data[4])
      && count == BigEndian(data[5], data[6], data[7], data[8])
  {
    CreditFrameRoundTrip(kind, id, count);
    WireLayout(Frame(kind, id, PutUint32(count)));
    var data := EncodeCreditFrame(kind, id, count).value;
    WordRoundTrip(count);
    assert data[5..] == PutUint32(count);
    assert data[5] == data[5..][0] && data[6] == data[5..][1] && data[7] == data[5..][2] && data[8] == data[5..][3];
  }

  // ---- Splitting a body ----

  /** Every piece is full but the last, and none is empty. */
  predicate Pieces(chunks: seq<Bytes>, max: int) {
    && (forall i :: 0 <= i < |chunks| ==> 0 < |chunks[i]| <= max)
    && (forall i :: 0 <= i < |chunks| - 1 ==> |chunks[i]| == max)
  }

  method ChunkBody(body: Bytes, max: int) returns (r: Result<seq<Bytes>>)
    ensures r.Ok? <==> max >= 1
    ensures r.Ok? ==> Flatten(r.value) == body && Pieces(r.value, max)
    ensures r.Err? ==> r.error == InvalidChunkSize
  {
    if max < 1 {
      return Err(InvalidChunkSize);
    }
    var chunks: seq<Bytes> := [];
    var offset := 0;
    while offset < |body|
      invariant 0 <= offset && Pieces(chunks, max)
      invariant Flatten(chunks) == body[..if offset < |body| then offset else |body|]
      invariant offset < |body| ==> forall i :: 0 <= i < |chunks| ==> |chunks[i]| == max
    {
      var end := if offset + max < |body| then offset + max else |body|;
      var piece := body[offset..end];
      FlattenSnoc(chunks, piece);
      assert body[..offset] + piece == body[..end];
      chunks := chunks + [piece];
      offset := offset + max;
    }
    assert body[..|body|] == body;
    return Ok(chunks);
  }

  /** Two ways of cutting one body into pieces of one size are the same way. */
  lemma {:induction false} PiecesAreUnique(a: seq<Bytes>, b: seq<Bytes>, max: int)
    requires Pieces(a, max) && Pieces(b, max) && Flatten(a) == Flatten(b)
    ensures a == b
    decreases |a|
  {
    if a == [] || b == [] {
      EmptyPieces(a);
      EmptyPieces(b);
    } else {
      FirstPiece(a, max);
      FirstPiece(b, max);
      var body := Flatten(a);
      assert a[0] == body[..|a[0]|] && b[0] == body[..|b[0]|];
      assert |a[0]| == |b[0]|;
      assert Flatten(a[1..]) == body[|a[0]|..] == Flatten(b[1..]);
      PiecesAreUnique(a[1..], b[1..], max);
      assert a == [a[0]] + a[1..] && b == [b[0]] + b[1..];
    }
  }

  lemma EmptyPieces(a: seq<Bytes>)
    ensures (forall i :: 0 <= i < |a| ==> 0 < |a[i]|) && Flatten(a) == [] ==> a == []
  {
  }

  lemma FirstPiece(a: seq<Bytes>, max: int)
    requires a != [] && Pieces(a, max)
    ensures Flatten(a) == a[0] + Flatten(a[1..]) && Pieces(a[1..], max)
    ensures |a[0]| == if |Flatten(a)| < max then |Flatten(a)| else max
  {
  }

  // ---- Request ids ----

  /** The id of request number `k`, counted from zero. */
  function IdAt(k: nat): (id: nat)
    ensures ValidId(id)
  {
    1 + k % (U32 - 1)
  }

  class RequestIds {
    var next: int
    ghost var issued: nat

    constructor ()
      ensures Valid() && issued == 0
    {
      next, issued := 1, 0;
    }

    ghost predicate Valid()
      reads this
    {
      next == IdAt(issued)
    }

    method Take() returns (id: int)
      requires Valid()
      modifies this
      ensures Valid() && id == IdAt(old(issued)) && issued == old(issued) + 1
    {
      id := next;
      IdAfter(issued);
      next := if next == 0xffff_ffff then 1 else next + 1;
      issued := issued + 1;
    }
  }

  lemma IdAfter(k: nat)
    ensures IdAt(k + 1) == if IdAt(k) == 0xffff_ffff then 1 else IdAt(k) + 1
  {
  }

  /** An id comes back only after every other id has been used. */
  lemma SameIdIsFar(j: nat, k: nat)
    requires j < k && IdAt(j) == IdAt(k)
    ensures k - j >= U32 - 1
  {
    var m := U32 - 1;
    assert k - j == (k / m - j / m) * m;
  }
}
