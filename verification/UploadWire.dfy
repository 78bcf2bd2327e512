/** The upload lane as bytes: what the page encodes from its parts is what the node decodes.

`Upload` reasons about messages on an ordered lane. Here each message is a frame of the wire format,
and at every moment of every run the encoded lane decodes to the lane.
 */
module UploadWire {
  import opened ByteStrings
  import opened Limits
  import opened Upload
  import Codec

  const REQ_BODY := 2
  const REQ_END := 3
  const CANCEL := 8

  function FrameOf(m: UpMsg, id: int): Codec.Frame {
    match m
    case ReqBody(payload) => Codec.Frame(REQ_BODY, id, payload)
    case ReqEnd => Codec.Frame(REQ_END, id, [])
    case CancelMsg => Codec.Frame(CANCEL, id, [])
  }

  /** How `OnMessage` reads a decoded frame; any other type is not an upload message. */
  function MessageOf(f: Codec.Frame): seq<UpMsg> {
    if f.kind == REQ_BODY then [ReqBody(f.payload)]
    else if f.kind == REQ_END then [ReqEnd]
    else if f.kind == CANCEL then [CancelMsg]
    else []
  }

  /** The page's side: one encoded frame for each message that fits. */
  function Encoded(msgs: seq<UpMsg>, id: int): seq<Bytes> {
    if msgs == [] then []
    else
      var rest := Encoded(msgs[1..], id);
      match Codec.Encode(FrameOf(msgs[0], id))
      case Ok(data) => [data] + rest
      case Err(_) => rest
  }

  /** The node's side: undecodable frames and frames of other requests are not messages of this one. */
  function Decoded(datas: seq<Bytes>, id: int): seq<UpMsg> {
    if datas == [] then []
    else
      var rest := Decoded(datas[1..], id);
      match Codec.Decode(datas[0])
      case Ok(f) => (if f.id == id then MessageOf(f) else []) + rest
      case Err(_) => rest
  }

  predicate PayloadsFit(msgs: seq<UpMsg>) {
    forall i :: 0 <= i < |msgs| ==> msgs[i].ReqBody? ==> |msgs[i].payload| <= MAX_PAYLOAD_BYTES
  }

  /** Encoding a lane and decoding it gives the lane back. */
  lemma {:induction false} LaneRoundTrip(msgs: seq<UpMsg>, id: int)
    requires PayloadsFit(msgs) && Codec.ValidId(id)
    ensures |Encoded(msgs, id)| == |msgs| && Decoded(Encoded(msgs, id), id) == msgs
    decreases |msgs|
  {
    if msgs != [] {
      LaneRoundTrip(msgs[1..], id);
      var f := FrameOf(msgs[0], id);
      Codec.EncodeRoundTrip(f);
      var datas, rest := Encoded(msgs, id), Encoded(msgs[1..], id);
      assert datas == [Codec.Encode(f).value] + rest && datas[1..] == rest;
      assert MessageOf(f) == [msgs[0]];
      assert [msgs[0]] + msgs[1..] == msgs;
    }
  }

  /** On the wire a body frame has type 2, the end type 3 and a cancel type 8, each behind a five-byte header. */
  lemma MessageTypesOnTheWire(m: UpMsg, id: int)
    requires PayloadsFit([m]) && Codec.ValidId(id)
    ensures |Encoded([m], id)| == 1
    ensures var data := Encoded([m], id)[0];
      && |data| == 5 + (if m.ReqBody? then |m.payload| else 0)
      && data[0] == (match m case ReqBody(_) => 2 case ReqEnd => 3 case CancelMsg => 8)
      && data[5..] == (if m.ReqBody? then m.payload else [])
      && id == Codec.BigEndian(data[1], data[2], data[3], data[4])
  {
    assert [m][1..] == [] && Encoded([], id) == [];
    assert m.ReqBody? ==> |[m][0].payload| <= MAX_PAYLOAD_BYTES;
    Codec.EncodeRoundTrip(FrameOf(m, id));
    Codec.WireLayout(FrameOf(m, id));
    assert Encoded([m], id) == [Codec.Encode(FrameOf(m, id)).value];
  }

  /** And a frame of this request is read as what its type says; a frame of another request, or of none, is not read. */
  lemma FramesAreReadByType(data: Bytes, id: int)
    ensures var read := Decoded([data], id);
      var ours := Codec.Decode(data).Ok? && Codec.BigEndian(data[1], data[2], data[3], data[4]) == id;
      read == if !ours then [] else if data[0] == 2 then [ReqBody(data[5..])] else if data[0] == 3 then [ReqEnd]
              else if data[0] == 8 then [CancelMsg] else []
  {
    assert [data][1..] == [] && Decoded([], id) == [];
    Codec.DecodesExactlyWhen(data);
    if Codec.Decode(data).Ok? {
      Codec.DecodesExactlyEncodings(data, Codec.Decode(data).value);
      Codec.EncodeRoundTrip(Codec.Decode(data).value);
      Codec.WireLayout(Codec.Decode(data).value);
    }
  }

  lemma HandleKeepsLane(s: Sys, allow: bool)
    requires !s.node.hand.Nothing?
    ensures Handle(s, allow).up == s.up
  {
  }

  lemma StepKeepsPayloadsFit(s: Sys, step: Step)
    requires SenderOk(s.sender) && PayloadsFit(s.up) && Can(s, step)
    ensures PayloadsFit(Do(s, step).up)
  {
    match step
    case NodeHandle(allow) => HandleKeepsLane(s, allow);
    case NodeLookup => assert forall i :: 0 <= i < |s.up| - 1 ==> s.up[1..][i] == s.up[i + 1];
    case _ =>
  }

  lemma {:induction false} RunPayloadsFit(source: Bytes, states: seq<Sys>, steps: seq<Step>, k: nat)
    requires IsRun(source, states, steps) && k < |states|
    ensures PayloadsFit(states[k].up)
    decreases k
  {
    if k > 0 {
      RunPayloadsFit(source, states, steps, k - 1);
      RunInv(source, states, steps, k - 1);
      assert Linked(states, steps, k - 1);
      StepKeepsPayloadsFit(states[k - 1], steps[k - 1]);
    }
  }

  /** At every moment of every upload the bytes on the lane decode to exactly the messages on it. */
  lemma WireCarriesTheLane(source: Bytes, states: seq<Sys>, steps: seq<Step>, k: nat, id: int)
    requires IsRun(source, states, steps) && k < |states| && Codec.ValidId(id)
    ensures Decoded(Encoded(states[k].up, id), id) == states[k].up
  {
    RunPayloadsFit(source, states, steps, k);
    LaneRoundTrip(states[k].up, id);
  }

  /** The frame that `streamRequestBody` encodes straight from the parts it gathered is the message the lane carries:
      re-chunking, encoding and decoding lose nothing of the next payload. */
  method EncodeNextPayload(parts: seq<Bytes>, ghost rest: Bytes, id: int) returns (data: Bytes)
    requires Codec.ValidId(id) && Flatten(parts) == NextPayload(rest)
    ensures Codec.Decode(data) == Codec.Ok(FrameOf(ReqBody(NextPayload(rest)), id))
    ensures Decoded([data], id) == [ReqBody(NextPayload(rest))]
  {
    var r := Codec.EncodeFrameChunks(REQ_BODY, id, parts);
    Codec.EncodeRoundTrip(Codec.Frame(REQ_BODY, id, Flatten(parts)));
    data := r.value;
    assert [data][1..] == [];
  }
}
