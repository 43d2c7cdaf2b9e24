/** The gateway's conversions, and a message's whole way: chunks in, frames across, chunks out. */
module EndToEnd {
  import opened Bytes
  import opened ChunkFormat
  import opened ChunkWriter
  import opened ChunkSession
  import Frame
  import FrameStream
  import FrameDelivery
  import ChunkReader
  import Varint

  function ToFrame(m: Message, flow: u64): Frame.Frame {
    Frame.Frame(flow, m.timestamp, m.typ, m.streamId, m.csid, m.payload)
  }

  /** None when a field does not fit the RTMP header. */
  function ToRtmp(f: Frame.Frame): Option<Message> {
    if f.timestamp >= U32_SPAN || f.streamId >= U32_SPAN || f.chunkStreamId >= U32_SPAN then None
    else Some(Message(f.timestamp, f.typ, f.streamId, f.chunkStreamId, f.payload))
  }

  /** The bridge loses nothing that came from RTMP, and refuses exactly what RTMP cannot express:
      whatever it accepts was the image of the message it returns. */
  lemma BridgeRoundTrip(f: Frame.Frame, m: Message)
    ensures ToRtmp(f) == Some(m) <==> f == ToFrame(m, f.flowId)
    ensures f == ToFrame(m, f.flowId) <==>
            && f.timestamp == m.timestamp && f.typ == m.typ && f.payload == m.payload
            && f.streamId == m.streamId && f.chunkStreamId == m.csid
  {
  }

  function ToFrames(ms: seq<Message>, flow: u64): (fs: seq<Frame.Frame>)
    ensures |fs| == |ms|
    ensures forall i :: 0 <= i < |ms| ==> fs[i] == ToFrame(ms[i], flow)
  {
    if ms == [] then [] else [ToFrame(ms[0], flow)] + ToFrames(ms[1..], flow)
  }

  /** The client's send loop: frames that cannot be encoded are skipped. */
  function SendAll(fs: seq<Frame.Frame>): bytes {
    if fs == [] then []
    else (if Frame.Encodable(fs[0]) then Frame.Encode(fs[0]) else []) + SendAll(fs[1..])
  }

  /** The receiving gateway: frames that are no RTMP messages are skipped. */
  function ToMessages(fs: seq<Frame.Frame>): seq<Message> {
    if fs == [] then []
    else (match ToRtmp(fs[0]) case Some(m) => [m] case None => []) + ToMessages(fs[1..])
  }

  /** A message the whole path carries. */
  predicate Carried(m: Message) {
    LegalCsid(m.csid) && 0 < |m.payload| <= MAX_MESSAGE && m.typ != SET_CHUNK_SIZE
  }

  /** The messages handed to `write`, leaving out the chunk sizes set in between. */
  function Submitted(ops: seq<Op>): seq<Message> {
    if ops == [] then []
    else (if ops[0].Write? then [ops[0].msg] else []) + Submitted(ops[1..])
  }

  /** A session consumes Set Chunk Size itself. */
  function Forwarded(ms: seq<Message>): seq<Message> {
    if ms == [] then []
    else (if ms[0].typ == SET_CHUNK_SIZE then [] else [ms[0]]) + Forwarded(ms[1..])
  }

  predicate AllCarried(ms: seq<Message>) {
    forall i :: 0 <= i < |ms| ==> Carried(ms[i])
  }

  function Received(calls: seq<ChunkReader.Call>): seq<Message> {
    var (s, popped) := ChunkReader.Run(ChunkReader.NEW_READER, calls);
    popped + s.ready
  }

  function ReceivedFrames(calls: seq<FrameStream.Call>): seq<Frame.Frame> {
    var (s, popped) := FrameStream.Run(Frame.DEFAULT_MAX_PAYLOAD, FrameStream.NEW_DECODER, calls);
    popped + s.ready
  }

  lemma {:induction false} ForwardedConcat(a: seq<Message>, b: seq<Message>)
    ensures Forwarded(a + b) == Forwarded(a) + Forwarded(b)
    decreases |a|
  {
    if a == [] {
      assert a + b == b;
    } else {
      assert (a + b)[1..] == a[1..] + b;
      ForwardedConcat(a[1..], b);
    }
  }

  /** A session in which every submitted message is carried is safe and forwards exactly those. */
  lemma {:induction false} SubmittedForwarded(size: nat, ops: seq<Op>)
    requires AllCarried(Submitted(ops))
    ensures SafeRun(size, ops) && Forwarded(Written(ops)) == Submitted(ops)
    decreases |ops|
  {
    hide Safe, SizeAfter, MessagesOf, Carried;
    if ops != [] {
      SubmittedSplit(ops);
      OpForwarded(size, ops[0]);
      SubmittedForwarded(SizeAfter(size, ops[0]), ops[1..]);
      ForwardedConcat(MessagesOf(ops[0]), Written(ops[1..]));
    }
  }

  lemma SubmittedSplit(ops: seq<Op>)
    requires ops != [] && AllCarried(Submitted(ops))
    ensures AllCarried(Submitted(ops[1..])) && (ops[0].Write? ==> Carried(ops[0].msg))
  {
    hide Carried;
    var all, tail := Submitted(ops), Submitted(ops[1..]);
    if ops[0].Write? {
      assert all == [ops[0].msg] + tail;
      assert Carried(all[0]);
      forall i | 0 <= i < |tail|
        ensures Carried(tail[i])
      {
        assert tail[i] == all[i + 1];
      }
    } else {
      assert all == tail;
    }
  }

  lemma OpForwarded(size: nat, op: Op)
    requires op.Write? ==> Carried(op.msg)
    ensures Safe(size, op)
    ensures Forwarded(MessagesOf(op)) == if op.Write? then [op.msg] else []
  {
    assert MessagesOf(op)[|MessagesOf(op)|..] == [];
  }

  lemma {:induction false} Bridged(ms: seq<Message>, flow: u64)
    requires AllCarried(ms) && flow <= Varint.MAX
    ensures FrameDelivery.AllAcceptable(Frame.DEFAULT_MAX_PAYLOAD, ToFrames(ms, flow))
    ensures SendAll(ToFrames(ms, flow)) == FrameDelivery.EncodeAll(Frame.DEFAULT_MAX_PAYLOAD, ToFrames(ms, flow))
    ensures ToMessages(ToFrames(ms, flow)) == ms
    decreases |ms|
  {
    hide Frame.Encode;
    if ms != [] {
      Bridged(ms[1..], flow);
      assert Carried(ms[0]);
      assert ToFrames(ms, flow)[1..] == ToFrames(ms[1..], flow);
    }
  }

  lemma HopDelivers(ops: seq<Op>, calls: seq<ChunkReader.Call>)
    requires AllCarried(Submitted(ops))
    requires ChunkReader.FedBytes(calls) == Output(DEFAULT_CHUNK_SIZE, ops)
    ensures Forwarded(Received(calls)) == Submitted(ops)
  {
    hide Output;
    SubmittedForwarded(DEFAULT_CHUNK_SIZE, ops);
    SessionDelivered(ops, calls);
  }

  /** Every list of carried messages arrives unchanged and in order after being chunked, dechunked,
      framed, sent over a stream, unframed, chunked and dechunked again - with chunk sizes set at any
      point on either RTMP hop and every hop's bytes cut at arbitrary places. */
  lemma MessagesSurvive(
      publish: seq<Op>, atIngest: seq<ChunkReader.Call>, flow: u64, atClient: seq<FrameStream.Call>,
      play: seq<Op>, atPlayer: seq<ChunkReader.Call>)
    requires AllCarried(Submitted(publish)) && flow <= Varint.MAX
    requires ChunkReader.FedBytes(atIngest) == Output(DEFAULT_CHUNK_SIZE, publish)
    requires FrameStream.FedBytes(atClient) == SendAll(ToFrames(Forwarded(Received(atIngest)), flow))
    requires Submitted(play) == ToMessages(ReceivedFrames(atClient))
    requires ChunkReader.FedBytes(atPlayer) == Output(DEFAULT_CHUNK_SIZE, play)
    ensures Forwarded(Received(atPlayer)) == Submitted(publish)
  {
    hide Output, Received, ReceivedFrames;
    HopDelivers(publish, atIngest);
    var ms := Submitted(publish);
    Bridged(ms, flow);
    FramesArrive(ToFrames(ms, flow), atClient);
    HopDelivers(play, atPlayer);
  }

  lemma FramesArrive(fs: seq<Frame.Frame>, calls: seq<FrameStream.Call>)
    requires FrameDelivery.AllAcceptable(Frame.DEFAULT_MAX_PAYLOAD, fs)
    requires FrameStream.FedBytes(calls) == FrameDelivery.EncodeAll(Frame.DEFAULT_MAX_PAYLOAD, fs)
    ensures ReceivedFrames(calls) == fs
  {
    FrameDelivery.FramesDelivered(Frame.DEFAULT_MAX_PAYLOAD, fs, calls);
  }
}
