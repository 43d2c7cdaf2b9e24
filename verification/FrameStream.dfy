/** Frames carried on a stream: the incremental decoder, and what it yields over whole runs. */
module FrameStream {
  import opened Bytes
  import opened Frame
  import Varint

  datatype StepResult = Wait | Bad | Got(frame: Frame, size: nat)

  /** The frame at the front of `s`, if its header is complete and legal and its payload is there. */
  function Step(max: nat, s: bytes): (r: StepResult)
    ensures r.Got? ==> 0 < r.size <= |s|
  {
    match ParseHeader(s)
    case None => Wait
    case Some((h, size)) =>
      if h.length == 0 || h.length > max then Bad
      else if |s| - size < h.length then Wait
      else Got(FrameOf(h, s[size..size + h.length]), size + h.length)
  }

  datatype Outcome = Outcome(frames: seq<Frame>, rest: bytes, malformed: bool)

  /** The decoder's parse loop run to its end on `s`. */
  function Parse(max: nat, s: bytes): Outcome
    decreases |s|
  {
    match Step(max, s)
    case Wait => Outcome([], s, false)
    case Bad => Outcome([], [], true)
    case Got(f, size) =>
      var r := Parse(max, s[size..]);
      r.(frames := [f] + r.frames)
  }

  lemma ParseUnfold(max: nat, s: bytes)
    ensures var r := Step(max, s);
            Parse(max, s) ==
            if r.Wait? then Outcome([], s, false)
            else if r.Bad? then Outcome([], [], true)
            else
              var rest := Parse(max, s[r.size..]);
              Outcome([r.frame] + rest.frames, rest.rest, rest.malformed)
  {
    hide Step;
  }

  lemma StepStable(max: nat, a: bytes, b: bytes)
    ensures !Step(max, a).Wait? ==> Step(max, a + b) == Step(max, a)
  {
    hide ParseHeader;
    if !Step(max, a).Wait? {
      HeaderAgree(a, a + b);
      if Step(max, a).Got? {
        var (h, size) := ParseHeader(a).value;
        assert (a + b)[size..size + h.length] == a[size..size + h.length];
      }
    }
  }

  /** Feeding `a` and then `b` is feeding `a + b`. */
  lemma {:induction false} ParseConcat(max: nat, a: bytes, b: bytes)
    ensures var first := Parse(max, a);
            var second := Parse(max, first.rest + b);
            Parse(max, a + b) ==
            if first.malformed then first
            else Outcome(first.frames + second.frames, second.rest, second.malformed)
    decreases |a|
  {
    hide Step;
    StepStable(max, a, b);
    match Step(max, a)
    case Wait =>
      assert Parse(max, a) == Outcome([], a, false);
    case Bad =>
    case Got(f, size) =>
      assert (a + b)[size..] == a[size..] + b;
      ParseConcat(max, a[size..], b);
  }

  // ---- encoding onto a byte vector

  method AppendVarint(value: u64, out: Sink) returns (ok: bool)
    modifies out
    ensures ok <==> value < 0x4000_0000_0000_0000
    ensures out.data == old(out.data) + if ok then Varint.Encode(value) else []
  {
    hide Varint.Encode;
    var tmp := new byte[8](_ => 0);
    var n := Varint.EncodeInto(value, tmp);
    if n == 0 {
      return false;
    }
    out.data := out.data + tmp[..n];
    return true;
  }

  /** Appends the frame, or restores the vector's length. */
  method FrameEncode(f: Frame, out: Sink) returns (ok: bool)
    requires |f.payload| < U64_SPAN
    modifies out
    ensures ok == Encodable(f)
    ensures var limit := 0x4000_0000_0000_0000;
            ok <==> f.payload != [] && |f.payload| < limit && f.flowId < limit && f.timestamp < limit &&
                    f.streamId < limit && f.chunkStreamId < limit
    ensures out.data == old(out.data) + if ok then Encode(f) else []
  {
    hide Varint.Encode, EncodeHeader;
    if f.payload == [] {
      return false;
    }
    var start := |out.data|;
    ok := AppendHeader(f, out);
    if !ok {
      out.data := out.data[..start];
      return;
    }
    out.data := out.data + f.payload;
  }

  /** Stops at the first field that does not fit, leaving what was appended before it. */
  method AppendHeader(f: Frame, out: Sink) returns (ok: bool)
    requires 0 < |f.payload| < U64_SPAN
    modifies out
    ensures ok == Encodable(f)
    ensures old(out.data) <= out.data
    ensures ok ==> out.data == old(out.data) + EncodeHeader(HeaderOf(f))
  {
    hide Varint.Encode;
    ok := AppendVarint(f.flowId, out);
    if !ok {
      return;
    }
    ok := AppendVarint(f.timestamp, out);
    if !ok {
      return;
    }
    out.data := out.data + [f.typ];
    ghost var front := Varint.Encode(f.flowId) + Varint.Encode(f.timestamp) + [f.typ];
    assert out.data == old(out.data) + front;
    ok := AppendVarint(f.streamId, out);
    if !ok {
      return;
    }
    ok := AppendVarint(f.chunkStreamId, out);
    if !ok {
      return;
    }
    ok := AppendVarint(|f.payload|, out);
    if ok {
      assert EncodeHeader(HeaderOf(f)) ==
             front + Varint.Encode(f.streamId) + Varint.Encode(f.chunkStreamId) + Varint.Encode(|f.payload|);
    }
  }

  // ---- the decoder

  datatype Snapshot = Snapshot(buffer: bytes, ready: seq<Frame>, malformed: bool)

  const NEW_DECODER: Snapshot := Snapshot([], [], false)

  function Fed(max: nat, s: Snapshot, data: bytes): Snapshot {
    if s.malformed then s
    else
      var r := Parse(max, s.buffer + data);
      Snapshot(r.rest, s.ready + r.frames, r.malformed)
  }

  class Decoder {
    const maxPayload: nat
    var buffer: bytes
    var ready: seq<Frame>
    var malformed: bool

    function Contents(): Snapshot
      reads this
    {
      Snapshot(buffer, ready, malformed)
    }

    constructor (max: nat)
      ensures maxPayload == max && Contents() == NEW_DECODER
    {
      maxPayload, buffer, ready, malformed := max, [], [], false;
    }

    method Feed(data: bytes)
      modifies this
      ensures Contents() == Fed(maxPayload, old(Contents()), data)
    {
      if malformed {
        return;
      }
      buffer := buffer + data;
      ParseAll();
    }

    method Next() returns (f: Option<Frame>)
      modifies this
      ensures buffer == old(buffer) && malformed == old(malformed)
      ensures old(ready) == [] ==> f == None && ready == []
      ensures old(ready) != [] ==> f == Some(old(ready)[0]) && ready == old(ready)[1..]
    {
      if ready == [] {
        return None;
      }
      f := Some(ready[0]);
      ready := ready[1..];
    }

    method ParseAll()
      requires !malformed
      modifies this
      ensures var r := Parse(maxPayload, old(buffer));
              Contents() == Snapshot(r.rest, old(ready) + r.frames, r.malformed)
    {
      hide ParseHeader, Parse;
      ghost var frames: seq<Frame> := [];
      while true
        invariant !malformed
        invariant ready == old(ready) + frames
        invariant var r := Parse(maxPayload, buffer);
                  Parse(maxPayload, old(buffer)) == Outcome(frames + r.frames, r.rest, r.malformed)
        decreases |buffer|
      {
        ParseUnfold(maxPayload, buffer);
        var header := ParseHeader(buffer);
        if header.None? {
          return;
        }
        var (h, size) := header.value;
        if h.length == 0 || h.length > maxPayload {
          malformed := true;
          buffer := [];
          return;
        }
        if |buffer| - size < h.length {
          return;
        }
        var f := FrameOf(h, buffer[size..size + h.length]);
        assert Step(maxPayload, buffer) == Got(f, size + h.length);
        ready := ready + [f];
        frames := frames + [f];
        buffer := buffer[size + h.length..];
      }
    }
  }

  // ---- whole runs

  datatype Call = Feed(data: bytes) | Next

  function FedBytes(calls: seq<Call>): bytes {
    if calls == [] then []
    else (if calls[0].Feed? then calls[0].data else []) + FedBytes(calls[1..])
  }

  function Run(max: nat, s: Snapshot, calls: seq<Call>): (Snapshot, seq<Frame>)
    decreases |calls|
  {
    if calls == [] then (s, [])
    else
      match calls[0]
      case Feed(data) => Run(max, Fed(max, s, data), calls[1..])
      case Next =>
        if s.ready == [] then Run(max, s, calls[1..])
        else
          var (s', popped) := Run(max, s.(ready := s.ready[1..]), calls[1..]);
          (s', [s.ready[0]] + popped)
  }

  ghost predicate Settled(max: nat, s: Snapshot) {
    !s.malformed ==> Parse(max, s.buffer) == Outcome([], s.buffer, false)
  }

  lemma FedTwice(max: nat, s: Snapshot, a: bytes, b: bytes)
    ensures Fed(max, Fed(max, s, a), b) == Fed(max, s, a + b)
  {
    hide Parse;
    ParseConcat(max, s.buffer + a, b);
    assert s.buffer + a + b == s.buffer + (a + b);
  }

  lemma FedSettles(max: nat, s: Snapshot, a: bytes)
    requires Settled(max, s)
    ensures Settled(max, Fed(max, s, a))
  {
    hide Parse;
    var r := Parse(max, s.buffer + a);
    ParseConcat(max, s.buffer + a, []);
    assert s.buffer + a + [] == s.buffer + a && r.rest + [] == r.rest;
    if !r.malformed {
      assert |r.frames + Parse(max, r.rest).frames| == |r.frames|;
    }
  }

  lemma FedNothing(max: nat, s: Snapshot)
    requires Settled(max, s)
    ensures Fed(max, s, []) == s
  {
    hide Parse;
    assert s.buffer + [] == s.buffer;
  }

  /** Frames queued earlier stay in front and change nothing else. */
  lemma FedAfter(max: nat, s: Snapshot, queued: seq<Frame>, data: bytes)
    requires s.ready == []
    ensures var d := Fed(max, s, data);
            Fed(max, s.(ready := queued), data) == d.(ready := queued + d.ready)
  {
    hide Parse;
    var r := Parse(max, s.buffer + data);
    assert [] + r.frames == r.frames;
  }

  lemma EmptySettled(max: nat)
    ensures Settled(max, NEW_DECODER)
  {
  }

  lemma FedBehind(max: nat, s: Snapshot, data: bytes)
    requires s.ready != []
    ensures var later := Fed(max, s.(ready := s.ready[1..]), data);
            Fed(max, s, data) == later.(ready := [s.ready[0]] + later.ready)
  {
    hide Parse;
    var r := Parse(max, s.buffer + data);
    assert s.ready == [s.ready[0]] + s.ready[1..];
    assert [s.ready[0]] + s.ready[1..] + r.frames == [s.ready[0]] + (s.ready[1..] + r.frames);
  }

  /** However the bytes are cut into `feed` calls interleaved with `next`, the decoder ends where one
      `feed` of all bytes ends, with the same frames handed out or queued. */
  lemma {:induction false} FragmentationIndependence(max: nat, s: Snapshot, calls: seq<Call>)
    requires Settled(max, s)
    ensures var (s', popped) := Run(max, s, calls);
            s'.(ready := popped + s'.ready) == Fed(max, s, FedBytes(calls))
    decreases |calls|
  {
    hide Parse, Fed;
    if calls == [] {
      FedNothing(max, s);
    } else {
      match calls[0]
      case Feed(data) =>
        FedSettles(max, s, data);
        FedTwice(max, s, data, FedBytes(calls[1..]));
        FragmentationIndependence(max, Fed(max, s, data), calls[1..]);
      case Next =>
        assert FedBytes(calls) == FedBytes(calls[1..]);
        if s.ready == [] {
          FragmentationIndependence(max, s, calls[1..]);
        } else {
          var tail := s.(ready := s.ready[1..]);
          FragmentationIndependence(max, tail, calls[1..]);
          var (s', popped) := Run(max, tail, calls[1..]);
          FedBehind(max, s, FedBytes(calls));
          ConsAssoc(s.ready[0], popped, s'.ready);
        }
    }
  }

  lemma ConsAssoc(f: Frame, a: seq<Frame>, b: seq<Frame>)
    ensures [f] + a + b == [f] + (a + b)
  {
  }
}
