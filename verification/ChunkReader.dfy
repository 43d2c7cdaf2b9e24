/** The incremental reader as the class it is, proved against `ChunkFormat.Parse`, and its
    behaviour over whole runs of `feed` and `next`. */
module ChunkReader {
  import opened Bytes
  import opened ChunkFormat
  import opened ChunkBudget
  import opened ChunkFragmentation

  /** A snapshot of a reader object. */
  datatype Snapshot = Snapshot(core: Core, buffer: bytes, ready: seq<Message>)

  const NEW_READER: Snapshot := Snapshot(INITIAL, [], [])

  function Fed(s: Snapshot, data: bytes): Snapshot {
    if s.core.failed then s
    else
      var r := Parse(s.core, s.buffer + data);
      Snapshot(r.core, r.rest, s.ready + r.out)
  }

  lemma ParseHalted(c: Core, buf: bytes)
    ensures c.failed || buf == [] ==> Parse(c, buf) == Outcome(c, buf, [])
  {
  }

  /** An outcome with earlier messages in front. */
  function Behind(out: seq<Message>, r: Outcome): Outcome {
    Outcome(r.core, r.rest, out + r.out)
  }

  lemma BehindNothing(r: Outcome)
    ensures Behind([], r) == r
  {
  }

  lemma BehindHalted(out: seq<Message>, r: Outcome)
    ensures r.out == [] ==> Behind(out, r) == Outcome(r.core, r.rest, out)
  {
  }

  lemma ParseStep(c: Core, buf: bytes)
    requires !c.failed && buf != []
    ensures var s := Step(c, buf);
            Parse(c, buf) ==
            if s.Advance? then Behind(s.out, Parse(s.core, buf[s.size..])) else Outcome(s.core, buf, [])
  {
    hide Step;
  }

  lemma BehindBehind(a: seq<Message>, b: seq<Message>, r: Outcome)
    ensures Behind(a, Behind(b, r)) == Behind(a + b, r)
  {
    assert a + (b + r.out) == a + b + r.out;
  }

  lemma ParseUnfold(c: Core, buf: bytes, out: seq<Message>)
    requires !c.failed && buf != []
    ensures var s := Step(c, buf);
            Behind(out, Parse(c, buf)) ==
            if s.Advance? then Behind(out + s.out, Parse(s.core, buf[s.size..])) else Outcome(s.core, buf, out)
  {
    hide Step, Parse, Behind;
    var s := Step(c, buf);
    ParseStep(c, buf);
    if s.Advance? {
      BehindBehind(out, s.out, Parse(s.core, buf[s.size..]));
    } else {
      BehindHalted(out, Parse(c, buf));
    }
  }

  class Reader {
    var buffer: bytes
    var ready: seq<Message>
    var streams: map<nat, Stream>
    var chunkSize: nat
    var assemblingBytes: nat
    var failed: bool

    function State(): Core
      reads this
    {
      Core(streams, chunkSize, assemblingBytes, failed)
    }

    function Contents(): Snapshot
      reads this
    {
      Snapshot(State(), buffer, ready)
    }

    ghost predicate Valid()
      reads this
    {
      Budget(State())
    }

    constructor ()
      ensures Valid() && Contents() == NEW_READER
    {
      buffer, ready, streams := [], [], map[];
      chunkSize, assemblingBytes, failed := DEFAULT_CHUNK_SIZE, 0, false;
      new;
      InitialBudget();
    }

    method Feed(data: bytes)
      requires Valid()
      modifies this
      ensures Valid()
      ensures Contents() == Fed(old(Contents()), data)
      ensures !failed ==> |buffer| < MAX_MESSAGE + 18
    {
      if failed {
        return;
      }
      buffer := buffer + data;
      ParseBudget(State(), buffer);
      ParseAll();
    }

    method Next() returns (m: Option<Message>)
      modifies this
      ensures State() == old(State()) && buffer == old(buffer)
      ensures old(ready) == [] ==> m == None && ready == []
      ensures old(ready) != [] ==> m == Some(old(ready)[0]) && ready == old(ready)[1..]
    {
      if ready == [] {
        return None;
      }
      m := Some(ready[0]);
      ready := ready[1..];
    }

    /** Repeats `ParseChunk` until it can go no further. */
    method ParseAll()
      modifies this
      ensures var r := Parse(old(State()), old(buffer));
              State() == r.core && buffer == r.rest && ready == old(ready) + r.out
    {
      hide Step, Parse, Behind;
      ghost var whole := Parse(State(), buffer);
      ghost var out: seq<Message> := [];
      BehindNothing(whole);
      var more := true;
      while more && !failed && buffer != []
        invariant ready == old(ready) + out
        invariant whole == if more then Behind(out, Parse(State(), buffer)) else Outcome(State(), buffer, out)
        decreases |buffer|, more
      {
        ghost var r := Step(State(), buffer);
        ParseUnfold(State(), buffer, out);
        more := ParseChunk();
        out := if r.Advance? then out + r.out else out;
      }
      ParseHalted(State(), buffer);
      BehindHalted(out, Parse(State(), buffer));
    }

    /** One pass of the parse loop; false when the buffered bytes cannot be used (yet). */
    method ParseChunk() returns (more: bool)
      requires !failed && buffer != []
      modifies this
      ensures var r := Step(old(State()), old(buffer));
              && State() == r.core
              && more == r.Advance?
              && buffer == (if r.Advance? then old(buffer)[r.size..] else old(buffer))
              && ready == (if r.Advance? then old(ready) + r.out else old(ready))
    {
      hide StepOn;
      var fmt, csid, pos := buffer[0] / 64, buffer[0] as nat % 64, 1;
      if csid == 0 {
        if |buffer| < 2 {
          return false;
        }
        csid, pos := 64 + buffer[1] as int, 2;
      } else if csid == 1 {
        if |buffer| < 3 {
          return false;
        }
        csid, pos := 64 + buffer[1] as int + 256 * buffer[2] as int, 3;
      }
      if |buffer| < pos + MessageHeaderSize(fmt) {
        return false;
      }
      assert ReadBasic(buffer) == Some(Basic(fmt, csid, pos));
      if csid !in streams {
        streams := streams[csid := FRESH];
      }
      assert State() == Touch(old(State()), csid);
      more := ParseBody(csid, fmt, pos);
    }

    /** The rest of the pass, once the chunk stream and the message header are known. */
    method ParseBody(csid: nat, fmt: nat, pos: nat) returns (more: bool)
      requires !failed && csid in streams && csid < U32_SPAN
      requires fmt <= 3 && 1 <= pos <= 3 && pos + MessageHeaderSize(fmt) <= |buffer|
      modifies this
      ensures var r := StepOn(old(State()), csid, fmt, pos, old(buffer));
              && State() == r.core
              && more == r.Advance?
              && buffer == (if r.Advance? then old(buffer)[r.size..] else old(buffer))
              && ready == (if r.Advance? then old(ready) + r.out else old(ready))
    {
      hide Absorb, ReadHeader;
      var st := streams[csid];
      if fmt == 3 && !st.haveHeader {
        failed := true;
        return false;
      }
      var header := ParseHeader(st, fmt, pos);
      if header.None? {
        return false;
      }
      var h := header.value;
      var due := st.remaining;
      if st.remaining == 0 {
        due := h.length;
        if due > MAX_MESSAGE || assemblingBytes + due > MAX_OUTSTANDING {
          failed := true;
          return false;
        }
      }
      var end := h.size + Min(due, chunkSize);
      if |buffer| < end {
        return false;
      }
      more := true;
      TakeChunk(csid, h, buffer[h.size..end]);
      buffer := buffer[end..];
    }

    /** Reads the header into locals; nothing on the stream changes before the whole chunk is there. */
    method ParseHeader(st: Stream, fmt: nat, pos: nat) returns (h: Option<Header>)
      requires fmt <= 3 && pos + MessageHeaderSize(fmt) <= |buffer|
      ensures h == ReadHeader(st, fmt, pos, buffer)
    {
      hide U24At, U32At, Le32At;
      var field, extended := 0, st.extended;  // fmt3 inherits
      if fmt <= 2 {
        field := U24At(buffer, pos);
        extended := field == EXTENDED;
      }
      var size := pos + MessageHeaderSize(fmt);
      if extended && |buffer| < size + 4 {
        return None;
      }
      var time := field;
      if extended {
        time := U32At(buffer, size);
        size := size + 4;
      }
      var length, typ, streamId := st.length, st.typ, st.streamId;
      if fmt <= 1 {
        length, typ := U24At(buffer, pos + 3), buffer[pos + 6];
      }
      if fmt == 0 {
        streamId := Le32At(buffer, pos + 7);
      }
      return Some(Header(fmt, extended, time, length, typ, streamId, size));
    }

    /** Commits a complete chunk to its stream. */
    method TakeChunk(csid: nat, h: Header, body: bytes)
      requires !failed && csid in streams && csid < U32_SPAN
      requires |body| <= Due(streams[csid], h)
      modifies this
      ensures var r := Absorb(old(State()), csid, h, body);
              State() == r.0 && ready == old(ready) + r.1 && buffer == old(buffer)
    {
      hide Finalize;
      var st := streams[csid];
      var startingNew := st.remaining == 0;
      if h.fmt == 0 {
        st := st.(timestamp := h.time, delta := 0);
      } else if h.fmt <= 2 {
        st := st.(timestamp := Plus32(st.timestamp, h.time), delta := h.time);
      } else if startingNew {
        st := st.(timestamp := Plus32(st.timestamp, st.delta));
      }
      st := st.(length := h.length, typ := h.typ, streamId := h.streamId, extended := h.extended, haveHeader := true);
      if startingNew {
        st := st.(remaining := h.length, assembling := []);
        assemblingBytes := assemblingBytes + h.length;
      }
      st := st.(assembling := st.assembling + body, remaining := st.remaining - |body|);
      assert st == Commit(streams[csid], h, body);
      streams := streams[csid := st];
      if st.remaining == 0 {
        FinishMessage(csid);
      }
    }

    /** Hands the assembled message over and obeys it if it is a control message. */
    method FinishMessage(csid: nat)
      requires !failed && csid in streams && csid < U32_SPAN
      modifies this
      ensures var r := Finalize(old(State()), csid);
              State() == r.0 && ready == old(ready) + r.1 && buffer == old(buffer)
    {
      var m := MessageOf(csid, streams[csid]);
      assemblingBytes := Saturating(assemblingBytes, |m.payload|);
      streams := streams[csid := streams[csid].(assembling := [])];
      if AnnouncesChunkSize(m) {
        var size := U32At(m.payload, 0);
        if !LegalChunkSize(size) {
          failed := true;
          return;
        }
        chunkSize := size;
      } else if NamesAborted(m) {
        var target := U32At(m.payload, 0);
        if target in streams {
          assemblingBytes := Saturating(assemblingBytes, Load(streams[target]));
          streams := streams[target := Discard(streams[target])];
        }
      }
      ready := ready + [m];
    }
  }

  datatype Call = Feed(data: bytes) | Next

  /** All bytes fed by `calls`, in order. */
  function FedBytes(calls: seq<Call>): bytes {
    if calls == [] then []
    else (if calls[0].Feed? then calls[0].data else []) + FedBytes(calls[1..])
  }

  /** The reader after `calls`, and the messages `next` handed out on the way. */
  function Run(s: Snapshot, calls: seq<Call>): (Snapshot, seq<Message>)
    decreases |calls|
  {
    if calls == [] then (s, [])
    else
      match calls[0]
      case Feed(data) => Run(Fed(s, data), calls[1..])
      case Next =>
        if s.ready == [] then Run(s, calls[1..])
        else
          var (s', popped) := Run(s.(ready := s.ready[1..]), calls[1..]);
          (s', [s.ready[0]] + popped)
  }

  /** Nothing in the buffer can be used before more bytes arrive. */
  ghost predicate Settled(s: Snapshot) {
    Parse(s.core, s.buffer) == Outcome(s.core, s.buffer, [])
  }

  /** Equal up to the raw bytes a failed reader is left with. */
  ghost predicate Same(a: Snapshot, b: Snapshot) {
    a.core == b.core && a.ready == b.ready && (!a.core.failed ==> a.buffer == b.buffer)
  }

  lemma FedTwice(s: Snapshot, a: bytes, b: bytes)
    ensures Same(Fed(Fed(s, a), b), Fed(s, a + b))
  {
    hide Parse;
    ParseConcat(s.core, s.buffer + a, b);
    assert s.buffer + a + b == s.buffer + (a + b);
  }

  lemma FedSettles(s: Snapshot, a: bytes)
    requires Settled(s)
    ensures Settled(Fed(s, a))
  {
    hide Parse;
    var r := Parse(s.core, s.buffer + a);
    ParseConcat(s.core, s.buffer + a, []);
    assert s.buffer + a + [] == s.buffer + a && r.rest + [] == r.rest;
    ParseHalted(r.core, r.rest);
    if !r.core.failed {
      assert |r.out + Parse(r.core, r.rest).out| == |r.out|;
    }
  }

  lemma FedNothing(s: Snapshot)
    requires Settled(s)
    ensures Fed(s, []) == s
  {
    hide Parse;
    assert s.buffer + [] == s.buffer;
  }

  lemma FedBehind(s: Snapshot, data: bytes)
    requires s.ready != []
    ensures var later := Fed(s.(ready := s.ready[1..]), data);
            Fed(s, data) == later.(ready := [s.ready[0]] + later.ready)
  {
    hide Parse;
    var r := Parse(s.core, s.buffer + data);
    assert s.ready == [s.ready[0]] + s.ready[1..];
    assert [s.ready[0]] + s.ready[1..] + r.out == [s.ready[0]] + (s.ready[1..] + r.out);
  }

  /** Whatever way the input is cut into `feed` calls and interleaved with `next`, what has been
      handed out followed by what is still queued is what one `feed` of all bytes makes ready; the
      chunk size, the failed flag, the budget counter and every per-stream state agree with it
      too, and so does the raw buffer unless the reader failed. */
  lemma {:induction false} FragmentationIndependence(s: Snapshot, calls: seq<Call>)
    requires Settled(s)
    ensures var (s', popped) := Run(s, calls);
            Same(s'.(ready := popped + s'.ready), Fed(s, FedBytes(calls)))
    decreases |calls|
  {
    hide Parse, Fed, Same, Settled, Run, FedBytes;
    RunUnfold(s, calls);
    if calls == [] {
      FedNothing(s);
      SameSelf(s);
    } else if calls[0].Feed? {
      var data := calls[0].data;
      FedSettles(s, data);
      FedTwice(s, data, FedBytes(calls[1..]));
      FragmentationIndependence(Fed(s, data), calls[1..]);
      var (s', popped) := Run(Fed(s, data), calls[1..]);
      SameTrans(s'.(ready := popped + s'.ready), Fed(Fed(s, data), FedBytes(calls[1..])), Fed(s, FedBytes(calls)));
    } else if s.ready == [] {
      FragmentationIndependence(s, calls[1..]);
    } else {
      var tail := s.(ready := s.ready[1..]);
      PoppedSettled(s);
      FragmentationIndependence(tail, calls[1..]);
      var (s', popped) := Run(tail, calls[1..]);
      FedBehind(s, FedBytes(calls));
      SameBehind(s.ready[0], s', popped, Fed(tail, FedBytes(calls)));
    }
  }

  lemma PoppedSettled(s: Snapshot)
    requires Settled(s) && s.ready != []
    ensures Settled(s.(ready := s.ready[1..]))
  {
    hide Parse;
  }

  lemma RunUnfold(s: Snapshot, calls: seq<Call>)
    ensures calls == [] ==> Run(s, calls) == (s, []) && FedBytes(calls) == []
    ensures calls != [] && calls[0].Feed? ==>
              && Run(s, calls) == Run(Fed(s, calls[0].data), calls[1..])
              && FedBytes(calls) == calls[0].data + FedBytes(calls[1..])
    ensures calls != [] && calls[0].Next? ==>
              && FedBytes(calls) == FedBytes(calls[1..])
              && if s.ready == [] then Run(s, calls) == Run(s, calls[1..])
                 else
                   var (s', popped) := Run(s.(ready := s.ready[1..]), calls[1..]);
                   Run(s, calls) == (s', [s.ready[0]] + popped)
  {
    hide Fed;
  }

  lemma SameSelf(s: Snapshot)
    ensures Same(s.(ready := [] + s.ready), s)
  {
  }

  lemma SameTrans(a: Snapshot, b: Snapshot, c: Snapshot)
    requires Same(a, b) && Same(b, c)
    ensures Same(a, c)
  {
  }

  lemma SameBehind(m: Message, s: Snapshot, popped: seq<Message>, later: Snapshot)
    requires Same(s.(ready := popped + s.ready), later)
    ensures Same(s.(ready := [m] + popped + s.ready), later.(ready := [m] + later.ready))
  {
    ConsAssoc(m, popped, s.ready);
  }

  lemma ConsAssoc(m: Message, a: seq<Message>, b: seq<Message>)
    ensures [m] + a + b == [m] + (a + b)
  {
  }
}
