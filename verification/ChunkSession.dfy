/** A whole writer session read by an incremental reader. */
module ChunkSession {
  import opened Bytes
  import opened ChunkFormat
  import opened ChunkFragmentation
  import opened ChunkBudget
  import opened ChunkReader
  import opened ChunkWriter
  import opened ChunkDelivery

  /** The actions by which the writer sends `m` from payload offset `sent` on. */
  function Writing(m: Message, size: nat, sent: nat): seq<Action>
    requires sent <= |m.payload| && size > 0
    decreases |m.payload| - sent
  {
    var next := sent + BodySize(m, size, sent);
    [if sent == 0 then Start(m, 0) else Continue(m.csid)] + if next >= |m.payload| then [] else Writing(m, size, next)
  }

  /** The writer has sent `m` up to payload offset `sent`. */
  ghost predicate Writes(s: Sender, m: Message, sent: nat) {
    && s.chunkSize > 0 && sent <= |m.payload| && LegalCsid(m.csid)
    && var p := Pending(m, Plain(m), sent);
       if sent == 0 then Legal(s, Start(m, 0))
       else m.csid in s.pending && s.pending[m.csid] == p && InProgress(m.csid, p)
  }

  /** What the sender does when `m` is complete, header memory aside. */
  ghost predicate Finished(s: Sender, m: Message, s': Sender) {
    var end := Obey(s.(pending := s.pending - {m.csid as nat}), m);
    s'.chunkSize == end.chunkSize && s'.pending == end.pending
  }

  /** One chunk of `write` is one action of the sender. */
  lemma WritingStep(s: Sender, m: Message, sent: nat)
    requires Writes(s, m, sent)
    ensures var a := if sent == 0 then Start(m, 0) else Continue(m.csid);
            && Legal(s, a)
            && var p := Current(s, a);
               var next := sent + BodySize(m, s.chunkSize, sent);
               && Progress(s, p) == next <= |m.payload|
               && Chunk(s, p) == ChunkBytes(m, s.chunkSize, sent)
               && Completed(s, p) == (if next == |m.payload| then [m] else [])
               && (next == |m.payload| ==> Finished(s, m, Sent(s, p)))
               && (next < |m.payload| ==>
                     && sent < next && Sent(s, p).chunkSize == s.chunkSize
                     && Sent(s, p).pending == s.pending[m.csid := Pending(m, Plain(m), next)]
                     && Writes(Sent(s, p), m, next))
  {
    hide ChunkHeader, HeaderBytes, LegalChunkSize, U32At;
    PlainHeader(m, sent);
  }

  /** `write` is the run that sends one message without interleaving, announced in format 0. */
  lemma {:induction false} WritingIsRun(s: Sender, m: Message, sent: nat)
    requires Writes(s, m, sent)
    ensures var run := Writing(m, s.chunkSize, sent);
            && LegalRun(s, run)
            && Wire(s, run) == WriteFrom(m, s.chunkSize, sent)
            && Deliveries(s, run) == [m]
            && Finished(s, m, After(s, run))
    decreases |m.payload| - sent
  {
    hide Chunk, ChunkBytes, Legal, Current, Sent, Completed, InProgress, NamesAborted, AnnouncesChunkSize;
    WritingStep(s, m, sent);
    var run := Writing(m, s.chunkSize, sent);
    var p := Current(s, run[0]);
    var next := Progress(s, p);
    var s' := Sent(s, p);
    if next < |m.payload| {
      WritingIsRun(s', m, next);
      assert run[1..] == Writing(m, s.chunkSize, next);
      assert s'.pending - {m.csid as nat} == s.pending - {m.csid as nat};
    } else {
      assert run[1..] == [];
    }
  }

  /** Both ends idle, with the same chunk size; a writer that uses format 0 need not recall any header. */
  ghost predicate InSync(size: nat, c: Core) {
    InStep(Sender(size, map[], map[]), c)
  }

  lemma IdleInSync(s: Sender, c: Core)
    requires InStep(s, c) && s.pending == map[]
    ensures InSync(s.chunkSize, c)
  {
    hide Budget;
  }

  lemma SyncBasics(size: nat, c: Core)
    requires InSync(size, c)
    ensures LegalChunkSize(size) && !c.failed
  {
  }

  /** A written message is read back, and its effect on the reader is the one it announces. */
  lemma WriteDelivered(size: nat, c: Core, m: Message)
    requires InSync(size, c)
    requires LegalCsid(m.csid) && |m.payload| <= MAX_MESSAGE
    requires AnnouncesChunkSize(m) ==> LegalChunkSize(U32At(m.payload, 0))
    ensures size > 0
    ensures var r := Parse(c, WriteFrom(m, size, 0));
            && r.rest == [] && r.out == [m]
            && InSync(if AnnouncesChunkSize(m) then U32At(m.payload, 0) else size, r.core)
  {
    hide Parse, WriteFrom, Step, InStep, Wire, Deliveries, After, LegalRun;
    SyncBasics(size, c);
    var s := Sender(size, map[], map[]);
    assert Sizes(s.pending) == map[];
    var run := Writing(m, size, 0);
    WritingIsRun(s, m, 0);
    InterleavedDelivery(s, c, run);
    IdleInSync(After(s, run), Parse(c, WriteFrom(m, size, 0)).core);
  }

  // ---- exactly when a write keeps both ends in step

  lemma StepNeverAnnouncesIllegal(c: Core, buf: bytes)
    requires !c.failed && buf != []
    ensures var r := Step(c, buf);
            r.Advance? ==> forall m :: m in r.out && AnnouncesChunkSize(m) ==> LegalChunkSize(U32At(m.payload, 0))
  {
  }

  lemma {:induction false} NeverAnnouncesIllegal(c: Core, buf: bytes)
    ensures forall m :: m in Parse(c, buf).out && AnnouncesChunkSize(m) ==> LegalChunkSize(U32At(m.payload, 0))
    decreases |buf|
  {
    hide Step;
    if !c.failed && buf != [] {
      StepNeverAnnouncesIllegal(c, buf);
      if Step(c, buf).Advance? {
        NeverAnnouncesIllegal(Step(c, buf).core, buf[Step(c, buf).size..]);
      }
    }
  }

  lemma OversizedRejected(size: nat, c: Core, m: Message)
    requires InSync(size, c) && size > 0
    requires Writable(m) && |m.payload| > MAX_MESSAGE
    ensures Parse(c, WriteFrom(m, size, 0)).out == []
  {
    hide ReadBasic, ReadHeader, Absorb, ChunkHeader, HeaderBytes, Budget;
    var st := Touch(c, m.csid).streams[m.csid];
    var buf := WriteFrom(m, size, 0);
    var rest := buf[|HeaderBytes(m, 0)|..];
    assert buf == HeaderBytes(m, 0) + rest;
    PlainHeader(m, 0);
    HeaderRoundTrip(st, m, Plain(m), rest);
    assert Step(c, buf).Reject?;
  }

  /** The writer accepts messages the reader cannot take. A write leaves both ends in step exactly when
      the payload is within the reader's cap and a Set Chunk Size payload repeats the current size. */
  lemma WriteKeepsSyncIff(size: nat, c: Core, m: Message)
    requires InSync(size, c) && size > 0
    requires Writable(m)
    ensures var r := Parse(c, WriteFrom(m, size, 0));
            (r.out == [m] && InSync(size, r.core)) <==>
            (|m.payload| <= MAX_MESSAGE && (AnnouncesChunkSize(m) ==> U32At(m.payload, 0) == size))
  {
    hide Parse, WriteFrom, Budget, Match;
    SyncBasics(size, c);
    var r := Parse(c, WriteFrom(m, size, 0));
    if |m.payload| > MAX_MESSAGE {
      OversizedRejected(size, c, m);
    } else if AnnouncesChunkSize(m) && !LegalChunkSize(U32At(m.payload, 0)) {
      NeverAnnouncesIllegal(c, WriteFrom(m, size, 0));
      assert r.out == [m] ==> m in r.out;
    } else {
      WriteDelivered(size, c, m);
    }
  }

  // ---- whole sessions

  datatype Op = Write(msg: Message) | SetChunkSize(size: u32)

  /** The op is one after which both ends still agree (`WriteKeepsSyncIff`). */
  predicate Safe(size: nat, op: Op) {
    op.Write? && Writable(op.msg) ==>
      |op.msg.payload| <= MAX_MESSAGE && (AnnouncesChunkSize(op.msg) ==> U32At(op.msg.payload, 0) == size)
  }

  function SizeAfter(size: nat, op: Op): nat {
    if op.SetChunkSize? && LegalChunkSize(op.size) then op.size else size
  }

  /** The messages an op puts on the wire: none when it is refused. */
  function MessagesOf(op: Op): seq<Message> {
    match op
    case Write(m) => if Writable(m) then [m] else []
    case SetChunkSize(n) => if LegalChunkSize(n) then [SizeMessage(n)] else []
  }

  /** The bytes an op appends, as `Writer.Write` and `Writer.SetChunkSize` promise them. */
  function BytesOf(size: nat, op: Op): bytes
    requires size > 0
  {
    match op
    case Write(m) => if Writable(m) then WriteFrom(m, size, 0) else []
    case SetChunkSize(n) => if LegalChunkSize(n) then WriteFrom(SizeMessage(n), size, 0) else []
  }

  predicate SafeRun(size: nat, ops: seq<Op>)
    decreases |ops|
  {
    ops != [] ==> Safe(size, ops[0]) && SafeRun(SizeAfter(size, ops[0]), ops[1..])
  }

  function Output(size: nat, ops: seq<Op>): bytes
    requires size > 0
    decreases |ops|
  {
    if ops == [] then [] else BytesOf(size, ops[0]) + Output(SizeAfter(size, ops[0]), ops[1..])
  }

  function Written(ops: seq<Op>): seq<Message> {
    if ops == [] then [] else MessagesOf(ops[0]) + Written(ops[1..])
  }

  function FinalSize(size: nat, ops: seq<Op>): nat
    decreases |ops|
  {
    if ops == [] then size else FinalSize(SizeAfter(size, ops[0]), ops[1..])
  }

  lemma SizeMessageAnnounces(n: u32)
    ensures AnnouncesChunkSize(SizeMessage(n)) && U32At(SizeMessage(n).payload, 0) == n
  {
    var payload := Be(n, 4);
    assert At(payload, 0, payload);
    assert Pow256(4) == U32_SPAN;
    BeRoundTrip(n, 4, payload, 0);
  }

  lemma OpDelivered(size: nat, c: Core, op: Op)
    requires InSync(size, c) && size > 0 && Safe(size, op)
    ensures var r := Parse(c, BytesOf(size, op));
            r.rest == [] && r.out == MessagesOf(op) && InSync(SizeAfter(size, op), r.core)
    ensures SizeAfter(size, op) > 0
  {
    hide Step, WriteFrom, Budget, Match, SizeMessage;
    SyncBasics(size, c);
    match op
    case Write(m) =>
      if Writable(m) {
        WriteDelivered(size, c, m);
      }
    case SetChunkSize(n) =>
      if LegalChunkSize(n) {
        SizeMessageAnnounces(n);
        SizeMessageFits(n);
        WriteDelivered(size, c, SizeMessage(n));
      }
  }

  lemma SizeMessageFits(n: u32)
    ensures LegalCsid(SizeMessage(n).csid) && |SizeMessage(n).payload| <= MAX_MESSAGE
  {
  }

  lemma {:induction false} SessionParsed(size: nat, c: Core, ops: seq<Op>)
    requires InSync(size, c) && size > 0 && SafeRun(size, ops)
    ensures var r := Parse(c, Output(size, ops));
            r.rest == [] && r.out == Written(ops) && InSync(FinalSize(size, ops), r.core)
    decreases |ops|
  {
    hide InStep, Step, BytesOf, MessagesOf, Safe, SizeAfter;
    if ops != [] {
      var head, size' := BytesOf(size, ops[0]), SizeAfter(size, ops[0]);
      OpDelivered(size, c, ops[0]);
      var first := Parse(c, head);
      SessionParsed(size', first.core, ops[1..]);
      SyncBasics(size', first.core);
      var tail := Output(size', ops[1..]);
      ParseConcat(c, head, tail);
      assert first.rest + tail == tail;
    }
  }

  /** Every mix of `write` and `set_chunk_size` calls, cut into arbitrary `feed` calls interleaved with
      `next`: a fresh reader hands out exactly the accepted messages and the control messages, in
      order, ends with the writer's chunk size, and has nothing left over. */
  lemma SessionDelivered(ops: seq<Op>, calls: seq<Call>)
    requires SafeRun(DEFAULT_CHUNK_SIZE, ops)
    requires FedBytes(calls) == Output(DEFAULT_CHUNK_SIZE, ops)
    ensures var (s, popped) := Run(NEW_READER, calls);
            && popped + s.ready == Written(ops)
            && s.buffer == []
            && InSync(FinalSize(DEFAULT_CHUNK_SIZE, ops), s.core)
  {
    hide Parse, Output, InStep;
    FreshPair(DEFAULT_CHUNK_SIZE);
    SessionParsed(DEFAULT_CHUNK_SIZE, INITIAL, ops);
    ParseHalted(INITIAL, []);
    FragmentationIndependence(NEW_READER, calls);
    assert [] + FedBytes(calls) == FedBytes(calls);
    var r := Parse(INITIAL, FedBytes(calls));
    SyncBasics(FinalSize(DEFAULT_CHUNK_SIZE, ops), r.core);
  }

  /** The same for any legal interleaving of messages on different chunk streams, in any header formats. */
  lemma InterleavedSession(run: seq<Action>, calls: seq<Call>)
    requires LegalRun(Sender(DEFAULT_CHUNK_SIZE, map[], map[]), run)
    requires FedBytes(calls) == Wire(Sender(DEFAULT_CHUNK_SIZE, map[], map[]), run)
    ensures var sender := Sender(DEFAULT_CHUNK_SIZE, map[], map[]);
            var (s, popped) := Run(NEW_READER, calls);
            && popped + s.ready == Deliveries(sender, run)
            && s.buffer == []
            && InStep(After(sender, run), s.core)
  {
    hide Parse, InStep, Legal, LegalRun, Wire, Deliveries, After, Sent;
    var sender := Sender(DEFAULT_CHUNK_SIZE, map[], map[]);
    FreshPair(DEFAULT_CHUNK_SIZE);
    InterleavedDelivery(sender, INITIAL, run);
    ParseHalted(INITIAL, []);
    FragmentationIndependence(NEW_READER, calls);
    assert [] + FedBytes(calls) == FedBytes(calls);
    NotFailed(After(sender, run), Parse(INITIAL, FedBytes(calls)).core);
  }

  /** A chunk changes no other chunk stream, unless it completes an Abort that names it. */
  lemma ChunkTouchesOneStream(c: Core, buf: bytes, k: nat)
    requires !c.failed && buf != [] && k in c.streams
    requires ReadBasic(buf).Some? ==> ReadBasic(buf).value.csid != k
    ensures var r := Step(c, buf);
            && k in r.core.streams
            && r.core.streams[k] ==
               if r.Advance? && |r.out| == 1 && NamesAborted(r.out[0]) && U32At(r.out[0].payload, 0) == k
               then Discard(c.streams[k]) else c.streams[k]
  {
    hide ReadBasic, ReadHeader, Absorb, Admits;
    if ReadBasic(buf).Some? {
      var b := ReadBasic(buf).value;
      if b.size + MessageHeaderSize(b.fmt) <= |buf| {
        var c1 := Touch(c, b.csid);
        var st := c1.streams[b.csid];
        var h := ReadHeader(st, b.fmt, b.size, buf);
        if h.Some? {
          var end := h.value.size + Min(Due(st, h.value), c.chunkSize);
          if end <= |buf| {
            AbsorbTouchesOneStream(c1, b.csid, h.value, buf[h.value.size..end], k);
          }
        }
      }
    }
  }

  lemma AbsorbTouchesOneStream(c: Core, csid: nat, h: Header, body: bytes, k: nat)
    requires csid in c.streams && csid < U32_SPAN && k in c.streams && k != csid
    requires |body| <= Due(c.streams[csid], h) && !c.failed
    ensures var (c', out) := Absorb(c, csid, h, body);
            && k in c'.streams
            && c'.streams[k] ==
               if |out| == 1 && NamesAborted(out[0]) && U32At(out[0].payload, 0) == k
               then Discard(c.streams[k]) else c.streams[k]
  {
  }
}
