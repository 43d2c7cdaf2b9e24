/** From sender to reader: every legal interleaving of chunks, in any of the four header formats, is delivered
    intact, and the writer's output in particular. */
module ChunkDelivery {
  import opened Bytes
  import opened MapSum
  import opened ChunkFormat
  import opened ChunkBudget
  import opened ChunkWriter

  // ---- printing a chunk header and reading it back

  lemma BasicRoundTrip(fmt: nat, csid: nat, rest: bytes)
    requires fmt <= 3 && LegalCsid(csid)
    ensures ReadBasic(BasicBytes(fmt, csid) + rest) == Some(Basic(fmt, csid, |BasicBytes(fmt, csid)|))
  {
    var b := BasicBytes(fmt, csid);
    assert (b + rest)[0] == b[0];
    if csid >= 64 {
      assert (b + rest)[1] == b[1];
    }
    if csid >= 320 {
      assert (b + rest)[2] == b[2];
    }
  }

  /** How the first chunk announces a message: format, timestamp field and whether it is extended. */
  datatype Head = Head(fmt: nat, time: u32, extended: bool)

  predicate LegalHead(h: Head) {
    h.fmt <= 3 && (h.fmt <= 2 ==> h.extended == (h.time >= EXTENDED))
  }

  /** The heading the writer uses: format 0 with the full timestamp. */
  function Plain(m: Message): Head {
    Head(0, m.timestamp, IsExtended(m))
  }

  function TimeBytes(h: Head): (r: bytes)
    ensures |r| == 3
  {
    Be(if h.extended then EXTENDED else h.time, 3)
  }

  function ExtendedTime(h: Head): (r: bytes)
    ensures |r| == if h.extended then 4 else 0
  {
    if h.extended then Be(h.time, 4) else []
  }

  /** The message header of each format. */
  function FixedBytes(m: Message, h: Head): (r: bytes)
    requires h.fmt <= 3
    ensures |r| == MessageHeaderSize(h.fmt)
  {
    if h.fmt == 0 then TimeBytes(h) + Be(|m.payload|, 3) + [m.typ] + Le32(m.streamId)
    else if h.fmt == 1 then TimeBytes(h) + Be(|m.payload|, 3) + [m.typ]
    else if h.fmt == 2 then TimeBytes(h)
    else []
  }

  /** Chunks after the first use format 3 and repeat an extended time. */
  function HeadAt(h: Head, sent: nat): Head {
    if sent == 0 then h else h.(fmt := 3)
  }

  function ChunkHeader(m: Message, h: Head): (r: bytes)
    requires LegalCsid(m.csid) && h.fmt <= 3
    ensures |r| >= 1
  {
    BasicBytes(h.fmt, m.csid) + (FixedBytes(m, h) + ExtendedTime(h))
  }

  lemma PlainHeader(m: Message, sent: nat)
    requires LegalCsid(m.csid)
    ensures ChunkHeader(m, HeadAt(Plain(m), sent)) == HeaderBytes(m, sent)
  {
    hide Be, Le32;
  }

  lemma TimeRoundTrip(h: Head, buf: bytes, pos: nat)
    requires LegalHead(h) && h.fmt <= 2 && At(buf, pos, TimeBytes(h))
    ensures U24At(buf, pos) == if h.extended then EXTENDED else h.time
  {
    assert Pow256(3) == 0x100_0000;
    BeRoundTrip(if h.extended then EXTENDED else h.time, 3, buf, pos);
  }

  lemma LengthRoundTrip(m: Message, buf: bytes, pos: nat)
    requires |m.payload| <= MAX_WRITABLE && At(buf, pos, Be(|m.payload|, 3) + [m.typ])
    ensures U24At(buf, pos) == |m.payload| && buf[pos + 3] == m.typ
  {
    hide Be, BeAt;
    AtConcat(buf, pos, Be(|m.payload|, 3), [m.typ]);
    AtIndex(buf, pos + 3, [m.typ], 0);
    assert Pow256(3) == 0x100_0000;
    BeRoundTrip(|m.payload|, 3, buf, pos);
  }

  /** The fixed part of every format, field by field. */
  lemma FixedRoundTrip(m: Message, h: Head, buf: bytes, pos: nat)
    requires |m.payload| <= MAX_WRITABLE && LegalHead(h) && At(buf, pos, FixedBytes(m, h))
    ensures h.fmt <= 2 ==> U24At(buf, pos) == if h.extended then EXTENDED else h.time
    ensures h.fmt <= 1 ==> U24At(buf, pos + 3) == |m.payload| && buf[pos + 6] == m.typ
    ensures h.fmt == 0 ==> Le32At(buf, pos + 7) == m.streamId
  {
    hide Le32, Le32At, Be, U24At, TimeBytes;
    var t, l := TimeBytes(h), Be(|m.payload|, 3) + [m.typ];
    if h.fmt <= 1 {
      var id := if h.fmt == 0 then Le32(m.streamId) else [];
      assert FixedBytes(m, h) == t + l + id;
      AtConcat(buf, pos, t + l, id);
      AtConcat(buf, pos, t, l);
      LengthRoundTrip(m, buf, pos + 3);
      if h.fmt == 0 {
        Le32RoundTrip(m.streamId, buf, pos + 7);
      }
    }
    if h.fmt <= 2 {
      TimeRoundTrip(h, buf, pos);
    }
  }

  lemma ExtendedRoundTrip(h: Head, buf: bytes, pos: nat)
    requires At(buf, pos, ExtendedTime(h))
    ensures h.extended ==> |buf| >= pos + 4 && U32At(buf, pos) == h.time
  {
    if h.extended {
      assert Pow256(4) == U32_SPAN;
      BeRoundTrip(h.time, 4, buf, pos);
    }
  }

  /** What the stream must remember for the fields that the header leaves out. */
  ghost predicate Inherits(st: Stream, m: Message, h: Head) {
    && (h.fmt >= 1 ==> st.streamId == m.streamId)
    && (h.fmt >= 2 ==> st.length == |m.payload| && st.typ == m.typ)
    && (h.fmt >= 3 ==> st.extended == h.extended && st.haveHeader)
  }

  function HeaderOf(m: Message, h: Head, size: nat): Header {
    Header(h.fmt, h.extended, if h.fmt <= 2 || h.extended then h.time else 0, |m.payload|, m.typ, m.streamId, size)
  }

  lemma HeaderAt(st: Stream, m: Message, h: Head, buf: bytes, pos: nat)
    requires Writable(m) && LegalHead(h) && Inherits(st, m, h)
    requires At(buf, pos, FixedBytes(m, h) + ExtendedTime(h))
    ensures ReadHeader(st, h.fmt, pos, buf) == Some(HeaderOf(m, h, pos + |FixedBytes(m, h) + ExtendedTime(h)|))
  {
    hide FixedBytes, ExtendedTime, U24At, U32At, Le32At;
    AtConcat(buf, pos, FixedBytes(m, h), ExtendedTime(h));
    FixedRoundTrip(m, h, buf, pos);
    ExtendedRoundTrip(h, buf, pos + |FixedBytes(m, h)|);
  }

  /** The reader recovers every header, whatever its format and whatever follows it. */
  lemma HeaderRoundTrip(st: Stream, m: Message, h: Head, rest: bytes)
    requires Writable(m) && LegalHead(h) && Inherits(st, m, h)
    ensures var pos := |BasicBytes(h.fmt, m.csid)|;
            var buf := ChunkHeader(m, h) + rest;
            && ReadBasic(buf) == Some(Basic(h.fmt, m.csid, pos))
            && pos + MessageHeaderSize(h.fmt) <= |buf|
            && ReadHeader(st, h.fmt, pos, buf) == Some(HeaderOf(m, h, |ChunkHeader(m, h)|))
  {
    hide ReadBasic, ReadHeader, BasicBytes, FixedBytes, ExtendedTime, Inherits;
    var basic, fields := BasicBytes(h.fmt, m.csid), FixedBytes(m, h) + ExtendedTime(h);
    var buf := ChunkHeader(m, h) + rest;
    assert buf == basic + (fields + rest);
    BasicRoundTrip(h.fmt, m.csid, fields + rest);
    AtFront(basic + fields, rest);
    AtConcat(buf, 0, basic, fields);
    HeaderAt(st, m, h, buf, |basic|);
  }

  // ---- a sender that may interleave messages on different chunk streams

  /** The last header sent on a chunk stream, against which later formats are compressed. */
  datatype Channel = Channel(
    timestamp: u32, delta: u32, length: nat, streamId: u32, typ: byte, extended: bool)

  datatype Pending = Pending(msg: Message, head: Head, sent: nat)

  datatype Sender = Sender(chunkSize: nat, channels: map<nat, Channel>, pending: map<nat, Pending>)

  datatype Action =
    | Start(msg: Message, fmt: nat)   // the first chunk of a message, in the given header format
    | Continue(csid: nat)             // the next chunk of the message in progress on a chunk stream

  ghost function Sizes(pending: map<nat, Pending>): map<nat, nat> {
    map k | k in pending :: |pending[k].msg.payload|
  }

  /** The format may leave out only what the last header on the chunk stream already says. */
  ghost predicate LegalFormat(s: Sender, m: Message, fmt: nat) {
    && fmt <= 3
    && (fmt >= 1 ==> m.csid in s.channels && s.channels[m.csid].streamId == m.streamId)
    && (fmt >= 2 ==> s.channels[m.csid].length == |m.payload| && s.channels[m.csid].typ == m.typ)
    && (fmt >= 3 ==> Plus32(s.channels[m.csid].timestamp, s.channels[m.csid].delta) == m.timestamp)
  }

  /** One message at a time per chunk stream, within the reader's caps, no illegal chunk size. */
  ghost predicate Legal(s: Sender, a: Action) {
    match a
    case Start(m, fmt) =>
      && LegalCsid(m.csid) && m.csid !in s.pending
      && |m.payload| <= MAX_MESSAGE
      && Sum(Sizes(s.pending)) + |m.payload| <= MAX_OUTSTANDING
      && (AnnouncesChunkSize(m) ==> LegalChunkSize(U32At(m.payload, 0)))
      && LegalFormat(s, m, fmt)
    case Continue(csid) => csid in s.pending && InProgress(csid, s.pending[csid])
  }

  /** Formats 1 and 2 carry the distance to the last timestamp; format 3 repeats the stored one. */
  function HeadFor(s: Sender, m: Message, fmt: nat): Head
    requires fmt >= 1 ==> m.csid in s.channels
  {
    if fmt == 0 then Plain(m)
    else
      var ch := s.channels[m.csid];
      var delta := (m.timestamp - ch.timestamp) % U32_SPAN;
      Head(fmt, delta, if fmt == 3 then ch.extended else delta >= EXTENDED)
  }

  function Current(s: Sender, a: Action): Pending
    requires if a.Start? then a.fmt >= 1 ==> a.msg.csid in s.channels else a.csid in s.pending
  {
    match a
    case Start(m, fmt) => Pending(m, HeadFor(s, m, fmt), 0)
    case Continue(csid) => s.pending[csid]
  }

  /** What a completed message means to its sender: a new chunk size, or an abandoned message. */
  function Obey(s: Sender, m: Message): Sender {
    if AnnouncesChunkSize(m) then s.(chunkSize := U32At(m.payload, 0))
    else if NamesAborted(m) then
      var target: nat := U32At(m.payload, 0);
      s.(channels := s.channels - {target}, pending := s.pending - {target})
    else s
  }

  function Progress(s: Sender, p: Pending): nat
    requires p.sent <= |p.msg.payload|
  {
    p.sent + BodySize(p.msg, s.chunkSize, p.sent)
  }

  /** The delta format 3 would repeat after this chunk. */
  function NewDelta(prior: u32, h: Head, sent: nat): u32 {
    if sent > 0 || h.fmt == 3 then prior else if h.fmt == 0 then 0 else h.time
  }

  function ChannelOf(m: Message, h: Head, delta: u32): Channel {
    Channel(m.timestamp, delta, |m.payload|, m.streamId, m.typ, h.extended)
  }

  function NewChannel(s: Sender, p: Pending): Channel {
    var prior := if p.msg.csid in s.channels then s.channels[p.msg.csid].delta else 0;
    ChannelOf(p.msg, p.head, NewDelta(prior, p.head, p.sent))
  }

  function Sent(s: Sender, p: Pending): Sender
    requires p.sent <= |p.msg.payload|
  {
    var m := p.msg;
    var sent := Progress(s, p);
    var s' := s.(channels := s.channels[m.csid := NewChannel(s, p)]);
    if sent == |m.payload| then Obey(s'.(pending := s.pending - {m.csid as nat}), m)
    else s'.(pending := s.pending[m.csid := p.(sent := sent)])
  }

  function Completed(s: Sender, p: Pending): seq<Message>
    requires p.sent <= |p.msg.payload|
  {
    if Progress(s, p) == |p.msg.payload| then [p.msg] else []
  }

  /** The stream remembers the last header of the channel. */
  ghost predicate Tracks(st: Stream, ch: Channel) {
    && st.haveHeader && st.extended == ch.extended
    && st.timestamp == ch.timestamp && st.delta == ch.delta
    && st.typ == ch.typ && st.streamId == ch.streamId && st.length == ch.length
  }

  /** The channel's last header is the one of this message. */
  ghost predicate Announced(ch: Channel, m: Message, h: Head) {
    && ch.timestamp == m.timestamp && ch.length == |m.payload| && ch.typ == m.typ && ch.streamId == m.streamId
    && ch.extended == h.extended
  }

  /** The stream has the first `sent` octets of `m` and waits for the others. */
  ghost predicate Holds(st: Stream, m: Message, sent: nat) {
    sent <= |m.payload| && st.assembling == m.payload[..sent] && st.remaining == |m.payload| - sent
  }

  ghost predicate InProgress(csid: nat, p: Pending) {
    && LegalCsid(csid) && p.msg.csid == csid && LegalHead(p.head)
    && 0 < p.sent < |p.msg.payload| <= MAX_MESSAGE
    && (AnnouncesChunkSize(p.msg) ==> LegalChunkSize(U32At(p.msg.payload, 0)))
  }

  ghost predicate PendingMatches(k: nat, p: Pending, channels: map<nat, Channel>, streams: map<nat, Stream>) {
    && InProgress(k, p)
    && k in channels && Announced(channels[k], p.msg, p.head)
    && k in streams && Holds(streams[k], p.msg, p.sent)
  }

  /** Reader and sender agree about every chunk stream's last header and every message in progress. */
  ghost predicate Match(channels: map<nat, Channel>, pending: map<nat, Pending>, streams: map<nat, Stream>) {
    && (forall k :: k in channels ==> k in streams && Tracks(streams[k], channels[k]))
    && (forall k :: k in pending ==> PendingMatches(k, pending[k], channels, streams))
    && (forall k :: k in streams && k !in pending ==> streams[k].remaining == 0)
  }

  ghost predicate InStep(s: Sender, c: Core) {
    && !c.failed && Budget(c)
    && c.chunkSize == s.chunkSize
    && Match(s.channels, s.pending, c.streams)
  }

  lemma FreshPair(size: nat)
    requires LegalChunkSize(size)
    ensures InStep(Sender(size, map[], map[]), INITIAL.(chunkSize := size))
  {
    InitialBudget();
  }

  /** The reader's counter is what the sender has outstanding. */
  lemma Outstanding(s: Sender, c: Core)
    requires InStep(s, c)
    ensures c.assemblingBytes == Sum(Sizes(s.pending))
  {
    hide Sum, Tracks, Announced;
    SumIgnoresZeros(Sizes(s.pending), Loads(c.streams));
  }

  lemma MatchAfter(channels: map<nat, Channel>, pending: map<nat, Pending>, streams: map<nat, Stream>,
                   p: Pending, ch: Channel, st: Stream)
    requires Match(channels, pending, streams)
    requires InProgress(p.msg.csid, p) && Announced(ch, p.msg, p.head) && Tracks(st, ch) && Holds(st, p.msg, p.sent)
    ensures var k := p.msg.csid;
            Match(channels[k := ch], pending[k := p], streams[k := st])
  {
    hide InProgress, Announced, Tracks, Holds;
  }

  lemma MatchDone(channels: map<nat, Channel>, pending: map<nat, Pending>, streams: map<nat, Stream>,
                  k: nat, ch: Channel, st: Stream)
    requires Match(channels, pending, streams)
    requires Tracks(st, ch) && st.remaining == 0
    ensures Match(channels[k := ch], pending - {k}, streams[k := st])
  {
    hide InProgress, Announced, Tracks, Holds;
  }

  lemma MatchAborted(channels: map<nat, Channel>, pending: map<nat, Pending>, streams: map<nat, Stream>, k: nat)
    requires Match(channels, pending, streams)
    ensures k in streams ==> Match(channels - {k}, pending - {k}, streams[k := Discard(streams[k])])
    ensures k !in streams ==> channels - {k} == channels && pending - {k} == pending
  {
    hide InProgress, Announced, Tracks, Holds;
  }

  /** The timestamp the header stands for is the message's. */
  ghost predicate Timed(st: Stream, m: Message, h: Head) {
    if h.fmt == 0 then h.time == m.timestamp
    else if h.fmt <= 2 then Plus32(st.timestamp, h.time) == m.timestamp
    else Plus32(st.timestamp, st.delta) == m.timestamp
  }

  /** The stream after the chunk of `m` at offset `sent` has been committed, in every format. */
  lemma CommitCarries(st: Stream, m: Message, h: Head, sent: nat, size: nat, body: bytes)
    requires Writable(m) && LegalHead(h)
    requires sent + |body| <= |m.payload| && body == m.payload[sent..sent + |body|]
    requires if sent == 0 then st.remaining == 0 && Timed(st, m, h)
             else st.timestamp == m.timestamp && Holds(st, m, sent) && sent < |m.payload|
    ensures var header := HeaderOf(m, HeadAt(h, sent), size);
            && Due(st, header) == |m.payload| - sent
            && var st' := Commit(st, header, body);
               && Holds(st', m, sent + |body|)
               && Tracks(st', ChannelOf(m, h, NewDelta(st.delta, h, sent)))
  {
    assert m.payload[..sent] + body == m.payload[..sent + |body|];
    assert m.payload[..0] + body == body;
  }

  lemma FinishMatches(s: Sender, c: Core, m: Message)
    requires !c.failed && m.csid in c.streams && m.csid in s.channels && m.csid !in s.pending
    requires Tracks(c.streams[m.csid], s.channels[m.csid]) && Holds(c.streams[m.csid], m, |m.payload|)
    requires var ch := s.channels[m.csid];
             ch.timestamp == m.timestamp && ch.typ == m.typ && ch.streamId == m.streamId
    requires c.chunkSize == s.chunkSize && Match(s.channels, s.pending, c.streams)
    requires AnnouncesChunkSize(m) ==> LegalChunkSize(U32At(m.payload, 0))
    ensures var r := Finalize(c, m.csid);
            && r.1 == [m] && !r.0.failed
            && r.0.chunkSize == Obey(s, m).chunkSize
            && Match(Obey(s, m).channels, Obey(s, m).pending, r.0.streams)
  {
    hide Match;
    var st := c.streams[m.csid];
    assert m.payload[..|m.payload|] == m.payload;
    assert MessageOf(m.csid, st) == m;
    var st', ch := st.(assembling := []), s.channels[m.csid];
    var streams := c.streams[m.csid := st'];
    MatchDone(s.channels, s.pending, c.streams, m.csid, ch, st');
    assert s.channels[m.csid := ch] == s.channels && s.pending - {m.csid as nat} == s.pending;
    if NamesAborted(m) {
      MatchAborted(s.channels, s.pending, streams, U32At(m.payload, 0));
    }
  }

  function NextHead(p: Pending): Head {
    HeadAt(p.head, p.sent)
  }

  /** `p` is ready to send its next chunk to `c`. */
  ghost predicate Sendable(s: Sender, c: Core, p: Pending) {
    && LegalCsid(p.msg.csid) && LegalHead(p.head) && p.sent <= |p.msg.payload| <= MAX_MESSAGE
    && (AnnouncesChunkSize(p.msg) ==> LegalChunkSize(U32At(p.msg.payload, 0)))
    && InStep(s, c) && p.msg.csid in c.streams
    && var st := c.streams[p.msg.csid];
       && Inherits(st, p.msg, NextHead(p))
       && (p.msg.csid in s.channels ==> st.delta == s.channels[p.msg.csid].delta)
       && if p.sent == 0 then
            && p.msg.csid !in s.pending && st.remaining == 0 && Timed(st, p.msg, p.head)
            && c.assemblingBytes + |p.msg.payload| <= MAX_OUTSTANDING
            && (p.head.fmt == 3 ==> p.msg.csid in s.channels)
          else
            && p.msg.csid in s.pending && s.pending[p.msg.csid] == p && p.msg.csid in s.channels
            && st.timestamp == p.msg.timestamp && Holds(st, p.msg, p.sent) && p.sent < |p.msg.payload|
  }

  lemma AbsorbMatches(s: Sender, c: Core, p: Pending, size: nat, body: bytes)
    requires Sendable(s, c, p)
    requires body == p.msg.payload[p.sent..Progress(s, p)]
    ensures var st, h := c.streams[p.msg.csid], HeaderOf(p.msg, NextHead(p), size);
            && Admits(c, st, h) && Due(st, h) == |p.msg.payload| - p.sent
            && var r := Absorb(c, p.msg.csid, h, body);
               r.1 == Completed(s, p) && InStep(Sent(s, p), r.0)
  {
    hide Finalize, Sum, Loads, Match, Inherits, Timed;
    var m := p.msg;
    var st, h := c.streams[m.csid], HeaderOf(m, NextHead(p), size);
    CommitCarries(st, m, p.head, p.sent, size, body);
    var st', ch := Commit(st, h, body), NewChannel(s, p);
    assert Tracks(st', ch);
    AbsorbBudget(c, m.csid, h, body);
    var c' := c.(streams := c.streams[m.csid := st'],
                 assemblingBytes := if st.remaining == 0 then c.assemblingBytes + h.length else c.assemblingBytes);
    if Progress(s, p) == |m.payload| {
      var s' := s.(channels := s.channels[m.csid := ch], pending := s.pending - {m.csid as nat});
      MatchDone(s.channels, s.pending, c.streams, m.csid, ch, st');
      FinishMatches(s', c', m);
    } else {
      MatchAfter(s.channels, s.pending, c.streams, p.(sent := Progress(s, p)), ch, st');
    }
  }

  /** Every legal format announces exactly the message's timestamp and leaves out only what the reader knows. */
  lemma HeadForFits(s: Sender, m: Message, fmt: nat, st: Stream)
    requires LegalFormat(s, m, fmt)
    requires m.csid in s.channels ==> Tracks(st, s.channels[m.csid])
    ensures var h := HeadFor(s, m, fmt);
            h.fmt == fmt && LegalHead(h) && Inherits(st, m, h) && Timed(st, m, h)
  {
  }

  lemma TouchKeepsStep(s: Sender, c: Core, csid: nat)
    requires InStep(s, c)
    ensures InStep(s, Touch(c, csid))
    ensures Touch(c, csid).assemblingBytes == c.assemblingBytes
  {
    hide Budget, InProgress, Announced, Tracks, Holds;
    TouchBudget(c, csid);
  }

  lemma StartReady(s: Sender, c: Core, m: Message, fmt: nat)
    requires InStep(s, c) && Legal(s, Start(m, fmt))
    ensures Sendable(s, Touch(c, m.csid), Current(s, Start(m, fmt)))
  {
    hide Budget, Sum, HeadFor, Inherits, Timed, LegalHead;
    Outstanding(s, c);
    TouchKeepsStep(s, c, m.csid);
    HeadForFits(s, m, fmt, Touch(c, m.csid).streams[m.csid]);
  }

  lemma ContinueReady(s: Sender, c: Core, csid: nat)
    requires InStep(s, c) && Legal(s, Continue(csid))
    ensures Sendable(s, Touch(c, csid), s.pending[csid])
  {
    hide Sum, Loads;
    assert PendingMatches(csid, s.pending[csid], s.channels, c.streams);
    assert Tracks(c.streams[csid], s.channels[csid]);
  }

  function Chunk(s: Sender, p: Pending): (r: bytes)
    requires LegalCsid(p.msg.csid) && p.head.fmt <= 3 && p.sent <= |p.msg.payload|
    ensures |r| >= 1
  {
    ChunkHeader(p.msg, NextHead(p)) + p.msg.payload[p.sent..Progress(s, p)]
  }

  /** Whatever follows it, the next chunk of a legal sender is consumed whole, completes exactly the
      message it ends, and leaves reader and sender in step. */
  lemma ChunkDelivered(s: Sender, c: Core, a: Action, rest: bytes)
    requires InStep(s, c) && Legal(s, a)
    ensures var p := Current(s, a);
            var chunk := Chunk(s, p);
            var r := Step(c, chunk + rest);
            r.Advance? && r.size == |chunk| && r.out == Completed(s, p) && InStep(Sent(s, p), r.core)
  {
    hide InStep, Sendable, Step, Chunk;
    NotFailed(s, c);
    if a.Start? {
      StartReady(s, c, a.msg, a.fmt);
    } else {
      ContinueReady(s, c, a.csid);
    }
    ChunkStep(s, c, Current(s, a), rest);
  }

  lemma ChunkStep(s: Sender, c: Core, p: Pending, rest: bytes)
    requires !c.failed && Sendable(s, Touch(c, p.msg.csid), p)
    ensures var chunk := Chunk(s, p);
            var r := Step(c, chunk + rest);
            r.Advance? && r.size == |chunk| && r.out == Completed(s, p) && InStep(Sent(s, p), r.core)
  {
    hide ReadBasic, ReadHeader, Absorb, Budget, Match, Admits, ChunkHeader, Sent, Completed, Timed, Holds;
    var m := p.msg;
    var c1 := Touch(c, m.csid);
    var st := c1.streams[m.csid];
    var body := m.payload[p.sent..Progress(s, p)];
    var chunk := Chunk(s, p);
    assert chunk + rest == ChunkHeader(m, NextHead(p)) + (body + rest);
    HeaderRoundTrip(st, m, NextHead(p), body + rest);
    var size := |ChunkHeader(m, NextHead(p))|;
    AbsorbMatches(s, c1, p, size, body);
    assert (chunk + rest)[size..size + |body|] == body;
  }

  lemma NotFailed(s: Sender, c: Core)
    requires InStep(s, c)
    ensures !c.failed
  {
  }

  // ---- whole runs

  ghost predicate LegalRun(s: Sender, run: seq<Action>)
    decreases |run|
  {
    run != [] ==> Legal(s, run[0]) && LegalRun(Sent(s, Current(s, run[0])), run[1..])
  }

  /** The bytes a run puts on the wire. */
  ghost function Wire(s: Sender, run: seq<Action>): bytes
    requires LegalRun(s, run)
    decreases |run|
  {
    if run == [] then []
    else
      var p := Current(s, run[0]);
      Chunk(s, p) + Wire(Sent(s, p), run[1..])
  }

  /** The messages of a run, in the order in which their last chunks are sent. */
  ghost function Deliveries(s: Sender, run: seq<Action>): seq<Message>
    requires LegalRun(s, run)
    decreases |run|
  {
    if run == [] then []
    else
      var p := Current(s, run[0]);
      Completed(s, p) + Deliveries(Sent(s, p), run[1..])
  }

  ghost function After(s: Sender, run: seq<Action>): Sender
    requires LegalRun(s, run)
    decreases |run|
  {
    if run == [] then s else After(Sent(s, Current(s, run[0])), run[1..])
  }

  /** Interleaved chunks of any messages in any header formats, control messages included: each message arrives
      intact, timestamp and all, once, in the order in which last chunks arrive; no byte is left over; and the two
      ends still agree about chunk size, last headers and every message in progress. */
  lemma {:induction false} InterleavedDelivery(s: Sender, c: Core, run: seq<Action>)
    requires InStep(s, c) && LegalRun(s, run)
    ensures var r := Parse(c, Wire(s, run));
            r.rest == [] && r.out == Deliveries(s, run) && InStep(After(s, run), r.core)
    decreases |run|
  {
    hide Step, InStep, Sent, Completed, Chunk;
    if run != [] {
      NotFailed(s, c);
      var p := Current(s, run[0]);
      var rest := Wire(Sent(s, p), run[1..]);
      ChunkDelivered(s, c, run[0], rest);
      var chunk := Chunk(s, p);
      var c' := Step(c, chunk + rest).core;
      assert (chunk + rest)[|chunk|..] == rest;
      InterleavedDelivery(Sent(s, p), c', run[1..]);
    }
  }
}
