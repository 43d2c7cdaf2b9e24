/** The chunk layer's data and what one pass of the reader's parse loop does to it.

    `Step` looks at the chunk at the front of the buffer; `Parse` repeats it over a whole byte
    string and is the one-shot meaning of the incremental reader. */
module ChunkFormat {
  import opened Bytes

  datatype Message = Message(timestamp: u32, typ: byte, streamId: u32, csid: u32, payload: bytes)

  const DEFAULT_CHUNK_SIZE: nat := 128
  const MAX_MESSAGE: nat := 8 * 1024 * 1024
  const MAX_OUTSTANDING: nat := 32 * 1024 * 1024
  const SET_CHUNK_SIZE: byte := 1
  const ABORT: byte := 2
  const EXTENDED: u32 := 0xFF_FFFF

  /** What the reader remembers about one chunk stream. */
  datatype Stream = Stream(
    timestamp: u32, delta: u32, length: nat, streamId: u32, typ: byte,
    extended: bool, haveHeader: bool, assembling: bytes, remaining: nat)

  const FRESH: Stream := Stream(0, 0, 0, 0, 0, false, false, [], 0)

  /** The reader's fields other than its raw buffer and its ready queue. */
  datatype Core = Core(streams: map<nat, Stream>, chunkSize: nat, assemblingBytes: nat, failed: bool)

  const INITIAL: Core := Core(map[], DEFAULT_CHUNK_SIZE, 0, false)

  datatype Basic = Basic(fmt: nat, csid: nat, size: nat)

  /** One, two or three octets of basic header, or None while they are incomplete. */
  function ReadBasic(buf: bytes): (r: Option<Basic>)
    requires buf != []
    ensures r.Some? ==> r.value.fmt <= 3 && r.value.csid <= 65599 && 1 <= r.value.size <= 3 && r.value.size <= |buf|
    ensures r.None? ==> |buf| < 3
  {
    var fmt, low := buf[0] / 64, buf[0] % 64;
    if low == 0 then
      if |buf| < 2 then None else Some(Basic(fmt, 64 + buf[1] as int, 2))
    else if low == 1 then
      if |buf| < 3 then None else Some(Basic(fmt, 64 + buf[1] as int + 256 * buf[2] as int, 3))
    else
      Some(Basic(fmt, low, 1))
  }

  function MessageHeaderSize(fmt: nat): nat {
    if fmt == 0 then 11 else if fmt == 1 then 7 else if fmt == 2 then 3 else 0
  }

  /** A chunk header with inherited fields filled in; `size` counts basic header and extended timestamp. */
  datatype Header = Header(
    fmt: nat, extended: bool, time: u32, length: nat, typ: byte, streamId: u32, size: nat)

  /** None while the extended timestamp is incomplete. */
  function ReadHeader(st: Stream, fmt: nat, pos: nat, buf: bytes): (r: Option<Header>)
    requires fmt <= 3 && pos + MessageHeaderSize(fmt) <= |buf|
    ensures r.Some? ==> pos + MessageHeaderSize(fmt) <= r.value.size <= |buf|
    ensures r.Some? ==> r.value.size <= pos + MessageHeaderSize(fmt) + 4
    ensures r.None? ==> |buf| < pos + MessageHeaderSize(fmt) + 4
  {
    var field := if fmt <= 2 then U24At(buf, pos) else 0;
    var extended := if fmt <= 2 then field == EXTENDED else st.extended;
    var end := pos + MessageHeaderSize(fmt);
    if extended && |buf| < end + 4 then None
    else
      Some(Header(
             fmt, extended,
             if extended then U32At(buf, end) else field,
             if fmt <= 1 then U24At(buf, pos + 3) else st.length,
             if fmt <= 1 then buf[pos + 6] else st.typ,
             if fmt == 0 then Le32At(buf, pos + 7) else st.streamId,
             if extended then end + 4 else end))
  }

  /** Octets the message on this chunk stream still needs once `h` is taken into account. */
  function Due(st: Stream, h: Header): nat {
    if st.remaining == 0 then h.length else st.remaining
  }

  /** The per-message and the aggregate cap, checked when an assembly starts. */
  predicate Admits(c: Core, st: Stream, h: Header) {
    st.remaining == 0 ==> h.length <= MAX_MESSAGE && c.assemblingBytes + h.length <= MAX_OUTSTANDING
  }

  function Plus32(a: u32, b: u32): u32 {
    (a + b) % U32_SPAN
  }

  /** The stream after a complete chunk: header fields committed, body appended. */
  function Commit(st: Stream, h: Header, body: bytes): (r: Stream)
    requires |body| <= Due(st, h)
  {
    Stream(
      if h.fmt == 0 then h.time
      else if h.fmt <= 2 then Plus32(st.timestamp, h.time)
      else if st.remaining == 0 then Plus32(st.timestamp, st.delta)
      else st.timestamp,
      if h.fmt == 0 then 0 else if h.fmt <= 2 then h.time else st.delta,
      h.length, h.streamId, h.typ, h.extended, true,
      (if st.remaining == 0 then [] else st.assembling) + body,
      Due(st, h) - |body|)
  }

  function MessageOf(csid: nat, st: Stream): Message
    requires csid < U32_SPAN
  {
    Message(st.timestamp, st.typ, st.streamId, csid, st.assembling)
  }

  function Saturating(a: nat, b: nat): nat {
    a - Min(a, b)
  }

  predicate AnnouncesChunkSize(m: Message) {
    m.typ == SET_CHUNK_SIZE && |m.payload| >= 4
  }

  predicate LegalChunkSize(size: nat) {
    0 < size < 0x8000_0000
  }

  predicate NamesAborted(m: Message) {
    m.typ == ABORT && |m.payload| >= 4
  }

  function Discard(st: Stream): Stream {
    st.(assembling := [], remaining := 0, haveHeader := false)
  }

  function Load(st: Stream): nat {
    |st.assembling| + st.remaining
  }

  /** The effect a completed message has on the reader itself. */
  function Apply(c: Core, m: Message): Core {
    if AnnouncesChunkSize(m) then
      var size := U32At(m.payload, 0);
      if LegalChunkSize(size) then c.(chunkSize := size) else c.(failed := true)
    else if NamesAborted(m) then
      var target := U32At(m.payload, 0);
      if target in c.streams then
        c.(streams := c.streams[target := Discard(c.streams[target])],
           assemblingBytes := Saturating(c.assemblingBytes, Load(c.streams[target])))
      else c
    else c
  }

  /** Takes the finished assembly out of its stream and applies the message. */
  function Finalize(c: Core, csid: nat): (r: (Core, seq<Message>))
    requires csid in c.streams && csid < U32_SPAN
  {
    var st := c.streams[csid];
    var m := MessageOf(csid, st);
    var c' := Apply(
                c.(streams := c.streams[csid := st.(assembling := [])],
                   assemblingBytes := Saturating(c.assemblingBytes, |m.payload|)), m);
    (c', if c'.failed then [] else [m])
  }

  datatype StepResult =
    | Wait(core: Core)                                    // the chunk is not complete yet
    | Reject(core: Core)                                  // the connection is lost
    | Advance(core: Core, size: nat, out: seq<Message>)   // one chunk consumed

  /** Looking a chunk stream up creates its entry. */
  function Touch(c: Core, csid: nat): Core {
    if csid in c.streams then c else c.(streams := c.streams[csid := FRESH])
  }

  /** Commits the chunk body and finishes the message if that was its last chunk. */
  function Absorb(c: Core, csid: nat, h: Header, body: bytes): (r: (Core, seq<Message>))
    requires csid in c.streams && csid < U32_SPAN
    requires |body| <= Due(c.streams[csid], h)
  {
    var st := c.streams[csid];
    var c' := c.(streams := c.streams[csid := Commit(st, h, body)],
                 assemblingBytes := if st.remaining == 0 then c.assemblingBytes + h.length else c.assemblingBytes);
    if Due(st, h) == |body| then Finalize(c', csid) else (c', [])
  }

  /** Everything after the message header is known to be complete. */
  function StepOn(c: Core, csid: nat, fmt: nat, pos: nat, buf: bytes): (r: StepResult)
    requires csid in c.streams && csid < U32_SPAN
    requires fmt <= 3 && 1 <= pos <= 3 && pos + MessageHeaderSize(fmt) <= |buf|
    ensures r.Advance? ==> 1 <= r.size <= |buf|
    ensures r.Reject? ==> r.core.failed
  {
    var st := c.streams[csid];
    if fmt == 3 && !st.haveHeader then Reject(c.(failed := true))
    else
      match ReadHeader(st, fmt, pos, buf)
      case None => Wait(c)
      case Some(h) =>
        if !Admits(c, st, h) then Reject(c.(failed := true))
        else
          var end := h.size + Min(Due(st, h), c.chunkSize);
          if |buf| < end then Wait(c)
          else
            var (c', out) := Absorb(c, csid, h, buf[h.size..end]);
            Advance(c', end, out)
  }

  function Step(c: Core, buf: bytes): (r: StepResult)
    requires !c.failed && buf != []
    ensures r.Advance? ==> 1 <= r.size <= |buf|
    ensures r.Reject? ==> r.core.failed
  {
    match ReadBasic(buf)
    case None => Wait(c)
    case Some(b) =>
      if |buf| < b.size + MessageHeaderSize(b.fmt) then Wait(c)
      else StepOn(Touch(c, b.csid), b.csid, b.fmt, b.size, buf)
  }

  datatype Outcome = Outcome(core: Core, rest: bytes, out: seq<Message>)

  /** The parse loop run to its end on `buf`. */
  function Parse(c: Core, buf: bytes): Outcome
    decreases |buf|
  {
    if c.failed || buf == [] then Outcome(c, buf, [])
    else
      match Step(c, buf)
      case Wait(c') => Outcome(c', buf, [])
      case Reject(c') => Outcome(c', buf, [])
      case Advance(c', size, out) =>
        var r := Parse(c', buf[size..]);
        r.(out := out + r.out)
  }
}
