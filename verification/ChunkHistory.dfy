/** What any byte string does to a new reader, told by the chunks it consists of: every field of every chunk
    stream is given by the last chunk that carried it, and the reader fails for three reasons only. */
module ChunkHistory {
  import opened Bytes
  import opened MapSum
  import opened ChunkFormat
  import opened ChunkBudget

  // ---- chunks as they stand on the wire (section 5.3.1 of the RTMP 1.0 specification)

  /** Fields that the format leaves out are 0. */
  datatype Chunk = Chunk(
    basic: bytes, fmt: nat, csid: nat, field: nat, length: nat, typ: byte, streamId: u32, extension: bytes, body: bytes)

  /** The one-, two- and three-octet basic headers. */
  predicate BasicForm(b: bytes, fmt: nat, csid: nat) {
    && fmt <= 3
    && (|| (|b| == 1 && 2 <= csid <= 63 && b[0] == 64 * fmt + csid)
        || (|b| == 2 && b[0] == 64 * fmt && csid == 64 + b[1] as int)
        || (|b| == 3 && b[0] == 64 * fmt + 1 && csid == 64 + b[1] as int + 256 * b[2] as int))
  }

  /** The message header: 11, 7, 3 or 0 octets; only the message stream id is little-endian. */
  function HeaderOctets(x: Chunk): bytes {
    (if x.fmt <= 2 then Be(x.field, 3) else []) +
    (if x.fmt <= 1 then Be(x.length, 3) + [x.typ] else []) +
    (if x.fmt == 0 then Le32(x.streamId) else [])
  }

  function Octets(x: Chunk): bytes {
    x.basic + HeaderOctets(x) + x.extension + x.body
  }

  function Wire(h: seq<Chunk>): bytes
    decreases |h|
  {
    if h == [] then [] else Wire(Front(h)) + Octets(Last(h))
  }

  function Front(h: seq<Chunk>): seq<Chunk>
    requires h != []
  {
    h[..|h| - 1]
  }

  function Last(h: seq<Chunk>): Chunk
    requires h != []
  {
    h[|h| - 1]
  }

  // ---- what a history of chunks says about a chunk stream

  /** The last chunk of the chunk stream whose format is at most `fmt`, if any. */
  function LastWith(h: seq<Chunk>, k: nat, fmt: nat): Option<Chunk>
    decreases |h|
  {
    if h == [] then None
    else if Last(h).csid == k && Last(h).fmt <= fmt then Some(Last(h))
    else LastWith(Front(h), k, fmt)
  }

  /** The time a header carries: its 24-bit field, or the extension when the field is all ones. */
  function Time(x: Chunk): u32 {
    if x.fmt <= 2 && x.field == 0xFF_FFFF && |x.extension| == 4 then U32At(x.extension, 0)
    else if x.field < U32_SPAN then x.field
    else 0
  }

  function StreamIdOn(h: seq<Chunk>, k: nat): u32 {
    match LastWith(h, k, 0) case None => 0 case Some(x) => x.streamId
  }

  function LengthOn(h: seq<Chunk>, k: nat): nat {
    match LastWith(h, k, 1) case None => 0 case Some(x) => x.length
  }

  function TypeOn(h: seq<Chunk>, k: nat): byte {
    match LastWith(h, k, 1) case None => 0 case Some(x) => x.typ
  }

  function ExtendedOn(h: seq<Chunk>, k: nat): bool {
    match LastWith(h, k, 2) case None => false case Some(x) => x.field == 0xFF_FFFF
  }

  /** What a format 3 chunk that starts a message adds: nothing after format 0, the last delta otherwise. */
  function DeltaOn(h: seq<Chunk>, k: nat): u32 {
    match LastWith(h, k, 2) case None => 0 case Some(x) => if x.fmt == 0 then 0 else Time(x)
  }

  datatype Assembly = Assembly(octets: bytes, missing: nat)

  const IDLE: Assembly := Assembly([], 0)

  /** The message in progress on the chunk stream. */
  function InProgress(h: seq<Chunk>, k: nat): Assembly
    decreases |h|, 3
  {
    if h == [] || Aborts(h, k) then IDLE
    else if Last(h).csid != k then InProgress(Front(h), k)
    else if Joined(h).missing == 0 then IDLE
    else Joined(h)
  }

  /** The message to which the last chunk belongs, with that chunk's body. */
  function Joined(h: seq<Chunk>): Assembly
    requires h != []
    decreases |h|, 0
  {
    var k, body := Last(h).csid, Last(h).body;
    var a := InProgress(Front(h), k);
    var due := if a.missing == 0 then LengthOn(h, k) else a.missing;
    Assembly((if a.missing == 0 then [] else a.octets) + body, if |body| < due then due - |body| else 0)
  }

  /** The last chunk completes a message of the given type whose first four octets are there to be read. */
  predicate Commands(h: seq<Chunk>, typ: byte)
    decreases |h|, 1
  {
    h != [] && Joined(h).missing == 0 && TypeOn(h, Last(h).csid) == typ && |Joined(h).octets| >= 4
  }

  function Operand(h: seq<Chunk>): nat
    requires h != [] && |Joined(h).octets| >= 4
  {
    U32At(Joined(h).octets, 0)
  }

  /** The last chunk completes an Abort (message type 2) that names the chunk stream. */
  predicate Aborts(h: seq<Chunk>, k: nat)
    decreases |h|, 2
  {
    Commands(h, 2) && U32At(Joined(h).octets, 0) == k
  }

  /** Some chunk of the chunk stream has come since the start or the last Abort naming it. */
  predicate HasContext(h: seq<Chunk>, k: nat)
    decreases |h|
  {
    h != [] && !Aborts(h, k) && (Last(h).csid == k || HasContext(Front(h), k))
  }

  /** Deltas add up modulo 2^32; the chunks that continue a message leave the time alone, unless they carry one. */
  function TimestampOn(h: seq<Chunk>, k: nat): u32
    decreases |h|
  {
    if h == [] then 0
    else
      var before, x := TimestampOn(Front(h), k), Last(h);
      if x.csid != k then before
      else if x.fmt == 0 then Time(x)
      else if x.fmt <= 2 then (before + Time(x)) % 0x1_0000_0000
      else if InProgress(Front(h), k).missing > 0 then before
      else (before + DeltaOn(Front(h), k)) % 0x1_0000_0000
  }

  /** The last chunk completes a Set Chunk Size (message type 1) with the top bit set, or of zero. */
  predicate IllegalSize(h: seq<Chunk>) {
    Commands(h, 1) && (Operand(h) == 0 || Operand(h) >= 0x8000_0000)
  }

  /** The chunk size in force: 128 until a legal Set Chunk Size. */
  function SizeOn(h: seq<Chunk>): nat
    decreases |h|
  {
    if h == [] then 128
    else if Commands(h, 1) && !IllegalSize(h) then Operand(h)
    else SizeOn(Front(h))
  }

  /** The message the last chunk completes, unless that is an illegal Set Chunk Size. */
  function Surfaced(h: seq<Chunk>): seq<Message>
    requires h != []
  {
    var k := Last(h).csid;
    if Joined(h).missing == 0 && !IllegalSize(h) && k < U32_SPAN
    then [Message(TimestampOn(h, k), TypeOn(h, k), StreamIdOn(h, k), k, Joined(h).octets)]
    else []
  }

  function Messages(h: seq<Chunk>): seq<Message>
    decreases |h|
  {
    if h == [] then [] else Messages(Front(h)) + Surfaced(h)
  }

  /** Everything the reader remembers about a chunk stream. */
  function StateOn(h: seq<Chunk>, k: nat): Stream {
    Stream(TimestampOn(h, k), DeltaOn(h, k), LengthOn(h, k), StreamIdOn(h, k), TypeOn(h, k),
           ExtendedOn(h, k), HasContext(h, k), InProgress(h, k).octets, InProgress(h, k).missing)
  }

  // ---- the chunks a reader consumes

  function View(c: Core, k: nat): Stream {
    if k in c.streams then c.streams[k] else FRESH
  }

  /** The chunk at the front of the buffer, taken apart. */
  function ChunkAt(c: Core, buf: bytes): Chunk
    requires !c.failed && buf != [] && Step(c, buf).Advance?
  {
    var b, end := ReadBasic(buf).value, Step(c, buf).size;
    var at := b.size + MessageHeaderSize(b.fmt);
    var from := ReadHeader(View(c, b.csid), b.fmt, b.size, buf).value.size;
    Chunk(buf[..b.size], b.fmt, b.csid,
          if b.fmt <= 2 then U24At(buf, b.size) else 0,
          if b.fmt <= 1 then U24At(buf, b.size + 3) else 0,
          if b.fmt <= 1 then buf[b.size + 6] else 0,
          if b.fmt == 0 then Le32At(buf, b.size + 7) else 0,
          buf[at..from], buf[from..end])
  }

  /** The chunks that parsing `buf` consumes, behind those consumed before. */
  function Consumed(c: Core, buf: bytes, h: seq<Chunk>): seq<Chunk>
    decreases |buf|
  {
    if c.failed || buf == [] || !Step(c, buf).Advance? then h
    else
      var r := Step(c, buf);
      Consumed(r.core, buf[r.size..], h + [ChunkAt(c, buf)])
  }

  /** `x` has the shape a chunk must have after `h`: an extension exactly when the timestamp field, or for format 3 the
      last one, is all ones; and as much of the message as the chunk size in force allows. */
  ghost predicate Continues(h: seq<Chunk>, x: Chunk) {
    var a := InProgress(h, x.csid);
    && BasicForm(x.basic, x.fmt, x.csid)
    && |x.extension| == (if Extends(h, x.fmt, x.csid, x.field) then 4 else 0)
    && |x.body| == Min(if a.missing == 0 then LengthOn(h + [x], x.csid) else a.missing, SizeOn(h))
  }

  ghost predicate Extends(h: seq<Chunk>, fmt: nat, k: nat, field: nat) {
    if fmt <= 2 then field == 0xFF_FFFF else ExtendedOn(h, k)
  }

  ghost predicate Regular(h: seq<Chunk>)
    decreases |h|
  {
    h != [] ==> Regular(Front(h)) && Continues(Front(h), Last(h))
  }

  // ---- one more chunk

  lemma Grows(h: seq<Chunk>, x: Chunk)
    ensures h + [x] != [] && Front(h + [x]) == h && Last(h + [x]) == x
  {
  }

  lemma LastWithAfter(h: seq<Chunk>, x: Chunk, k: nat)
    ensures forall fmt: nat :: LastWith(h + [x], k, fmt) ==
                               if x.csid == k && x.fmt <= fmt then Some(x) else LastWith(h, k, fmt)
  {
    Grows(h, x);
  }

  /** The chunk stream of the last chunk: its header taken over, its body joined. */
  ghost function Taken(h: seq<Chunk>): Stream
    requires h != []
  {
    var k := Last(h).csid;
    Stream(TimestampOn(h, k), DeltaOn(h, k), LengthOn(h, k), StreamIdOn(h, k), TypeOn(h, k),
           ExtendedOn(h, k), true, Joined(h).octets, Joined(h).missing)
  }

  lemma StateHere(h: seq<Chunk>)
    requires h != []
    ensures var k, st := Last(h).csid, Taken(h);
            StateOn(h, k) ==
            if st.remaining > 0 then st
            else if Aborts(h, k) then Discard(st) else st.(assembling := [])
  {
    hide Joined, TimestampOn, DeltaOn, LengthOn, StreamIdOn, ExtendedOn;
    assert Aborts(h, Last(h).csid) ==> Commands(h, 2);
    assert Commands(h, 2) ==> Joined(h).missing == 0;
  }

  lemma StateElsewhere(h: seq<Chunk>, k: nat)
    requires h != [] && Last(h).csid != k
    ensures StateOn(h, k) == if Aborts(h, k) then Discard(StateOn(Front(h), k)) else StateOn(Front(h), k)
  {
  }

  /** What the reader makes of the header of `x` after `h`. */
  ghost predicate Reads(hd: Header, h: seq<Chunk>, x: Chunk) {
    var h', k := h + [x], x.csid;
    && hd.fmt == x.fmt && hd.length == LengthOn(h', k) && hd.typ == TypeOn(h', k)
    && hd.streamId == StreamIdOn(h', k) && hd.extended == ExtendedOn(h', k)
    && (x.fmt <= 2 ==> hd.time == Time(x))
  }

  lemma CommitFollows(h: seq<Chunk>, x: Chunk, hd: Header)
    requires Reads(hd, h, x) && |x.body| <= Due(StateOn(h, x.csid), hd)
    ensures Commit(StateOn(h, x.csid), hd, x.body) == Taken(h + [x])
    ensures Joined(h + [x]).missing == Due(StateOn(h, x.csid), hd) - |x.body|
  {
    hide LengthOn, TypeOn, StreamIdOn, ExtendedOn, InProgress, HasContext, Time;
    Grows(h, x);
    LastWithAfter(h, x, x.csid);
  }

  // ---- the reader follows its history

  ghost predicate Follows(c: Core, h: seq<Chunk>) {
    && Budget(c) && c.chunkSize == SizeOn(h)
    && forall k: nat :: View(c, k) == StateOn(h, k)
  }

  lemma StartFollows()
    ensures Follows(INITIAL, [])
  {
    InitialBudget();
  }

  lemma TouchFollows(c: Core, h: seq<Chunk>, k: nat)
    requires Follows(c, h)
    ensures Follows(Touch(c, k), h) && Touch(c, k).streams[k] == StateOn(h, k)
    ensures Touch(c, k).assemblingBytes == c.assemblingBytes && Touch(c, k).failed == c.failed
  {
    hide StateOn, Budget;
    TouchBudget(c, k);
    assert View(c, k) == StateOn(h, k);
    forall j: nat
      ensures View(Touch(c, k), j) == StateOn(h, j)
    {
      assert View(c, j) == StateOn(h, j);
    }
  }

  /** The last chunk leaves its message unfinished. */
  lemma PartFollows(c: Core, h: seq<Chunk>, c': Core)
    requires h != [] && Follows(c, Front(h)) && Taken(h).remaining > 0
    requires Budget(c') && c'.streams == c.streams[Last(h).csid := Taken(h)] && c'.chunkSize == c.chunkSize
    ensures Follows(c', h) && Surfaced(h) == [] && !IllegalSize(h)
  {
    hide StateOn, Budget;
    StateHere(h);
    forall k: nat
      ensures View(c', k) == StateOn(h, k)
    {
      assert View(c, k) == StateOn(Front(h), k);
      if k != Last(h).csid {
        StateElsewhere(h, k);
      }
    }
  }

  lemma CommandsMean(h: seq<Chunk>, m: Message)
    requires h != [] && Joined(h).missing == 0 && m.typ == Taken(h).typ && m.payload == Taken(h).assembling
    ensures AnnouncesChunkSize(m) == Commands(h, 1) && NamesAborted(m) == Commands(h, 2)
    ensures |m.payload| >= 4 ==> Operand(h) == U32At(m.payload, 0)
    ensures AnnouncesChunkSize(m) ==> LegalChunkSize(U32At(m.payload, 0)) == !IllegalSize(h)
  {
    hide U32At, Joined;
  }

  /** The last chunk completes its message. */
  lemma WholeFollows(c: Core, h: seq<Chunk>, c1: Core)
    requires h != [] && Follows(c, Front(h)) && Taken(h).remaining == 0 && !c.failed && Last(h).csid < U32_SPAN
    requires c1.streams == c.streams[Last(h).csid := Taken(h)] && c1.chunkSize == c.chunkSize && !c1.failed
    requires Budget(Finalize(c1, Last(h).csid).0)
    ensures var (c', out) := Finalize(c1, Last(h).csid);
            Follows(c', h) && out == Surfaced(h) && c'.failed == IllegalSize(h)
  {
    hide StateOn, Budget, Taken, Joined, U32At, LegalChunkSize;
    var k := Last(h).csid;
    var st := Taken(h);
    var m := MessageOf(k, st);
    TakenJoined(h);
    CommandsMean(h, m);
    StateHere(h);
    var c' := Finalize(c1, k).0;
    forall j: nat
      ensures View(c', j) == StateOn(h, j)
    {
      assert View(c, j) == StateOn(Front(h), j);
      if j != k {
        StateElsewhere(h, j);
      }
    }
  }

  lemma TakenJoined(h: seq<Chunk>)
    requires h != []
    ensures var st, k := Taken(h), Last(h).csid;
            && st.assembling == Joined(h).octets && st.remaining == Joined(h).missing
            && st.timestamp == TimestampOn(h, k) && st.typ == TypeOn(h, k) && st.streamId == StreamIdOn(h, k)
  {
  }
}
