/** The chunk writer: a fmt0 chunk first, fmt3 continuations after, extended timestamps repeated. */
module ChunkWriter {
  import opened Bytes
  import opened ChunkFormat

  const MAX_WRITABLE: nat := 0xFF_FFFF

  predicate LegalCsid(csid: nat) {
    2 <= csid <= 65599
  }

  /** What `write` accepts. */
  predicate Writable(m: Message) {
    LegalCsid(m.csid) && |m.payload| <= MAX_WRITABLE
  }

  predicate IsExtended(m: Message) {
    m.timestamp >= EXTENDED
  }

  function BasicBytes(fmt: nat, csid: nat): (r: bytes)
    requires fmt <= 3 && LegalCsid(csid)
    ensures 1 <= |r| <= 3
  {
    if csid < 64 then [64 * fmt + csid]
    else if csid < 320 then [64 * fmt, csid - 64]
    else [64 * fmt + 1, (csid - 64) % 256, (csid - 64) / 256]
  }

  function ExtendedBytes(m: Message): bytes {
    if IsExtended(m) then Be(m.timestamp, 4) else []
  }

  function MessageHeaderBytes(m: Message): (r: bytes)
    ensures |r| == 11
  {
    Be(if IsExtended(m) then EXTENDED else m.timestamp, 3) + Be(|m.payload|, 3) + [m.typ] + Le32(m.streamId)
  }

  /** The header of the chunk that starts at payload offset `sent`. */
  function HeaderBytes(m: Message, sent: nat): (r: bytes)
    requires LegalCsid(m.csid)
    ensures |r| >= 1
  {
    if sent == 0 then BasicBytes(0, m.csid) + MessageHeaderBytes(m) + ExtendedBytes(m)
    else BasicBytes(3, m.csid) + ExtendedBytes(m)
  }

  function BodySize(m: Message, size: nat, sent: nat): nat
    requires sent <= |m.payload|
  {
    Min(size, |m.payload| - sent)
  }

  function ChunkBytes(m: Message, size: nat, sent: nat): (r: bytes)
    requires LegalCsid(m.csid) && sent <= |m.payload|
    ensures |r| >= 1
  {
    HeaderBytes(m, sent) + m.payload[sent..sent + BodySize(m, size, sent)]
  }

  /** The chunks of `m` from payload offset `sent` on. */
  function WriteFrom(m: Message, size: nat, sent: nat): bytes
    requires LegalCsid(m.csid) && sent <= |m.payload| && size > 0
    decreases |m.payload| - sent
  {
    var next := sent + BodySize(m, size, sent);
    ChunkBytes(m, size, sent) + if next >= |m.payload| then [] else WriteFrom(m, size, next)
  }

  /** One turn of the write loop, behind bytes already written. */
  lemma WriteFromUnfold(m: Message, size: nat, sent: nat, before: bytes)
    requires LegalCsid(m.csid) && sent <= |m.payload| && size > 0
    ensures var next, after := sent + BodySize(m, size, sent), before + ChunkBytes(m, size, sent);
            && next <= |m.payload| && (next == |m.payload| || sent < next)
            && before + HeaderBytes(m, sent) + m.payload[sent..next] == after
            && before + WriteFrom(m, size, sent) ==
               if next == |m.payload| then after else after + WriteFrom(m, size, next)
  {
    hide HeaderBytes;
  }

  /** The control message `set_chunk_size` sends. */
  function SizeMessage(size: u32): Message {
    Message(0, SET_CHUNK_SIZE, 0, 2, Be(size, 4))
  }

  /** A payload cut at the chunk size, with a format 3 header for chunk stream 2 between the pieces. */
  function CutOn2(payload: bytes, size: nat): bytes
    requires size > 0
    decreases |payload|
  {
    if |payload| <= size then payload else payload[..size] + [0xC2] + CutOn2(payload[size..], size)
  }

  lemma CutUnfold(payload: bytes, size: nat, sent: nat)
    requires size > 0 && sent <= |payload|
    ensures var next := sent + Min(size, |payload| - sent);
            CutOn2(payload[sent..], size) ==
            payload[sent..next] + if next == |payload| then [] else [0xC2] + CutOn2(payload[next..], size)
  {
    var tail := payload[sent..];
    if |tail| > size {
      assert tail[..size] == payload[sent..sent + size] && tail[size..] == payload[sent + size..];
    }
  }

  lemma Regroup(a: bytes, b: bytes, c: bytes)
    ensures a + b + c == a + (b + c)
  {
  }

  lemma ContinuationOn2(m: Message, sent: nat)
    requires m.csid == 2 && m.timestamp < 0xFF_FFFF && sent > 0
    ensures HeaderBytes(m, sent) == [0xC2]
  {
  }

  lemma {:induction false} WriteFromOn2(m: Message, size: nat, sent: nat)
    requires m.csid == 2 && m.timestamp < 0xFF_FFFF && size > 0 && sent <= |m.payload|
    ensures WriteFrom(m, size, sent) == HeaderBytes(m, sent) + CutOn2(m.payload[sent..], size)
    decreases |m.payload| - sent
  {
    hide HeaderBytes, CutOn2, WriteFrom, ChunkBytes;
    var next := sent + BodySize(m, size, sent);
    var head, body := HeaderBytes(m, sent), m.payload[sent..next];
    WriteFromUnfold(m, size, sent, []);
    CutUnfold(m.payload, size, sent);
    assert [] + WriteFrom(m, size, sent) == WriteFrom(m, size, sent) && [] + head == head;
    if next < |m.payload| {
      WriteFromOn2(m, size, next);
      ContinuationOn2(m, next);
      Regroup(head, body, [0xC2] + CutOn2(m.payload[next..], size));
    } else {
      assert body + [] == body;
    }
  }

  /** The octets of the control message: format 0 on chunk stream 2, time 0, length 4, type 1, message stream 0, then
      the size, cut at the old chunk size. */
  lemma SizeOctets(n: u32, size: nat)
    requires size > 0
    ensures WriteFrom(SizeMessage(n), size, 0) ==
            [0x02, 0, 0, 0, 0, 0, 4, 1, 0, 0, 0, 0] + CutOn2(Be(n, 4), size)
  {
    hide WriteFrom, CutOn2;
    SizeHeader(n);
    WriteFromOn2(SizeMessage(n), size, 0);
    assert Be(n, 4)[0..] == Be(n, 4);
  }

  lemma SizeHeader(n: u32)
    ensures HeaderBytes(SizeMessage(n), 0) == [0x02, 0, 0, 0, 0, 0, 4, 1, 0, 0, 0, 0]
  {
    ZeroTime();
  }

  lemma ZeroTime()
    ensures Be(0, 3) == [0, 0, 0] && Be(4, 3) == [0, 0, 4]
  {
    assert Be(0, 1) == [0] && Be(0, 2) == [0, 0];
  }

  class Writer {
    var chunkSize: u32

    ghost predicate Valid()
      reads this
    {
      chunkSize > 0
    }

    constructor (size: u32)
      ensures Valid()
      ensures chunkSize == if size == 0 then DEFAULT_CHUNK_SIZE else size
    {
      chunkSize := if size == 0 then DEFAULT_CHUNK_SIZE else size;
    }

    method Write(m: Message, out: Sink) returns (ok: bool)
      requires Valid()
      modifies out
      ensures ok <==> 2 <= m.csid <= 65599 && |m.payload| <= 0xFF_FFFF
      ensures out.data == old(out.data) + if ok then WriteFrom(m, chunkSize, 0) else []
    {
      if !Writable(m) {
        return false;
      }
      WriteChunks(m, out);
      return true;
    }

    method WriteChunks(m: Message, out: Sink)
      requires Valid() && LegalCsid(m.csid)
      modifies out
      ensures out.data == old(out.data) + WriteFrom(m, chunkSize, 0)
    {
      hide HeaderBytes, WriteFrom, ChunkBytes, BodySize;
      ghost var goal, before := out.data + WriteFrom(m, chunkSize, 0), out.data;
      out.data := out.data + HeaderBytes(m, 0);
      var sent := 0;
      while true
        invariant sent <= |m.payload|
        invariant out.data == before + HeaderBytes(m, sent)
        invariant before + WriteFrom(m, chunkSize, sent) == goal
        decreases |m.payload| - sent
      {
        var take := BodySize(m, chunkSize, sent);
        WriteFromUnfold(m, chunkSize, sent, before);
        before := before + ChunkBytes(m, chunkSize, sent);
        out.data := out.data + m.payload[sent..sent + take];
        assert out.data == before;
        sent := sent + take;
        if sent >= |m.payload| {
          return;
        }
        out.data := out.data + HeaderBytes(m, sent);
      }
    }

    method SetChunkSize(size: u32, out: Sink)
      requires Valid()
      modifies this, out
      ensures Valid()
      ensures 0 < size < 0x8000_0000 ==>
                && out.data == old(out.data) + WriteFrom(SizeMessage(size), old(chunkSize), 0)
                && chunkSize == size
      ensures !(0 < size < 0x8000_0000) ==> out.data == old(out.data) && chunkSize == old(chunkSize)
    {
      if !LegalChunkSize(size) {
        return;
      }
      var ok := Write(SizeMessage(size), out);
      chunkSize := size;
    }
  }
}
