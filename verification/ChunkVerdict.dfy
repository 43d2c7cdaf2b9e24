/** The reader over all byte strings: its messages, its state and its failure, read off the chunks it consumed. */
module ChunkVerdict {
  import opened Bytes
  import opened MapSum
  import opened ChunkFormat
  import opened ChunkBudget
  import opened ChunkHistory
  import ChunkReader
  import ChunkWriter

  // ---- taking a chunk apart loses nothing

  /** Every basic header, shortest form or not, is read as what its octets say. */
  lemma BasicIff(buf: bytes, fmt: nat, csid: nat, n: nat)
    requires buf != []
    ensures ReadBasic(buf) == Some(Basic(fmt, csid, n)) <==> n <= |buf| && BasicForm(buf[..n], fmt, csid)
  {
  }

  /** The writer's basic header is the shortest one. */
  lemma BasicShortest(fmt: nat, csid: nat, b: bytes)
    requires fmt <= 3 && ChunkWriter.LegalCsid(csid)
    ensures BasicForm(ChunkWriter.BasicBytes(fmt, csid), fmt, csid)
    ensures BasicForm(b, fmt, csid) ==> |ChunkWriter.BasicBytes(fmt, csid)| <= |b|
  {
  }

  /** `x` has the header fields that stand in `buf` from `pos` on. */
  ghost predicate Stands(x: Chunk, buf: bytes, pos: nat) {
    && x.fmt <= 3 && pos + MessageHeaderSize(x.fmt) <= |buf|
    && x.field == (if x.fmt <= 2 then U24At(buf, pos) else 0)
    && x.length == (if x.fmt <= 1 then U24At(buf, pos + 3) else 0)
    && x.typ == (if x.fmt <= 1 then buf[pos + 6] else 0)
    && x.streamId == (if x.fmt == 0 then Le32At(buf, pos + 7) else 0)
  }

  lemma HeaderPrinted(x: Chunk, buf: bytes, pos: nat)
    requires Stands(x, buf, pos)
    ensures HeaderOctets(x) == buf[pos..pos + MessageHeaderSize(x.fmt)]
  {
    hide Be, BeAt, Le32, Le32At;
    if x.fmt <= 2 {
      BeOfBeAt(buf, pos, 3);
    }
    if x.fmt <= 1 {
      BeOfBeAt(buf, pos + 3, 3);
    }
    if x.fmt == 0 {
      Le32OfLe32At(buf, pos + 7);
    }
  }

  lemma ExtensionRead(buf: bytes, at: nat)
    requires at + 4 <= |buf|
    ensures U32At(buf[at..at + 4], 0) == U32At(buf, at)
  {
    BeAtSlice(buf, at, 4);
  }

  lemma HeaderReads(h: seq<Chunk>, x: Chunk, buf: bytes, pos: nat)
    requires Stands(x, buf, pos)
    requires var r := ReadHeader(StateOn(h, x.csid), x.fmt, pos, buf);
             r.Some? && x.extension == buf[pos + MessageHeaderSize(x.fmt)..r.value.size]
    ensures Reads(ReadHeader(StateOn(h, x.csid), x.fmt, pos, buf).value, h, x)
    ensures |x.extension| == if Extends(h, x.fmt, x.csid, x.field) then 4 else 0
  {
    hide U24At, U32At, Le32At, InProgress, HasContext, TimestampOn;
    var at := pos + MessageHeaderSize(x.fmt);
    LastWithAfter(h, x, x.csid);
    if at + 4 <= |buf| {
      ExtensionRead(buf, at);
    }
  }

  /** One step that advances, in terms of the chunk it consumed. */
  ghost predicate Dissects(c: Core, buf: bytes, x: Chunk, hd: Header, r: StepResult)
    requires !c.failed && buf != []
  {
    var pos, c1 := |x.basic|, Touch(c, x.csid);
    && r.Advance? && BasicForm(x.basic, x.fmt, x.csid) && x.basic <= buf && Stands(x, buf, pos)
    && pos + MessageHeaderSize(x.fmt) <= hd.size <= r.size <= |buf|
    && ReadHeader(c1.streams[x.csid], x.fmt, pos, buf) == Some(hd)
    && x.extension == buf[pos + MessageHeaderSize(x.fmt)..hd.size] && x.body == buf[hd.size..r.size]
    && |x.body| == Min(Due(c1.streams[x.csid], hd), c.chunkSize)
    && x.csid < U32_SPAN
    && Admits(c1, c1.streams[x.csid], hd)
    && (r.core, r.out) == Absorb(c1, x.csid, hd, x.body)
  }

  lemma StepDissects(c: Core, buf: bytes) returns (hd: Header)
    requires !c.failed && buf != [] && Step(c, buf).Advance?
    ensures Dissects(c, buf, ChunkAt(c, buf), hd, Step(c, buf))
  {
    hide ReadHeader, Absorb, U24At, U32At, Le32At, Admits;
    var b := ReadBasic(buf).value;
    BasicIff(buf, b.fmt, b.csid, b.size);
    hide ReadBasic, BasicForm;
    hd := ReadHeader(View(c, b.csid), b.fmt, b.size, buf).value;
  }

  lemma OctetsConsumed(x: Chunk, buf: bytes, from: nat, end: nat)
    requires x.basic <= buf && Stands(x, buf, |x.basic|)
    requires |x.basic| + MessageHeaderSize(x.fmt) <= from <= end <= |buf|
    requires x.extension == buf[|x.basic| + MessageHeaderSize(x.fmt)..from] && x.body == buf[from..end]
    ensures Octets(x) == buf[..end]
  {
    hide HeaderOctets, MessageHeaderSize, U24At, Le32At;
    HeaderPrinted(x, buf, |x.basic|);
    var at := |x.basic| + MessageHeaderSize(x.fmt);
    FourParts(buf, |x.basic|, at, from, end);
  }

  lemma FourParts(s: bytes, i: nat, j: nat, k: nat, n: nat)
    requires i <= j <= k <= n <= |s|
    ensures s[..n] == s[..i] + s[i..j] + s[j..k] + s[k..n]
  {
  }

  // ---- one step

  lemma AdvanceFollows(c: Core, h: seq<Chunk>, buf: bytes)
    requires Follows(c, h) && !c.failed && buf != [] && Step(c, buf).Advance?
    ensures var r, h' := Step(c, buf), h + [ChunkAt(c, buf)];
            && Octets(ChunkAt(c, buf)) == buf[..r.size] && Continues(h, ChunkAt(c, buf))
            && Follows(r.core, h') && r.out == Surfaced(h') && r.core.failed == IllegalSize(h')
  {
    hide Step, ChunkAt, Absorb, ReadHeader, Octets, StateOn, Stands, Budget, BasicForm, Admits;
    var hd := StepDissects(c, buf);
    var x := ChunkAt(c, buf);
    var c1 := Touch(c, x.csid);
    TouchFollows(c, h, x.csid);
    OctetsConsumed(x, buf, hd.size, Step(c, buf).size);
    HeaderReads(h, x, buf, |x.basic|);
    DueAfter(h, x, hd);
    AbsorbFollows(c1, h, x, hd);
  }

  lemma DueAfter(h: seq<Chunk>, x: Chunk, hd: Header)
    requires Reads(hd, h, x)
    ensures Due(StateOn(h, x.csid), hd) ==
            var a := InProgress(h, x.csid); if a.missing == 0 then LengthOn(h + [x], x.csid) else a.missing
  {
    hide InProgress, LengthOn;
  }

  lemma AbsorbFollows(c: Core, h: seq<Chunk>, x: Chunk, hd: Header)
    requires Follows(c, h) && !c.failed && x.csid in c.streams && x.csid < U32_SPAN
    requires Reads(hd, h, x) && |x.body| <= Due(c.streams[x.csid], hd) && Admits(c, c.streams[x.csid], hd)
    ensures var (c', out) := Absorb(c, x.csid, hd, x.body);
            Follows(c', h + [x]) && out == Surfaced(h + [x]) && c'.failed == IllegalSize(h + [x])
  {
    hide StateOn, Budget, Taken, Surfaced, IllegalSize, Reads, Finalize, Commit, Joined;
    var st, h' := c.streams[x.csid], h + [x];
    assert View(c, x.csid) == StateOn(h, x.csid);
    Grows(h, x);
    CommitFollows(h, x, hd);
    TakenJoined(h');
    AbsorbBudget(c, x.csid, hd, x.body);
    var c1 := c.(streams := c.streams[x.csid := Commit(st, hd, x.body)],
                 assemblingBytes := if st.remaining == 0 then c.assemblingBytes + hd.length else c.assemblingBytes);
    if Due(st, hd) == |x.body| {
      WholeFollows(c, h', c1);
    } else {
      PartFollows(c, h', c1);
    }
  }

  // ---- why a reader fails

  ghost function Ids(h: seq<Chunk>): set<nat> {
    set i | 0 <= i < |h| :: h[i].csid
  }

  /** The sizes of the messages in progress. */
  ghost function Sizes(h: seq<Chunk>): map<nat, nat> {
    map k | k in Ids(h) && InProgress(h, k).missing > 0 :: |InProgress(h, k).octets| + InProgress(h, k).missing
  }

  ghost function Outstanding(h: seq<Chunk>): nat {
    Sum(Sizes(h))
  }

  lemma {:induction false} IdleUnlessSeen(h: seq<Chunk>, k: nat)
    ensures InProgress(h, k).missing > 0 ==> k in Ids(h)
    decreases |h|
  {
    hide Joined;
    if h != [] && Last(h).csid != k {
      IdleUnlessSeen(Front(h), k);
      assert forall i :: 0 <= i < |Front(h)| ==> Front(h)[i] == h[i];
    }
  }

  lemma OutstandingIs(c: Core, h: seq<Chunk>)
    requires Follows(c, h)
    ensures c.assemblingBytes == Outstanding(h)
  {
    hide InProgress, TimestampOn, DeltaOn, LengthOn, StreamIdOn, TypeOn, ExtendedOn, HasContext, SizeOn, Sum;
    var m := Sizes(h);
    forall k: nat
      ensures View(c, k).remaining > 0 ==> k in m && k in c.streams && m[k] == Load(c.streams[k])
      ensures View(c, k).remaining == 0 ==> k !in m
    {
      assert View(c, k) == StateOn(h, k);
      IdleUnlessSeen(h, k);
    }
    forall k: nat | k in c.streams && k !in m
      ensures Loads(c.streams)[k] == 0
    {
      assert View(c, k) == c.streams[k] && Bounded(c.streams[k]);
    }
    assert m.Keys <= Loads(c.streams).Keys by {
      forall k | k in m
        ensures k in c.streams
      {
        assert View(c, k).remaining > 0;
      }
    }
    SumIgnoresZeros(m, Loads(c.streams));
  }

  /** The chunk that starts with `n` octets of basic header is refused as soon as its header is complete: it has format
      3 and no context; or it starts a message of more than 8 MiB, or one that takes the total over 32 MiB. */
  ghost predicate RefusedAt(h: seq<Chunk>, fmt: nat, k: nat, n: nat, buf: bytes) {
    var at := n + if fmt == 0 then 11 else if fmt == 1 then 7 else if fmt == 2 then 3 else 0;
    && at <= |buf|
    && (|| (fmt == 3 && !HasContext(h, k))
        || (&& (Extends(h, fmt, k, if fmt <= 2 then U24At(buf, n) else 0) ==> at + 4 <= |buf|)
            && InProgress(h, k).missing == 0
            && var length := if fmt <= 1 then U24At(buf, n + 3) else LengthOn(h, k);
               length > 8 * 1024 * 1024 || Outstanding(h) + length > 32 * 1024 * 1024))
  }

  ghost predicate Refused(h: seq<Chunk>, buf: bytes) {
    exists n: nat, fmt: nat, k: nat ::
      n <= |buf| && BasicForm(buf[..n], fmt, k) && RefusedAt(h, fmt, k, n, buf)
  }

  lemma RefusedIffAt(h: seq<Chunk>, buf: bytes)
    requires buf != []
    ensures Refused(h, buf) <==>
            ReadBasic(buf).Some? && var b := ReadBasic(buf).value; RefusedAt(h, b.fmt, b.csid, b.size, buf)
  {
    hide RefusedAt, BasicForm, ReadBasic;
    forall n: nat, fmt: nat, k: nat
      ensures ReadBasic(buf) == Some(Basic(fmt, k, n)) <==> n <= |buf| && BasicForm(buf[..n], fmt, k)
    {
      BasicIff(buf, fmt, k, n);
    }
    if ReadBasic(buf).Some? {
      var b := ReadBasic(buf).value;
      assert BasicForm(buf[..b.size], b.fmt, b.csid);
    }
  }

  lemma RejectOnIff(c: Core, h: seq<Chunk>, k: nat, fmt: nat, pos: nat, buf: bytes)
    requires Follows(c, h) && !c.failed && k in c.streams && k < U32_SPAN
    requires fmt <= 3 && 1 <= pos <= 3 && pos + MessageHeaderSize(fmt) <= |buf|
    ensures StepOn(c, k, fmt, pos, buf).Reject? <==> RefusedAt(h, fmt, k, pos, buf)
    ensures !StepOn(c, k, fmt, pos, buf).Advance? ==> StepOn(c, k, fmt, pos, buf).core.streams == c.streams
  {
    hide Absorb, U24At, U32At, Le32At, Budget, InProgress, HasContext, Outstanding, LengthOn, TimestampOn, ExtendedOn;
    assert View(c, k) == StateOn(h, k);
    OutstandingIs(c, h);
  }

  lemma StallFollows(c: Core, h: seq<Chunk>, buf: bytes)
    requires Follows(c, h) && !c.failed && buf != [] && !Step(c, buf).Advance?
    ensures var r := Step(c, buf);
            Follows(r.core, h) && r.core.failed == Refused(h, buf)
  {
    hide StepOn, Follows, RefusedAt, Refused;
    RefusedIffAt(h, buf);
    if ReadBasic(buf).Some? {
      var b := ReadBasic(buf).value;
      if b.size + MessageHeaderSize(b.fmt) <= |buf| {
        TouchFollows(c, h, b.csid);
        StallOn(Touch(c, b.csid), h, b.csid, b.fmt, b.size, buf);
      } else {
        TooShort(h, b.fmt, b.csid, b.size, buf);
      }
    }
  }

  lemma TooShort(h: seq<Chunk>, fmt: nat, k: nat, n: nat, buf: bytes)
    requires |buf| < n + MessageHeaderSize(fmt)
    ensures !RefusedAt(h, fmt, k, n, buf)
  {
  }

  lemma StallOn(c: Core, h: seq<Chunk>, k: nat, fmt: nat, pos: nat, buf: bytes)
    requires Follows(c, h) && !c.failed && k in c.streams && k < U32_SPAN
    requires fmt <= 3 && 1 <= pos <= 3 && pos + MessageHeaderSize(fmt) <= |buf|
    requires !StepOn(c, k, fmt, pos, buf).Advance?
    ensures var r := StepOn(c, k, fmt, pos, buf);
            Follows(r.core, h) && r.core.failed == RefusedAt(h, fmt, k, pos, buf)
  {
    RejectOnIff(c, h, k, fmt, pos, buf);
    FailureFollows(c, h);
    hide ReadHeader, Follows, RefusedAt, Absorb;
  }

  lemma FailureFollows(c: Core, h: seq<Chunk>)
    requires Follows(c, h)
    ensures Follows(c.(failed := true), h)
  {
    hide StateOn, Budget, SizeOn;
    FailureKeeps(c);
    assert forall k: nat :: View(c.(failed := true), k) == View(c, k);
  }

  lemma FailureKeeps(c: Core)
    requires Budget(c)
    ensures Budget(c.(failed := true))
  {
    FailureKeepsBudget(c);
  }

  // ---- whole parses

  lemma RegularGrows(h: seq<Chunk>, x: Chunk)
    requires Regular(h) && Continues(h, x)
    ensures Regular(h + [x])
    ensures Wire(h + [x]) == Wire(h) + Octets(x)
    ensures Messages(h + [x]) == Messages(h) + Surfaced(h + [x])
  {
    hide Continues, Octets, Surfaced;
    Grows(h, x);
  }

  lemma {:induction false} ParseFollows(c: Core, h: seq<Chunk>, buf: bytes)
    requires Follows(c, h) && Regular(h) && c.failed == IllegalSize(h)
    ensures var r, h' := Parse(c, buf), Consumed(c, buf, h);
            && Wire(h') + r.rest == Wire(h) + buf
            && Messages(h') == Messages(h) + r.out
            && Regular(h') && Follows(r.core, h')
            && (r.core.failed <==> IllegalSize(h') || Refused(h', r.rest))
    decreases |buf|
  {
    hide Step, ChunkAt, Follows, Regular, Wire, Messages, IllegalSize, Refused, Octets, Surfaced, Continues;
    if c.failed || buf == [] {
      NothingRefused(h);
    } else if !Step(c, buf).Advance? {
      StallFollows(c, h, buf);
    } else {
      var r, x := Step(c, buf), ChunkAt(c, buf);
      AdvanceFollows(c, h, buf);
      RegularGrows(h, x);
      ParseFollows(r.core, h + [x], buf[r.size..]);
      assert buf[..r.size] + buf[r.size..] == buf;
    }
  }

  lemma NothingRefused(h: seq<Chunk>)
    ensures !Refused(h, [])
  {
  }

  /** For every byte string: what a new reader consumed is a regular sequence of chunks, octet for octet, with the rest
      left in its buffer; the messages it surfaced, its chunk size and the whole state of every chunk stream are what
      those chunks say. */
  lemma ReaderFollowsChunks(buf: bytes, k: nat)
    ensures var r, h := Parse(INITIAL, buf), Consumed(INITIAL, buf, []);
            && buf == Wire(h) + r.rest && Regular(h)
            && r.out == Messages(h) && r.core.chunkSize == SizeOn(h) && View(r.core, k) == StateOn(h, k)
  {
    hide Parse, Consumed, StateOn, SizeOn, Regular, View;
    StartFollows();
    NothingYet();
    ParseFollows(INITIAL, [], buf);
    assert Follows(Parse(INITIAL, buf).core, Consumed(INITIAL, buf, []));
  }

  lemma NothingYet()
    ensures Regular([]) && !IllegalSize([]) && Wire([]) == [] && Messages([]) == []
  {
  }

  /** For every byte string a new reader fails exactly when the last chunk it consumed completed an illegal Set Chunk
      Size, or the chunk it stopped at has format 3 and no chunk of its stream was consumed since the start or the last
      Abort naming it, or that chunk starts a message over one of the two caps. */
  lemma FailsExactly(buf: bytes)
    ensures var r, h := Parse(INITIAL, buf), Consumed(INITIAL, buf, []);
            r.core.failed <==> IllegalSize(h) || Refused(h, r.rest)
  {
    hide Parse, Consumed, IllegalSize, Refused, Follows;
    StartFollows();
    NothingYet();
    ParseFollows(INITIAL, [], buf);
  }

  /** The same for a reader fed in arbitrary pieces between next calls. */
  lemma FedReaderFailsExactly(calls: seq<ChunkReader.Call>)
    ensures var (s, popped) := ChunkReader.Run(ChunkReader.NEW_READER, calls);
            var buf := ChunkReader.FedBytes(calls);
            var h := Consumed(INITIAL, buf, []);
            && popped + s.ready == Messages(h)
            && (s.core.failed <==> IllegalSize(h) || Refused(h, Parse(INITIAL, buf).rest))
  {
    hide Parse, Consumed, IllegalSize, Refused, Messages, StateOn;
    var buf := ChunkReader.FedBytes(calls);
    ParseNothing();
    ChunkReader.FragmentationIndependence(ChunkReader.NEW_READER, calls);
    assert [] + buf == buf;
    ReaderFollowsChunks(buf, 0);
    FailsExactly(buf);
    assert [] + Parse(INITIAL, buf).out == Parse(INITIAL, buf).out;
  }

  lemma ParseNothing()
    ensures Parse(INITIAL, []) == Outcome(INITIAL, [], [])
  {
  }
}
