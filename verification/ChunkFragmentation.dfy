/** Fragmentation independence of the chunk reader. */
module ChunkFragmentation {
  import opened Bytes
  import opened ChunkFormat

  lemma ReadBasicStable(a: bytes, b: bytes)
    requires a != []
    ensures ReadBasic(a).Some? ==> ReadBasic(a + b) == ReadBasic(a)
  {
  }

  lemma ReadHeaderStable(st: Stream, fmt: nat, pos: nat, a: bytes, b: bytes)
    requires fmt <= 3 && pos + MessageHeaderSize(fmt) <= |a|
    ensures ReadHeader(st, fmt, pos, a).Some? ==>
              ReadHeader(st, fmt, pos, a + b) == ReadHeader(st, fmt, pos, a)
  {
    if fmt <= 2 {
      BeAtAgree(a, a + b, pos, 3);
    }
    if fmt <= 1 {
      BeAtAgree(a, a + b, pos + 3, 3);
    }
    var end := pos + MessageHeaderSize(fmt);
    if end + 4 <= |a| {
      BeAtAgree(a, a + b, end, 4);
    }
  }

  lemma StepOnStable(c: Core, csid: nat, fmt: nat, pos: nat, a: bytes, b: bytes)
    requires csid in c.streams && csid < U32_SPAN
    requires fmt <= 3 && 1 <= pos <= 3 && pos + MessageHeaderSize(fmt) <= |a|
    ensures var r := StepOn(c, csid, fmt, pos, a);
            if r.Wait? then r.core == c else StepOn(c, csid, fmt, pos, a + b) == r
  {
    hide ReadHeader, Absorb, Admits;
    var st := c.streams[csid];
    ReadHeaderStable(st, fmt, pos, a, b);
    var r := StepOn(c, csid, fmt, pos, a);
    if r.Advance? {
      var h := ReadHeader(st, fmt, pos, a).value;
      var end := h.size + Min(Due(st, h), c.chunkSize);
      assert (a + b)[h.size..end] == a[h.size..end];
    }
  }

  /** More input never changes a verdict already reached, and a reader that waited on a prefix
      continues as if it had seen all of the input at once: no header is applied twice. */
  lemma StepStable(c: Core, a: bytes, b: bytes)
    requires !c.failed && a != []
    ensures var r := Step(c, a);
            if r.Wait? then !r.core.failed && Step(r.core, a + b) == Step(c, a + b)
            else Step(c, a + b) == r
  {
    ReadBasicStable(a, b);
    match ReadBasic(a)
    case None =>
    case Some(x) =>
      if x.size + MessageHeaderSize(x.fmt) <= |a| {
        StepOnStable(Touch(c, x.csid), x.csid, x.fmt, x.size, a, b);
      }
  }

  /** Feeding `a` and then `b` is feeding `a + b`. */
  lemma {:induction false} ParseConcat(c: Core, a: bytes, b: bytes)
    ensures var first := Parse(c, a);
            var whole := Parse(c, a + b);
            if first.core.failed then
              whole == Outcome(first.core, first.rest + b, first.out)
            else
              var second := Parse(first.core, first.rest + b);
              whole == Outcome(second.core, second.rest, first.out + second.out)
    decreases |a|
  {
    hide Step;
    if c.failed {
    } else if a == [] {
      assert a + b == b;
    } else {
      StepStable(c, a, b);
      match Step(c, a)
      case Reject(_) =>
      case Wait(c') =>
        assert !c'.failed;
      case Advance(c', size, out) =>
        ParseConcat(c', a[size..], b);
        assert (a + b)[size..] == a[size..] + b;
    }
  }
}
