/** The reader's memory budget, kept by every step on every input. */
module ChunkBudget {
  import opened Bytes
  import opened MapSum
  import opened ChunkFormat

  ghost function Loads(streams: map<nat, Stream>): map<nat, nat> {
    map k | k in streams :: Load(streams[k])
  }

  /** The counter is the sum of what every chunk stream holds or still expects, within both caps. */
  ghost predicate Budget(c: Core) {
    && c.assemblingBytes == Sum(Loads(c.streams)) <= MAX_OUTSTANDING
    && LegalChunkSize(c.chunkSize)
    && forall k :: k in c.streams ==> Bounded(c.streams[k])
  }

  ghost predicate Bounded(st: Stream) {
    Load(st) <= MAX_MESSAGE && (st.remaining == 0 ==> st.assembling == [])
  }

  /** How the sum moves when one stream is replaced; what a stream holds is part of the sum,
      so subtracting it never saturates. */
  lemma Replace(streams: map<nat, Stream>, k: nat, st: Stream)
    ensures Sum(Loads(streams[k := st])) ==
            Sum(Loads(streams)) - (if k in streams then Load(streams[k]) else 0) + Load(st)
    ensures k in streams ==> Load(streams[k]) <= Sum(Loads(streams))
  {
    assert Loads(streams[k := st]) == Loads(streams)[k := Load(st)];
    SumUpdate(Loads(streams), k, Load(st));
  }

  lemma InitialBudget()
    ensures Budget(INITIAL)
  {
    assert Loads(INITIAL.streams) == map[];
  }

  lemma TouchBudget(c: Core, csid: nat)
    requires Budget(c)
    ensures Budget(Touch(c, csid))
  {
    Replace(c.streams, csid, FRESH);
  }

  lemma ApplyBudget(c: Core, m: Message)
    requires Budget(c)
    ensures Budget(Apply(c, m))
  {
    hide Sum, Loads;
    if NamesAborted(m) {
      var target := U32At(m.payload, 0);
      if target in c.streams {
        Replace(c.streams, target, Discard(c.streams[target]));
      }
    }
  }

  /** `c` holds a complete assembly on `csid`: the only stream allowed to be done and not yet empty. */
  lemma FinalizeBudget(c: Core, csid: nat)
    requires csid in c.streams && csid < U32_SPAN
    requires c.assemblingBytes == Sum(Loads(c.streams)) <= MAX_OUTSTANDING && LegalChunkSize(c.chunkSize)
    requires forall k :: k in c.streams && k != csid ==> Bounded(c.streams[k])
    requires c.streams[csid].remaining == 0
    ensures Budget(Finalize(c, csid).0)
    ensures |c.streams[csid].assembling| <= c.assemblingBytes
  {
    hide Apply, Sum, Loads;
    var st := c.streams[csid];
    Replace(c.streams, csid, st.(assembling := []));
    var c1 := c.(streams := c.streams[csid := st.(assembling := [])],
                 assemblingBytes := Saturating(c.assemblingBytes, |st.assembling|));
    ApplyBudget(c1, MessageOf(csid, st));
  }

  lemma AbsorbBudget(c: Core, csid: nat, h: Header, body: bytes)
    requires Budget(c) && csid in c.streams && csid < U32_SPAN
    requires |body| <= Due(c.streams[csid], h)
    requires Admits(c, c.streams[csid], h)
    ensures Budget(Absorb(c, csid, h, body).0)
  {
    hide Sum, Loads;
    var st := c.streams[csid];
    var st' := Commit(st, h, body);
    Replace(c.streams, csid, st');
    if Due(st, h) == |body| {
      var c' := c.(streams := c.streams[csid := st'],
                   assemblingBytes := if st.remaining == 0 then c.assemblingBytes + h.length else c.assemblingBytes);
      FinalizeBudget(c', csid);
    }
  }

  /** Every step keeps the budget; a chunk that is waited for bounds the raw buffer. */
  lemma StepBudget(c: Core, buf: bytes)
    requires Budget(c) && !c.failed && buf != []
    ensures Budget(Step(c, buf).core)
    ensures Step(c, buf).Wait? ==> |buf| < MAX_MESSAGE + 18
  {
    match ReadBasic(buf)
    case None =>
    case Some(b) =>
      if b.size + MessageHeaderSize(b.fmt) <= |buf| {
        var c1 := Touch(c, b.csid);
        TouchBudget(c, b.csid);
        StepOnBudget(c1, b.csid, b.fmt, b.size, buf);
      }
  }

  lemma StepOnBudget(c: Core, csid: nat, fmt: nat, pos: nat, buf: bytes)
    requires Budget(c) && csid in c.streams && csid < U32_SPAN
    requires fmt <= 3 && 1 <= pos <= 3 && pos + MessageHeaderSize(fmt) <= |buf|
    ensures Budget(StepOn(c, csid, fmt, pos, buf).core)
    ensures StepOn(c, csid, fmt, pos, buf).Wait? ==> |buf| < MAX_MESSAGE + 18
  {
    var st := c.streams[csid];
    var r := ReadHeader(st, fmt, pos, buf);
    if r.Some? && Admits(c, st, r.value) {
      var end := r.value.size + Min(Due(st, r.value), c.chunkSize);
      assert Due(st, r.value) <= MAX_MESSAGE;
      if end <= |buf| {
        AbsorbBudget(c, csid, r.value, buf[r.value.size..end]);
      }
    }
    FailureKeepsBudget(c);
  }

  lemma FailureKeepsBudget(c: Core)
    requires Budget(c)
    ensures Budget(c.(failed := true))
  {
  }

  lemma {:induction false} ParseBudget(c: Core, buf: bytes)
    requires Budget(c)
    ensures Budget(Parse(c, buf).core)
    ensures !Parse(c, buf).core.failed ==> |Parse(c, buf).rest| < MAX_MESSAGE + 18
    decreases |buf|
  {
    hide Step, Budget;
    if !c.failed && buf != [] {
      StepBudget(c, buf);
      if Step(c, buf).Advance? {
        ParseBudget(Step(c, buf).core, buf[Step(c, buf).size..]);
      }
    }
  }
}
