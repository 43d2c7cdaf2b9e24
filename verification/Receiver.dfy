/** The client's receive machine: per-stream decoders, datagrams and the flow gate. */
module Receiver {
  import opened Bytes
  import opened Frame
  import opened FlowTable
  import FrameStream

  // ---- the gate

  datatype Event =
    | Arrive(frame: Frame, fromStream: bool)
    | Bind(flow: u64)
    | Retire(flow: u64)

  /** `refused` records that buffering ran out on a stream, which closes the connection. */
  datatype Gate = Gate(table: Table, delivered: seq<Frame>, refused: bool)

  const NEW_GATE: Gate := Gate(NEW_TABLE, [], false)

  predicate Overflows(limits: Limits, g: Gate, e: Event) {
    e.Arrive? && State(g.table, e.frame.flowId) == Unknown && Buffer(limits, g.table, e.frame).None?
  }

  function GateStep(limits: Limits, g: Gate, e: Event): (r: Gate)
    requires Bounded(limits, g.table)
    ensures Bounded(limits, r.table)
  {
    match e
    case Arrive(f, fromStream) =>
      (match State(g.table, f.flowId)
       case Active => g.(delivered := g.delivered + [f])
       case Retired => g
       case Unknown =>
         if Overflows(limits, g, e) then g.(refused := g.refused || fromStream)
         else
           OfConcat(g.table.unknown, [f], 0);
           g.(table := Buffer(limits, g.table, f).value))
    case Bind(flow) =>
      if State(g.table, flow) == FlowState.Retired then g
      else
        Partition(g.table.unknown, flow, flow);
        g.(table := Take(g.table.(states := g.table.states[flow := Active]), flow),
           delivered := g.delivered + Of(g.table.unknown, flow))
    case Retire(flow) =>
      Partition(g.table.unknown, flow, flow);
      g.(table := Take(g.table.(states := g.table.states[flow := FlowState.Retired]), flow))
  }

  function Front(h: seq<Event>): seq<Event>
    requires h != []
  {
    h[..|h| - 1]
  }

  function Last(h: seq<Event>): Event
    requires h != []
  {
    h[|h| - 1]
  }

  /** The gate after a history. */
  function Run(limits: Limits, h: seq<Event>): (r: Gate)
    ensures Bounded(limits, r.table)
    decreases |h|
  {
    if h == [] then NEW_GATE else GateStep(limits, Run(limits, Front(h)), Last(h))
  }

  // ---- what a history promises about one flow, without a table

  predicate IsRetired(h: seq<Event>, flow: u64)
    decreases |h|
  {
    h != [] && (Last(h) == Retire(flow) || IsRetired(Front(h), flow))
  }

  /** Bound at some point before it was retired. */
  predicate IsBound(h: seq<Event>, flow: u64)
    decreases |h|
  {
    flow == 0 || (h != [] && ((Last(h) == Bind(flow) && !IsRetired(Front(h), flow)) || IsBound(Front(h), flow)))
  }

  /** Its frames that arrived before it was retired. */
  function Arrivals(h: seq<Event>, flow: u64): seq<Frame>
    decreases |h|
  {
    if h == [] then []
    else
      Arrivals(Front(h), flow) +
      if Last(h).Arrive? && Last(h).frame.flowId == flow && !IsRetired(Front(h), flow) then [Last(h).frame] else []
  }

  /** Neither bound nor retired so far. */
  predicate IsOpen(h: seq<Event>, flow: u64) {
    !IsBound(h, flow) && !IsRetired(h, flow)
  }

  /** The frames of `h` whose flows are still open after `all`. */
  function WaitingIn(h: seq<Event>, all: seq<Event>): seq<Frame>
    decreases |h|
  {
    if h == [] then []
    else
      var before := WaitingIn(Front(h), all);
      if Last(h).Arrive? && IsOpen(all, Last(h).frame.flowId) then before + [Last(h).frame] else before
  }

  function Waiting(h: seq<Event>): seq<Frame> {
    WaitingIn(h, h)
  }

  /** After `kept`, the arrival finds no room: its flow is open, and the waiting frames already use up the frame
      limit or leave too few octets. */
  predicate LeftOut(limits: Limits, kept: seq<Event>, e: Event) {
    && e.Arrive? && IsOpen(kept, e.frame.flowId)
    && (|Waiting(kept)| >= limits.frames || Octets(Waiting(kept)) + |e.frame.payload| > limits.octets)
  }

  /** The history without the arrivals that found no room. */
  function Kept(limits: Limits, h: seq<Event>): seq<Event>
    decreases |h|
  {
    if h == [] then []
    else
      var kept := Kept(limits, Front(h));
      if LeftOut(limits, kept, Last(h)) then kept else kept + [Last(h)]
  }

  /** The gate knows exactly what the history says about the flow. */
  ghost predicate Knows(g: Gate, h: seq<Event>, flow: u64) {
    var bound, retired := IsBound(h, flow), IsRetired(h, flow);
    && State(g.table, flow) == (if retired then FlowState.Retired else if bound then Active else Unknown)
    && Of(g.delivered, flow) == (if bound then Arrivals(h, flow) else [])
    && Of(g.table.unknown, flow) == (if bound || retired then [] else Arrivals(h, flow))
  }

  /** The buffer holds exactly the waiting frames, in order of arrival. */
  ghost predicate Buffers(g: Gate, h: seq<Event>) {
    g.table.unknown == Waiting(h)
  }

  lemma HistoryGrows(h: seq<Event>, e: Event)
    ensures Front(h + [e]) == h && Last(h + [e]) == e
  {
  }

  lemma OfOne(f: Frame, flow: u64)
    ensures Of([f], flow) == if f.flowId == flow then [f] else []
    ensures Without([f], flow) == if f.flowId == flow then [] else [f]
  {
  }

  lemma ArriveKnows(limits: Limits, g: Gate, h: seq<Event>, e: Event, flow: u64)
    requires Bounded(limits, g.table) && Knows(g, h, flow) && e.Arrive? && !Overflows(limits, g, e)
    ensures Knows(GateStep(limits, g, e), h + [e], flow)
  {
    hide Octets, Bounded;
    HistoryGrows(h, e);
    OfConcat(g.delivered, [e.frame], flow);
    OfConcat(g.table.unknown, [e.frame], flow);
    OfOne(e.frame, flow);
  }

  lemma BindKnows(limits: Limits, g: Gate, h: seq<Event>, e: Event, flow: u64)
    requires Bounded(limits, g.table) && Knows(g, h, flow) && e.Bind?
    ensures Knows(GateStep(limits, g, e), h + [e], flow)
  {
    hide GateStep, Of, State;
    HistoryGrows(h, e);
    assert Arrivals(h + [e], flow) == Arrivals(h, flow);
    BindMoves(limits, g, e, flow);
  }

  lemma BindMoves(limits: Limits, g: Gate, e: Event, flow: u64)
    requires Bounded(limits, g.table) && e.Bind?
    ensures var g', open := GateStep(limits, g, e), State(g.table, e.flow) != FlowState.Retired;
            && State(g'.table, flow) == (if open && flow == e.flow then Active else State(g.table, flow))
            && Of(g'.delivered, flow) ==
               Of(g.delivered, flow) + (if open && flow == e.flow then Of(g.table.unknown, flow) else [])
            && Of(g'.table.unknown, flow) == (if open && flow == e.flow then [] else Of(g.table.unknown, flow))
  {
    OfConcat(g.delivered, Of(g.table.unknown, e.flow), flow);
    Partition(g.table.unknown, e.flow, flow);
  }

  lemma RetireKnows(limits: Limits, g: Gate, h: seq<Event>, e: Event, flow: u64)
    requires Bounded(limits, g.table) && Knows(g, h, flow) && e.Retire?
    ensures Knows(GateStep(limits, g, e), h + [e], flow)
  {
    HistoryGrows(h, e);
    Partition(g.table.unknown, e.flow, flow);
    assert Arrivals(h + [e], flow) == Arrivals(h, flow);
  }

  lemma OverflowKnows(limits: Limits, g: Gate, h: seq<Event>, e: Event, flow: u64)
    requires Bounded(limits, g.table) && Knows(g, h, flow) && Buffers(g, h) && Overflows(limits, g, e)
    ensures Knows(GateStep(limits, g, e), h, flow) && Buffers(GateStep(limits, g, e), h)
  {
  }

  // ---- the buffer as a whole

  lemma {:induction false} WithoutConcat(a: seq<Frame>, b: seq<Frame>, flow: u64)
    ensures Without(a + b, flow) == Without(a, flow) + Without(b, flow)
    decreases |a|
  {
    if a == [] {
      assert a + b == b;
    } else {
      assert (a + b)[1..] == a[1..] + b;
      WithoutConcat(a[1..], b, flow);
    }
  }

  lemma {:induction false} WithoutAbsent(fs: seq<Frame>, flow: u64)
    requires Of(fs, flow) == []
    ensures Without(fs, flow) == fs
    decreases |fs|
  {
    if fs != [] {
      WithoutAbsent(fs[1..], flow);
    }
  }

  /** An arrival closes no flow; a bind or a retirement closes its own. */
  lemma OpenAfter(h: seq<Event>, e: Event, flow: u64)
    ensures IsOpen(h + [e], flow) <==> IsOpen(h, flow) && (e.Arrive? || e.flow != flow)
  {
    HistoryGrows(h, e);
  }

  lemma {:induction false} WaitingAfter(h: seq<Event>, all: seq<Event>, e: Event)
    ensures WaitingIn(h, all + [e]) ==
            if e.Arrive? then WaitingIn(h, all) else Without(WaitingIn(h, all), e.flow)
    decreases |h|
  {
    hide IsOpen;
    if h != [] {
      WaitingAfter(Front(h), all, e);
      if Last(h).Arrive? {
        OpenAfter(all, e, Last(h).frame.flowId);
        if !e.Arrive? {
          WithoutConcat(WaitingIn(Front(h), all), [Last(h).frame], e.flow);
          OfOne(Last(h).frame, e.flow);
        }
      }
    }
  }

  lemma BuffersStep(limits: Limits, g: Gate, h: seq<Event>, e: Event)
    requires Bounded(limits, g.table) && Buffers(g, h) && !Overflows(limits, g, e)
    requires Knows(g, h, if e.Arrive? then e.frame.flowId else e.flow)
    ensures Buffers(GateStep(limits, g, e), h + [e])
  {
    hide Octets, Bounded, Of, Without, IsBound, IsRetired, Arrivals;
    HistoryGrows(h, e);
    WaitingAfter(h, h, e);
    if e.Arrive? {
      OpenAfter(h, e, e.frame.flowId);
    } else if State(g.table, e.flow) == FlowState.Retired {
      WithoutAbsent(g.table.unknown, e.flow);
    }
  }

  /** What the table decides by its counters is what the history says. */
  lemma OverflowsIff(limits: Limits, g: Gate, h: seq<Event>, e: Event)
    requires Bounded(limits, g.table) && Buffers(g, h) && (e.Arrive? ==> Knows(g, h, e.frame.flowId))
    ensures Overflows(limits, g, e) <==> LeftOut(limits, h, e)
  {
    hide Of, Octets, IsBound, IsRetired, Arrivals, Waiting;
  }

  lemma StepKnows(limits: Limits, g: Gate, h: seq<Event>, e: Event, flow: u64)
    requires Bounded(limits, g.table) && Knows(g, h, flow) && !Overflows(limits, g, e)
    ensures Knows(GateStep(limits, g, e), h + [e], flow)
  {
    hide Knows, GateStep;
    match e
    case Arrive(_, _) => ArriveKnows(limits, g, h, e, flow);
    case Bind(_) => BindKnows(limits, g, h, e, flow);
    case Retire(_) => RetireKnows(limits, g, h, e, flow);
  }

  /** Over every history and for every flow: what has been delivered is exactly the flow's arrivals up to
      its retirement, in order and once each, if it was ever bound, and nothing otherwise; what is
      buffered is exactly the waiting frames of flows neither bound nor retired, in order; retirement is final.
      Arrivals for which the waiting frames leave no room, and only those, are left out. */
  lemma {:induction false} GatingTransparent(limits: Limits, h: seq<Event>, flow: u64)
    ensures Knows(Run(limits, h), Kept(limits, h), flow) && Buffers(Run(limits, h), Kept(limits, h))
    decreases |h|
  {
    hide Knows, Buffers, GateStep, LeftOut, Overflows;
    if h == [] {
      InitiallyKnown(flow);
    } else {
      var g, kept, e := Run(limits, Front(h)), Kept(limits, Front(h)), Last(h);
      GatingTransparent(limits, Front(h), flow);
      GatingTransparent(limits, Front(h), if e.Arrive? then e.frame.flowId else e.flow);
      OverflowsIff(limits, g, kept, e);
      if LeftOut(limits, kept, e) {
        OverflowKnows(limits, g, kept, e, flow);
      } else {
        StepKnows(limits, g, kept, e, flow);
        BuffersStep(limits, g, kept, e);
      }
    }
  }

  lemma InitiallyKnown(flow: u64)
    ensures Knows(NEW_GATE, [], flow) && Buffers(NEW_GATE, [])
  {
  }

  /** Event `k` is an arrival on a stream that found no room. */
  ghost predicate Refuses(limits: Limits, h: seq<Event>, k: nat)
    requires k < |h|
  {
    LeftOut(limits, Kept(limits, h[..k]), h[k]) && h[k].fromStream
  }

  lemma RefusesPrefix(limits: Limits, h: seq<Event>, n: nat, k: nat)
    requires k < n <= |h|
    ensures Refuses(limits, h[..n], k) == Refuses(limits, h, k)
  {
    hide Kept, LeftOut;
    assert h[..n][..k] == h[..k] && h[..n][k] == h[k];
  }

  /** The connection is refused exactly when an arrival on a stream found no room. */
  lemma {:induction false} RefusedIff(limits: Limits, h: seq<Event>)
    ensures Run(limits, h).refused <==> exists k :: 0 <= k < |h| && Refuses(limits, h, k)
    decreases |h|
  {
    hide Kept, LeftOut, GateStep, Overflows, Refuses;
    if h != [] {
      var n := |h| - 1;
      var g, e := Run(limits, h[..n]), h[n];
      RefusedIff(limits, h[..n]);
      forall k: nat | k < n
        ensures Refuses(limits, h[..n], k) == Refuses(limits, h, k)
      {
        RefusesPrefix(limits, h, n, k);
      }
      LastRefuses(limits, h);
      assert Run(limits, h).refused == (g.refused || Refuses(limits, h, n));
    }
  }

  lemma LastRefuses(limits: Limits, h: seq<Event>)
    requires h != []
    ensures Run(limits, h).refused == (Run(limits, h[..|h| - 1]).refused || Refuses(limits, h, |h| - 1))
  {
    hide Kept, LeftOut, GateStep, Overflows;
    var n := |h| - 1;
    var g, kept, e := Run(limits, h[..n]), Kept(limits, h[..n]), h[n];
    GatingTransparent(limits, h[..n], if e.Arrive? then e.frame.flowId else e.flow);
    OverflowsIff(limits, g, kept, e);
    RefusedStep(limits, g, e);
  }

  lemma RefusedStep(limits: Limits, g: Gate, e: Event)
    requires Bounded(limits, g.table)
    ensures GateStep(limits, g, e).refused == (g.refused || (Overflows(limits, g, e) && e.fromStream))
  {
  }

  /** When every arrival finds room, nothing is left out. */
  lemma {:induction false} NothingLeftOut(limits: Limits, h: seq<Event>)
    requires forall k :: 0 <= k < |h| ==> !LeftOut(limits, h[..k], h[k])
    ensures Kept(limits, h) == h
    decreases |h|
  {
    hide LeftOut;
    if h != [] {
      var n := |h| - 1;
      forall k | 0 <= k < n
        ensures !LeftOut(limits, h[..n][..k], h[..n][k])
      {
        assert h[..n][..k] == h[..k] && h[..n][k] == h[k];
      }
      NothingLeftOut(limits, h[..n]);
      assert h[..n] + [h[n]] == h;
    }
  }

  /** When every arrival finds room: a flow that is ever bound has delivered exactly its arrivals before
      retirement, in order and once each; a flow retired unbound, or not bound yet, has delivered nothing;
      retirement is final; and the connection is not refused. */
  lemma DeliveredExactly(limits: Limits, h: seq<Event>, flow: u64)
    requires forall k :: 0 <= k < |h| ==> !LeftOut(limits, h[..k], h[k])
    ensures var g := Run(limits, h);
            && Of(g.delivered, flow) == (if IsBound(h, flow) then Arrivals(h, flow) else [])
            && (State(g.table, flow) == FlowState.Retired <==> IsRetired(h, flow))
            && !g.refused
  {
    hide Run, LeftOut, Of, State, Arrivals, IsBound, IsRetired, Kept;
    NothingLeftOut(limits, h);
    GatingTransparent(limits, h, flow);
    RefusedIff(limits, h);
    forall k | 0 <= k < |h|
      ensures Kept(limits, h[..k]) == h[..k]
    {
      assert forall j :: 0 <= j < k ==> h[..k][..j] == h[..j] && h[..k][j] == h[j];
      NothingLeftOut(limits, h[..k]);
    }
  }

  // ---- decoders in front of the gate

  const MAX_PAYLOAD: nat := DEFAULT_MAX_PAYLOAD

  datatype Input =
    | StreamData(stream: u64, data: bytes, fin: bool)
    | StreamReset(stream: u64)
    | Datagram(data: bytes)
    | Request(flow: u64, activate: bool)

  type Decoders = map<u64, FrameStream.Snapshot>

  function DecoderOf(ds: Decoders, stream: u64): FrameStream.Snapshot {
    if stream in ds then ds[stream] else FrameStream.NEW_DECODER
  }

  function ArrivalsOf(fs: seq<Frame>, fromStream: bool): (es: seq<Event>)
    ensures |es| == |fs|
    ensures forall i :: 0 <= i < |fs| ==> es[i] == Arrive(fs[i], fromStream)
  {
    if fs == [] then [] else [Arrive(fs[0], fromStream)] + ArrivalsOf(fs[1..], fromStream)
  }

  function RequestsOf(requests: seq<(u64, bool)>): (es: seq<Event>)
    ensures |es| == |requests|
    ensures forall i :: 0 <= i < |es| ==> es[i] == if requests[i].1 then Bind(requests[i].0) else Retire(requests[i].0)
  {
    if requests == [] then []
    else [if requests[0].1 then Bind(requests[0].0) else Retire(requests[0].0)] + RequestsOf(requests[1..])
  }

  /** The gate events one input amounts to. */
  function Events(ds: Decoders, i: Input): seq<Event> {
    match i
    case StreamData(stream, data, _) => ArrivalsOf(FrameStream.Fed(MAX_PAYLOAD, DecoderOf(ds, stream), data).ready, true)
    case StreamReset(_) => []
    case Datagram(data) => (match DatagramDecode(data) case Some(f) => [Arrive(f, false)] case None => [])
    case Request(flow, activate) => [if activate then Bind(flow) else Retire(flow)]
  }

  /** Frames that became ready have been passed on; a finished or reset stream is forgotten. */
  function DecodersAfter(ds: Decoders, i: Input): Decoders {
    match i
    case StreamData(stream, data, fin) =>
      if fin then ds - {stream}
      else ds[stream := FrameStream.Fed(MAX_PAYLOAD, DecoderOf(ds, stream), data).(ready := [])]
    case StreamReset(stream) => ds - {stream}
    case _ => ds
  }

  function GateSteps(limits: Limits, g: Gate, es: seq<Event>): (r: Gate)
    requires Bounded(limits, g.table)
    ensures Bounded(limits, r.table)
    decreases |es|
  {
    if es == [] then g else GateStep(limits, GateSteps(limits, g, es[..|es| - 1]), es[|es| - 1])
  }

  class Client {
    const flows: FlowTable
    var decoders: Decoders
    var delivered: seq<Frame>
    var refused: bool     // closed with UnknownFlowId
    var malformed: bool   // closed with FrameEncodingError

    function Contents(): Gate
      reads this, flows
    {
      Gate(flows.Contents(), delivered, refused)
    }

    predicate Valid()
      reads this, flows
    {
      flows.Valid()
    }

    constructor (limits: Limits)
      ensures Valid() && fresh(flows) && flows.limits == limits
      ensures Contents() == NEW_GATE && decoders == map[] && !malformed
    {
      flows := new FlowTable(limits);
      decoders, delivered, refused, malformed := map[], [], false, false;
    }

    method GateAndDeliver(f: Frame, fromStream: bool)
      requires Valid()
      modifies this, flows
      ensures Valid() && decoders == old(decoders) && malformed == old(malformed)
      ensures Contents() == GateStep(flows.limits, old(Contents()), Arrive(f, fromStream))
    {
      match State(flows.Contents(), f.flowId)
      case Active => delivered := delivered + [f];
      case Retired =>
      case Unknown =>
        var ok := flows.BufferUnknown(f);
        if !ok && fromStream {
          refused := true;
        }
    }

    /** One queued flow request, served on the network thread. */
    method Serve(flow: u64, activate: bool)
      requires Valid()
      modifies this, flows
      ensures Valid() && decoders == old(decoders) && malformed == old(malformed)
      ensures Contents() == GateStep(flows.limits, old(Contents()), if activate then Bind(flow) else Retire(flow))
    {
      if activate {
        var ok := flows.Activate(flow);
        if ok {
          var fs := flows.TakeBuffered(flow);
          delivered := delivered + fs;
        }
      } else {
        flows.Retire(flow);
      }
    }

    /** All requests queued since the last turn, in order. */
    method ServeAll(requests: seq<(u64, bool)>)
      requires Valid()
      modifies this, flows
      ensures Valid() && decoders == old(decoders) && malformed == old(malformed)
      ensures Contents() == GateSteps(flows.limits, old(Contents()), RequestsOf(requests))
    {
      hide GateStep;
      ghost var es := RequestsOf(requests);
      for k := 0 to |requests|
        invariant Valid() && decoders == old(decoders) && malformed == old(malformed)
        invariant Contents() == GateSteps(flows.limits, old(Contents()), es[..k])
      {
        Serve(requests[k].0, requests[k].1);
        assert es[..k + 1][..k] == es[..k];
      }
      assert es[..|requests|] == es;
    }

    /** Malformed datagrams are dropped silently. */
    method OnDatagram(data: bytes)
      requires Valid()
      modifies this, flows
      ensures Valid() && decoders == old(decoders) && malformed == old(malformed)
      ensures Contents() == GateSteps(flows.limits, old(Contents()), Events(old(decoders), Datagram(data)))
    {
      hide GateStep;
      var f := DatagramDecode(data);
      if f.Some? {
        GateAndDeliver(f.value, false);
        assert [Arrive(f.value, false)][..0] == [];
      }
    }

    /** Feeds the stream's decoder and passes on every frame that became ready. */
    method OnStreamData(stream: u64, data: bytes, fin: bool)
      requires Valid()
      modifies this, flows
      ensures Valid()
      ensures var i := StreamData(stream, data, fin);
              && Contents() == GateSteps(flows.limits, old(Contents()), Events(old(decoders), i))
              && decoders == DecodersAfter(old(decoders), i)
              && malformed == (old(malformed) ||
                               FrameStream.Fed(MAX_PAYLOAD, DecoderOf(old(decoders), stream), data).malformed)
    {
      hide GateStep, FrameStream.Fed;
      var d := FrameStream.Fed(MAX_PAYLOAD, DecoderOf(decoders, stream), data);
      ghost var es := ArrivalsOf(d.ready, true);
      var k := 0;
      while k < |d.ready|
        invariant 0 <= k <= |d.ready|
        invariant Valid() && decoders == old(decoders) && malformed == old(malformed)
        invariant Contents() == GateSteps(flows.limits, old(Contents()), es[..k])
      {
        GateAndDeliver(d.ready[k], true);
        assert es[..k + 1][..k] == es[..k] && es[..k + 1][k] == Arrive(d.ready[k], true);
        k := k + 1;
      }
      assert es[..k] == es;
      if d.malformed {
        malformed := true;
      }
      decoders := if fin then decoders - {stream} else decoders[stream := d.(ready := [])];
    }
  }

  // ---- whole runs of the receive machine

  function DecodersRun(ins: seq<Input>): Decoders
    decreases |ins|
  {
    if ins == [] then map[] else DecodersAfter(DecodersRun(ins[..|ins| - 1]), ins[|ins| - 1])
  }

  /** All gate events of a run, in order. */
  function History(ins: seq<Input>): seq<Event>
    decreases |ins|
  {
    if ins == [] then []
    else History(ins[..|ins| - 1]) + Events(DecodersRun(ins[..|ins| - 1]), ins[|ins| - 1])
  }

  function GateRun(limits: Limits, ins: seq<Input>): (g: Gate)
    ensures Bounded(limits, g.table)
    decreases |ins|
  {
    if ins == [] then NEW_GATE
    else GateSteps(limits, GateRun(limits, ins[..|ins| - 1]), Events(DecodersRun(ins[..|ins| - 1]), ins[|ins| - 1]))
  }

  lemma {:induction false} RunExtends(limits: Limits, h: seq<Event>, es: seq<Event>)
    ensures Run(limits, h + es) == GateSteps(limits, Run(limits, h), es)
    decreases |es|
  {
    hide GateStep;
    if es == [] {
      assert h + es == h;
    } else {
      var n := |es| - 1;
      RunExtends(limits, h, es[..n]);
      assert Front(h + es) == h + es[..n] && Last(h + es) == es[n];
    }
  }

  lemma {:induction false} GateRunIsRun(limits: Limits, ins: seq<Input>)
    ensures GateRun(limits, ins) == Run(limits, History(ins))
    decreases |ins|
  {
    hide Events;
    if ins != [] {
      var n := |ins| - 1;
      GateRunIsRun(limits, ins[..n]);
      RunExtends(limits, History(ins[..n]), Events(DecodersRun(ins[..n]), ins[n]));
    }
  }

  /** The gating promise for bytes off the wire: streams, datagrams and requests in any order. */
  lemma ReceiverTransparent(limits: Limits, ins: seq<Input>, flow: u64)
    ensures var g, kept := GateRun(limits, ins), Kept(limits, History(ins));
            Knows(g, kept, flow) && Buffers(g, kept)
  {
    hide Knows, Buffers, GateRun;
    GateRunIsRun(limits, ins);
    GatingTransparent(limits, History(ins), flow);
  }

  /** The bytes of one stream, and the frames its decoder passed on. */
  function StreamBytes(ins: seq<Input>, stream: u64): bytes
    decreases |ins|
  {
    if ins == [] then []
    else
      var i := ins[|ins| - 1];
      StreamBytes(ins[..|ins| - 1], stream) + if i.StreamData? && i.stream == stream then i.data else []
  }

  function PassedOn(ins: seq<Input>, stream: u64): seq<Frame>
    decreases |ins|
  {
    if ins == [] then []
    else
      var i := ins[|ins| - 1];
      PassedOn(ins[..|ins| - 1], stream) +
      if i.StreamData? && i.stream == stream
      then FrameStream.Fed(MAX_PAYLOAD, DecoderOf(DecodersRun(ins[..|ins| - 1]), stream), i.data).ready
      else []
  }

  predicate StaysOpen(ins: seq<Input>, stream: u64) {
    forall k :: 0 <= k < |ins| ==>
      ins[k] != StreamReset(stream) && !(ins[k].StreamData? && ins[k].stream == stream && ins[k].fin)
  }

  /** While a stream stays open, interleaving with other streams, datagrams and requests does not matter:
      its frames are those of one decoder fed all its bytes at once. */
  lemma {:induction false} StreamsIndependent(ins: seq<Input>, stream: u64)
    requires StaysOpen(ins, stream)
    ensures FrameStream.Fed(MAX_PAYLOAD, FrameStream.NEW_DECODER, StreamBytes(ins, stream)) ==
            DecoderOf(DecodersRun(ins), stream).(ready := PassedOn(ins, stream))
    ensures DecoderOf(DecodersRun(ins), stream).ready == []
    decreases |ins|
  {
    hide FrameStream.Fed;
    if ins == [] {
      FrameStream.EmptySettled(MAX_PAYLOAD);
      FrameStream.FedNothing(MAX_PAYLOAD, FrameStream.NEW_DECODER);
    } else {
      var n := |ins| - 1;
      StreamsIndependent(ins[..n], stream);
      var i, d := ins[n], DecoderOf(DecodersRun(ins[..n]), stream);
      if i.StreamData? && i.stream == stream {
        FrameStream.FedTwice(MAX_PAYLOAD, FrameStream.NEW_DECODER, StreamBytes(ins[..n], stream), i.data);
        FrameStream.FedAfter(MAX_PAYLOAD, d, PassedOn(ins[..n], stream), i.data);
      } else {
        assert StreamBytes(ins, stream) == StreamBytes(ins[..n], stream);
        assert PassedOn(ins, stream) == PassedOn(ins[..n], stream);
      }
    }
  }

  /** The stream's last event was data that did not end it. */
  predicate IsLive(ins: seq<Input>, stream: u64)
    decreases |ins|
  {
    ins != [] &&
    var i := ins[|ins| - 1];
    if i.StreamData? && i.stream == stream then !i.fin
    else i != StreamReset(stream) && IsLive(ins[..|ins| - 1], stream)
  }

  /** A decoder is kept exactly for the streams that are neither finished nor reset. */
  lemma {:induction false} DecoderKeptIff(ins: seq<Input>, stream: u64)
    ensures stream in DecodersRun(ins) <==> IsLive(ins, stream)
    decreases |ins|
  {
    hide FrameStream.Fed;
    if ins != [] {
      DecoderKeptIff(ins[..|ins| - 1], stream);
    }
  }
}
