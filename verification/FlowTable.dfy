/** The flow table: lifecycle of Flow IDs and the bounded buffer for flows not bound yet. */
module FlowTable {
  import opened Bytes
  import opened Frame

  datatype FlowState = Unknown | Active | Retired

  datatype Limits = Limits(frames: nat, octets: nat)

  /** A snapshot of a table. */
  datatype Table = Table(states: map<u64, FlowState>, unknown: seq<Frame>, octets: nat)

  /** Flow 0, the default session flow, starts bound. */
  const NEW_TABLE: Table := Table(map[0 := Active], [], 0)

  function State(t: Table, flow: u64): FlowState {
    if flow in t.states then t.states[flow] else Unknown
  }

  /** The frames of one flow, in order, and the others. */
  function Of(fs: seq<Frame>, flow: u64): seq<Frame> {
    if fs == [] then []
    else if fs[0].flowId == flow then [fs[0]] + Of(fs[1..], flow)
    else Of(fs[1..], flow)
  }

  function Without(fs: seq<Frame>, flow: u64): seq<Frame> {
    if fs == [] then []
    else if fs[0].flowId == flow then Without(fs[1..], flow)
    else [fs[0]] + Without(fs[1..], flow)
  }

  function Octets(fs: seq<Frame>): nat {
    if fs == [] then 0 else |fs[0].payload| + Octets(fs[1..])
  }

  /** The octet counter is exact and both limits hold. */
  predicate Bounded(limits: Limits, t: Table) {
    t.octets == Octets(t.unknown) <= limits.octets && |t.unknown| <= limits.frames
  }

  lemma {:induction false} OfConcat(a: seq<Frame>, b: seq<Frame>, flow: u64)
    ensures Of(a + b, flow) == Of(a, flow) + Of(b, flow)
    ensures Octets(a + b) == Octets(a) + Octets(b)
    decreases |a|
  {
    if a == [] {
      assert a + b == b;
    } else {
      assert (a + b)[1..] == a[1..] + b;
      OfConcat(a[1..], b, flow);
    }
  }

  /** Removing one flow's frames keeps every other flow's, in order, and frees exactly their octets. */
  lemma {:induction false} Partition(fs: seq<Frame>, flow: u64, other: u64)
    ensures Of(Without(fs, flow), other) == if other == flow then [] else Of(fs, other)
    ensures Octets(Without(fs, flow)) == Octets(fs) - Octets(Of(fs, flow))
    ensures |Without(fs, flow)| == |fs| - |Of(fs, flow)|
    ensures Of(Of(fs, flow), other) == if other == flow then Of(fs, flow) else []
    decreases |fs|
  {
    if fs != [] {
      var head := [fs[0]];
      Partition(fs[1..], flow, other);
      if fs[0].flowId == flow {
        assert (head + Of(fs[1..], flow))[1..] == Of(fs[1..], flow);
      } else {
        assert (head + Without(fs[1..], flow))[1..] == Without(fs[1..], flow);
      }
    }
  }

  /** One frame buffered, or None when either limit would be exceeded. */
  function Buffer(limits: Limits, t: Table, f: Frame): Option<Table> {
    if |t.unknown| >= limits.frames || |f.payload| > limits.octets - t.octets then None
    else Some(t.(unknown := t.unknown + [f], octets := t.octets + |f.payload|))
  }

  function Take(t: Table, flow: u64): Table
    requires t.octets == Octets(t.unknown)
  {
    Partition(t.unknown, flow, flow);
    t.(unknown := Without(t.unknown, flow), octets := t.octets - Octets(Of(t.unknown, flow)))
  }

  class FlowTable {
    const limits: Limits
    var states: map<u64, FlowState>
    var unknown: seq<Frame>
    var unknownOctets: nat

    function Contents(): Table
      reads this
    {
      Table(states, unknown, unknownOctets)
    }

    predicate Valid()
      reads this
    {
      Bounded(limits, Contents())
    }

    constructor (limits: Limits)
      ensures Valid() && this.limits == limits && Contents() == NEW_TABLE
    {
      this.limits := limits;
      states, unknown, unknownOctets := map[0 := Active], [], 0;
    }

    /** False when the ID was retired earlier: retirement is final. */
    method Activate(flow: u64) returns (ok: bool)
      requires Valid()
      modifies this
      ensures Valid()
      ensures ok == (State(old(Contents()), flow) != Retired)
      ensures Contents() ==
              if ok then old(Contents()).(states := old(states)[flow := Active]) else old(Contents())
    {
      if flow in states && states[flow] == Retired {
        return false;
      }
      states := states[flow := Active];
      return true;
    }

    method Retire(flow: u64)
      requires Valid()
      modifies this
      ensures Valid()
      ensures Contents() == Take(old(Contents()).(states := old(states)[flow := Retired]), flow)
    {
      states := states[flow := Retired];
      var _ := TakeBuffered(flow);
    }

    method BufferUnknown(f: Frame) returns (ok: bool)
      requires Valid()
      modifies this
      ensures Valid()
      ensures ok <==> |old(unknown)| < limits.frames && Octets(old(unknown)) + |f.payload| <= limits.octets
      ensures var r := Buffer(limits, old(Contents()), f);
              ok == r.Some? && Contents() == if ok then r.value else old(Contents())
    {
      if |unknown| >= limits.frames || |f.payload| > limits.octets - unknownOctets {
        return false;
      }
      OfConcat(unknown, [f], f.flowId);
      unknownOctets := unknownOctets + |f.payload|;
      unknown := unknown + [f];
      return true;
    }

    /** Drains one flow's frames in arrival order, erasing while iterating. */
    method TakeBuffered(flow: u64) returns (out: seq<Frame>)
      requires Valid()
      modifies this
      ensures Valid()
      ensures out == Of(old(unknown), flow)
      ensures Contents() == Take(old(Contents()), flow)
    {
      hide Of, Without, Octets;
      out := [];
      var i := 0;
      assert unknown[0..] == unknown;
      while i < |unknown|
        invariant 0 <= i <= |unknown|
        invariant states == old(states)
        invariant unknownOctets == Octets(unknown)
        invariant unknown[..i] + Without(unknown[i..], flow) == Without(old(unknown), flow)
        invariant out + Of(unknown[i..], flow) == Of(old(unknown), flow)
        decreases |unknown| - i
      {
        SplitAt(unknown, i, flow);
        if unknown[i].flowId == flow {
          RemoveAt(unknown, i);
          unknownOctets := unknownOctets - |unknown[i].payload|;
          out := out + [unknown[i]];
          ghost var rest := unknown[i + 1..];
          unknown := unknown[..i] + unknown[i + 1..];
          assert unknown[i..] == rest;
        } else {
          i := i + 1;
        }
      }
      NothingLeft(unknown, i, flow);
      Partition(old(unknown), flow, flow);
    }
  }

  lemma SplitAt(fs: seq<Frame>, i: nat, flow: u64)
    requires i < |fs|
    ensures if fs[i].flowId == flow
            then Without(fs[i..], flow) == Without(fs[i + 1..], flow) &&
                 Of(fs[i..], flow) == [fs[i]] + Of(fs[i + 1..], flow)
            else fs[..i] + Without(fs[i..], flow) == fs[..i + 1] + Without(fs[i + 1..], flow) &&
                 Of(fs[i..], flow) == Of(fs[i + 1..], flow)
  {
    assert fs[i..][0] == fs[i] && fs[i..][1..] == fs[i + 1..];
    assert fs[..i + 1] == fs[..i] + [fs[i]];
  }

  lemma NothingLeft(fs: seq<Frame>, i: nat, flow: u64)
    requires i == |fs|
    ensures Of(fs[i..], flow) == [] && fs[..i] + Without(fs[i..], flow) == fs
  {
    assert fs[i..] == [] && fs[..i] == fs;
  }

  lemma RemoveAt(fs: seq<Frame>, i: nat)
    requires i < |fs|
    ensures Octets(fs[..i] + fs[i + 1..]) == Octets(fs) - |fs[i].payload|
  {
    OfConcat(fs[..i], fs[i + 1..], 0);
    OfConcat(fs[..i], fs[i..], 0);
    assert fs[..i] + fs[i..] == fs;
    assert fs[i..][1..] == fs[i + 1..];
  }
}
