/** The bounded queue between the receive thread and the player's writer thread. */
module PlayerQueue {
  import opened Bytes

  datatype Kind = Init | Coded

  datatype Entry<T> = Entry(msg: T, kind: Kind)

  /** A snapshot of a queue; messages are opaque to it. */
  datatype State<T> = State(queue: seq<Entry<T>>, dropped: nat, closed: bool)

  /** Index of the oldest Coded entry. */
  function FirstCoded<T>(q: seq<Entry<T>>): (r: Option<nat>)
    ensures r.Some? ==> r.value < |q| && q[r.value].kind == Coded && forall i :: 0 <= i < r.value ==> q[i].kind == Init
    ensures r.None? ==> forall i :: 0 <= i < |q| ==> q[i].kind == Init
  {
    if q == [] then None
    else if q[0].kind == Coded then Some(0)
    else
      assert forall i :: 1 <= i < |q| ==> q[i] == q[1..][i - 1];
      match FirstCoded(q[1..])
      case None =>
        assert forall i :: 0 <= i < |q| ==> q[i] == (if i == 0 then q[0] else q[1..][i - 1]) && q[i].kind.Init?;
        None
      case Some(i) => Some(i + 1)
  }

  function RemoveAt<T>(q: seq<Entry<T>>, i: nat): seq<Entry<T>>
    requires i < |q|
  {
    q[..i] + q[i + 1..]
  }

  function Pushed<T>(max: nat, s: State<T>, e: Entry<T>): State<T> {
    if s.closed then s
    else if |s.queue| < max then s.(queue := s.queue + [e])
    else
      match FirstCoded(s.queue)
      case None => s.(dropped := s.dropped + 1)
      case Some(i) => s.(queue := RemoveAt(s.queue, i) + [e], dropped := s.dropped + 1)
  }

  class Queue<T> {
    const max: nat
    var queue: seq<Entry<T>>
    var dropped: nat
    var closed: bool

    function Contents(): State<T>
      reads this
    {
      State(queue, dropped, closed)
    }

    predicate Valid()
      reads this
    {
      |queue| <= max
    }

    constructor (max: nat)
      ensures Valid() && this.max == max && Contents() == State([], 0, false)
    {
      this.max := max;
      queue, dropped, closed := [], 0, false;
    }

    /** True exactly when the message was queued and nothing was dropped for it. */
    method Push(msg: T, kind: Kind) returns (ok: bool)
      requires Valid()
      modifies this
      ensures Valid()
      ensures Contents() == Pushed(max, old(Contents()), Entry(msg, kind))
      ensures ok == (!old(closed) && dropped == old(dropped))
    {
      hide FirstCoded, RemoveAt;
      if closed {
        return false;
      }
      var droppedOne := false;
      if |queue| >= max {
        var i := 0;
        while i < |queue| && queue[i].kind != Coded
          invariant 0 <= i <= |queue|
          invariant forall k :: 0 <= k < i ==> queue[k].kind == Init
        {
          i := i + 1;
        }
        dropped := dropped + 1;
        if i == |queue| {
          return false;
        }
        assert FirstCoded(queue) == Some(i);
        RemovedSize(queue, i);
        queue := RemoveAt(queue, i);
        droppedOne := true;
      }
      queue := queue + [Entry(msg, kind)];
      return !droppedOne;
    }

    /** Returns once the queue holds something or is closed; None only when closed and drained. */
    method Pop() returns (m: Option<T>)
      requires Valid() && (queue != [] || closed)
      modifies this
      ensures Valid()
      ensures if old(queue) == [] then m == None && Contents() == old(Contents())
              else m == Some(old(queue)[0].msg) && Contents() == old(Contents()).(queue := old(queue)[1..])
    {
      if queue == [] {
        return None;
      }
      m := Some(queue[0].msg);
      queue := queue[1..];
    }

    method Clear()
      modifies this
      ensures Valid() && Contents() == old(Contents()).(queue := [])
    {
      queue := [];
    }

    method Close()
      modifies this
      ensures Contents() == old(Contents()).(closed := true)
    {
      closed := true;
    }
  }

  // ---- whole runs, with every pushed message numbered so that it can be followed

  datatype Item<T> = Item(serial: nat, msg: T)

  datatype Op<T> = Push(msg: T, kind: Kind) | Pop | Clear | Close

  /** The queue and where every message pushed while it was open has gone. */
  datatype Trace<T> = Trace(
    state: State<Item<T>>,
    pushed: seq<Entry<Item<T>>>,
    popped: seq<Entry<Item<T>>>,
    cleared: seq<Entry<Item<T>>>,
    evicted: seq<Entry<Item<T>>>,   // queued, then dropped to make room
    refused: seq<Entry<Item<T>>>)   // never queued

  function Step<T>(max: nat, t: Trace<T>, op: Op<T>): Trace<T> {
    var q := t.state.queue;
    match op
    case Push(msg, kind) =>
      if t.state.closed then t
      else
        var e := Entry(Item(|t.pushed|, msg), kind);
        var t' := t.(state := Pushed(max, t.state, e), pushed := t.pushed + [e]);
        if |q| < max then t'
        else
          (match FirstCoded(q)
           case None => t'.(refused := t.refused + [e])
           case Some(i) => t'.(evicted := t.evicted + [q[i]]))
    case Pop => if q == [] then t else t.(state := t.state.(queue := q[1..]), popped := t.popped + [q[0]])
    case Clear => t.(state := t.state.(queue := []), cleared := t.cleared + q)
    case Close => t.(state := t.state.(closed := true))
  }

  function Start<T>(): Trace<T> {
    Trace(State([], 0, false), [], [], [], [], [])
  }

  function Run<T>(max: nat, ops: seq<Op<T>>): Trace<T>
    decreases |ops|
  {
    if ops == [] then Start() else Step(max, Run(max, ops[..|ops| - 1]), ops[|ops| - 1])
  }

  ghost predicate InOrder<T>(es: seq<Entry<Item<T>>>, pushed: seq<Entry<Item<T>>>) {
    && (forall i, j :: 0 <= i < j < |es| ==> es[i].msg.serial < es[j].msg.serial)
    && (forall i :: 0 <= i < |es| ==> es[i].msg.serial < |pushed| && pushed[es[i].msg.serial] == es[i])
  }

  /** Never over the bound; handed out in push order, each message once and unchanged. */
  ghost predicate Ordered<T>(max: nat, t: Trace<T>) {
    && |t.state.queue| <= max
    && InOrder(t.state.queue, t.pushed) && InOrder(t.popped, t.pushed)
    && (forall p, q :: p in t.popped && q in t.state.queue ==> p.msg.serial < q.msg.serial)
  }

  /** Only Coded entries are evicted, and always older ones than the Coded entries still queued: an Init entry
      leaves the queue by being popped or cleared. */
  ghost predicate EvictsOldestCoded<T>(t: Trace<T>) {
    && (forall e :: e in t.evicted ==> e.kind == Coded && e.msg.serial < |t.pushed|)
    && (forall e, q :: e in t.evicted && q in t.state.queue && q.kind == Coded ==> e.msg.serial < q.msg.serial)
  }

  /** Every message pushed while the queue was open is accounted for exactly once. */
  ghost predicate Conserved<T>(t: Trace<T>) {
    && multiset(t.pushed) == multiset(t.popped) + multiset(t.state.queue) + multiset(t.cleared) +
                             multiset(t.evicted) + multiset(t.refused)
    && t.state.dropped == |t.evicted| + |t.refused|
  }

  lemma InOrderAppend<T>(q: seq<Entry<Item<T>>>, pushed: seq<Entry<Item<T>>>, e: Entry<Item<T>>)
    requires InOrder(q, pushed) && e.msg.serial == |pushed|
    ensures InOrder(q, pushed + [e]) && InOrder(q + [e], pushed + [e])
  {
  }

  lemma InOrderRemove<T>(q: seq<Entry<Item<T>>>, pushed: seq<Entry<Item<T>>>, i: nat)
    requires InOrder(q, pushed) && i < |q|
    ensures InOrder(RemoveAt(q, i), pushed)
    ensures forall x :: x in RemoveAt(q, i) ==> x in q
  {
    var rest := RemoveAt(q, i);
    assert forall k :: 0 <= k < |rest| ==> rest[k] == q[if k < i then k else k + 1];
  }

  lemma PushOrdered<T>(max: nat, t: Trace<T>, op: Op<T>)
    requires Ordered(max, t) && op.Push? && !t.state.closed
    ensures Ordered(max, Step(max, t, op))
  {
    hide InOrder, RemoveAt;
    var q := t.state.queue;
    var e := Entry(Item(|t.pushed|, op.msg), op.kind);
    InOrderAppend(t.popped, t.pushed, e);
    InOrderAppend(q, t.pushed, e);
    SerialsBounded(t.popped, t.pushed);
    if |q| >= max && FirstCoded(q).Some? {
      var i := FirstCoded(q).value;
      InOrderRemove(q, t.pushed, i);
      InOrderAppend(RemoveAt(q, i), t.pushed, e);
      RemovedSize(q, i);
    }
  }

  lemma SerialsBounded<T>(es: seq<Entry<Item<T>>>, pushed: seq<Entry<Item<T>>>)
    requires InOrder(es, pushed)
    ensures forall x :: x in es ==> x.msg.serial < |pushed|
  {
  }

  lemma RemovedSize<T>(q: seq<Entry<T>>, i: nat)
    requires i < |q|
    ensures |RemoveAt(q, i)| == |q| - 1
  {
  }

  lemma PopOrdered<T>(max: nat, t: Trace<T>)
    requires Ordered(max, t) && t.state.queue != []
    ensures Ordered(max, Step(max, t, Pop))
  {
    hide InOrder;
    var q, all := t.state.queue, t.popped;
    HeadFirst(q, t.pushed);
    AppendAfter(all, q[0], t.pushed);
    assert forall x :: x in q[1..] ==> x in q;
  }

  /** The head of an ordered queue comes before the others. */
  lemma HeadFirst<T>(q: seq<Entry<Item<T>>>, pushed: seq<Entry<Item<T>>>)
    requires InOrder(q, pushed) && q != []
    ensures InOrder(q[1..], pushed) && InOrder([q[0]], pushed)
    ensures forall x :: x in q[1..] ==> q[0].msg.serial < x.msg.serial
  {
    assert forall k :: 1 <= k < |q| ==> q[1..][k - 1] == q[k];
  }

  lemma AppendAfter<T>(es: seq<Entry<Item<T>>>, e: Entry<Item<T>>, pushed: seq<Entry<Item<T>>>)
    requires InOrder(es, pushed) && InOrder([e], pushed)
    requires forall x :: x in es ==> x.msg.serial < e.msg.serial
    ensures InOrder(es + [e], pushed)
  {
    assert [e][0] == e;
    assert forall i :: 0 <= i < |es| ==> es[i] in es;
  }

  lemma OrderedStep<T>(max: nat, t: Trace<T>, op: Op<T>)
    requires Ordered(max, t)
    ensures Ordered(max, Step(max, t, op))
  {
    if op.Push? && !t.state.closed {
      PushOrdered(max, t, op);
    } else if op.Pop? && t.state.queue != [] {
      PopOrdered(max, t);
    }
  }

  lemma EvictsPush<T>(max: nat, t: Trace<T>, op: Op<T>)
    requires Ordered(max, t) && EvictsOldestCoded(t)
    requires op.Push? && !t.state.closed && |t.state.queue| >= max && FirstCoded(t.state.queue).Some?
    ensures EvictsOldestCoded(Step(max, t, op))
  {
    hide RemoveAt;
    var q := t.state.queue;
    var t' := Step(max, t, op);
    var i := FirstCoded(q).value;
    InOrderRemove(q, t.pushed, i);
    VictimIsOldest(q, t.pushed, i);
    SerialsBounded(q, t.pushed);
  }

  lemma VictimIsOldest<T>(q: seq<Entry<Item<T>>>, pushed: seq<Entry<Item<T>>>, i: nat)
    requires InOrder(q, pushed) && FirstCoded(q) == Some(i)
    ensures forall x :: x in RemoveAt(q, i) && x.kind == Coded ==> q[i].msg.serial < x.msg.serial
  {
    var rest := RemoveAt(q, i);
    assert forall k :: 0 <= k < |rest| ==> rest[k] == q[if k < i then k else k + 1];
  }

  lemma EvictsStep<T>(max: nat, t: Trace<T>, op: Op<T>)
    requires Ordered(max, t) && EvictsOldestCoded(t)
    ensures EvictsOldestCoded(Step(max, t, op))
  {
    hide RemoveAt, FirstCoded;
    SerialsBounded(t.state.queue, t.pushed);
    if op.Push? && !t.state.closed && |t.state.queue| >= max && FirstCoded(t.state.queue).Some? {
      EvictsPush(max, t, op);
    }
  }

  lemma ConservedPush<T>(max: nat, t: Trace<T>, op: Op<T>)
    requires Conserved(t) && op.Push? && !t.state.closed
    ensures Conserved(Step(max, t, op))
  {
    hide FirstCoded;
    var q := t.state.queue;
    if |q| >= max && FirstCoded(q).Some? {
      RemovedMultiset(q, FirstCoded(q).value);
    }
  }

  lemma RemovedMultiset<T>(q: seq<Entry<Item<T>>>, i: nat)
    requires i < |q|
    ensures multiset(q) == multiset(RemoveAt(q, i)) + multiset{q[i]}
  {
    assert q == q[..i] + [q[i]] + q[i + 1..];
  }

  lemma ConservedStep<T>(max: nat, t: Trace<T>, op: Op<T>)
    requires Conserved(t)
    ensures Conserved(Step(max, t, op))
  {
    if op.Push? {
      if !t.state.closed {
        ConservedPush(max, t, op);
      }
    } else if op.Pop? && t.state.queue != [] {
      assert t.state.queue == [t.state.queue[0]] + t.state.queue[1..];
    }
  }

  /** Over every run of push, pop, clear and close. */
  lemma {:induction false} EveryRun<T>(max: nat, ops: seq<Op<T>>)
    ensures var t := Run(max, ops);
            Ordered(max, t) && EvictsOldestCoded(t) && Conserved(t)
    decreases |ops|
  {
    hide Step, Ordered, EvictsOldestCoded, Conserved;
    if ops == [] {
      StartGood<T>(max);
    } else {
      var n := |ops| - 1;
      EveryRun(max, ops[..n]);
      var t := Run(max, ops[..n]);
      OrderedStep(max, t, ops[n]);
      EvictsStep(max, t, ops[n]);
      ConservedStep(max, t, ops[n]);
    }
  }

  /** A message is turned away exactly when the queue is full of Init entries, whatever its own kind: the
      only way in which decoder configuration can be lost. */
  lemma RefusedIff<T>(max: nat, t: Trace<T>, msg: T, kind: Kind)
    requires !t.state.closed
    ensures var t' := Step(max, t, Push(msg, kind));
            if FullOfInit(max, t.state.queue)
            then t'.state.queue == t.state.queue && t'.refused == t.refused + [Entry(Item(|t.pushed|, msg), kind)]
            else t'.refused == t.refused
  {
  }

  /** Over every run, the next operation drops a queued entry exactly when it is a push that finds the open queue at
      its bound with a Coded entry in it, and then it drops one; a push that finds room just appends. */
  lemma EvictedIff<T>(max: nat, ops: seq<Op<T>>, op: Op<T>)
    ensures var t, t' := Run(max, ops), Run(max, ops + [op]);
            var q, push := t.state.queue, op.Push? && !t.state.closed;
            && |t'.evicted| == |t.evicted| +
                               (if push && |q| == max && (exists i :: 0 <= i < |q| && q[i].kind == Coded) then 1 else 0)
            && (push && |q| < max ==>
                  && t'.state == t.state.(queue := q + [Entry(Item(|t.pushed|, op.msg), op.kind)])
                  && t'.refused == t.refused)
  {
    hide Ordered, EvictsOldestCoded, Conserved;
    assert (ops + [op])[..|ops|] == ops;
    EveryRun(max, ops);
    WithinBound(max, Run(max, ops));
  }

  lemma WithinBound<T>(max: nat, t: Trace<T>)
    requires Ordered(max, t)
    ensures |t.state.queue| <= max
  {
  }

  predicate FullOfInit<T>(max: nat, q: seq<Entry<T>>) {
    |q| >= max && forall i :: 0 <= i < |q| ==> q[i].kind == Init
  }

  lemma StartGood<T>(max: nat)
    ensures var t: Trace<T> := Start();
            Ordered(max, t) && EvictsOldestCoded(t) && Conserved(t)
  {
  }

  /** The messages offered before the queue was closed, numbered in order. */
  ghost function Offered<T>(ops: seq<Op<T>>): seq<Entry<Item<T>>>
    decreases |ops|
  {
    if ops == [] then []
    else
      var before, op := ops[..|ops| - 1], ops[|ops| - 1];
      if op.Push? && !HasClose(before)
      then Offered(before) + [Entry(Item(|Offered(before)|, op.msg), op.kind)]
      else Offered(before)
  }

  ghost predicate HasClose<T>(ops: seq<Op<T>>) {
    exists i :: 0 <= i < |ops| && ops[i].Close?
  }

  /** Closing is final: exactly the messages offered before it enter the account. */
  lemma {:induction false} ClosedForGood<T>(max: nat, ops: seq<Op<T>>)
    ensures var t := Run(max, ops);
            t.state.closed == HasClose(ops) && t.pushed == Offered(ops)
    decreases |ops|
  {
    hide FirstCoded, RemoveAt;
    if ops != [] {
      var n := |ops| - 1;
      ClosedForGood(max, ops[..n]);
      assert HasClose(ops) <==> HasClose(ops[..n]) || ops[n].Close? by {
        assert forall i :: 0 <= i < n ==> ops[..n][i] == ops[i];
      }
    }
  }
}
