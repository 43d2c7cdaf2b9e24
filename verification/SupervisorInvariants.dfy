/** What every reachable state of the supervisor keeps. */
module SupervisorInvariants {
  import opened Bytes
  import opened Supervisor

  // ---- who owns the current client

  datatype Phase = NoClient | IsLocal | IsPublished | IsDying

  function PhaseOf(pc: Pc): Phase {
    match pc
    case Want(x) => SectionPhase(x)
    case Hold(x) => SectionPhase(x)
    case Asleep(x) => SectionPhase(x)
    case Connecting => IsLocal
    case Discard => IsLocal
    case Closing => IsPublished
    case WaitingUp => IsPublished
    case OnReady => IsPublished
    case Joining(fate) => if fate == Final then NoClient else IsDying
    case _ => NoClient
  }

  function SectionPhase(x: Section): Phase {
    match x
    case Reset => IsLocal
    case Publish => IsLocal
    case StopCheck => IsPublished
    case Down => IsPublished
    case Success => IsPublished
    case Serve => IsPublished
    case Teardown => IsPublished
    case _ => NoClient
  }

  function Current(s: State): nat {
    if s.nextGen == 0 then 0 else s.nextGen - 1
  }

  /** The network thread has been started by connect(). */
  predicate Launched(pc: Pc) {
    PhaseOf(pc) == IsPublished || PhaseOf(pc) == IsDying || pc == Want(Publish) || pc == Hold(Publish)
  }

  /** Exactly one of the three pointers holds the current client, as the phase says; all earlier clients
      are gone. */
  ghost predicate Ownership(s: State) {
    var phase, cur := PhaseOf(s.pc), Current(s);
    && (forall g: nat :: g in s.clients <==> g < s.nextGen)
    && (phase != NoClient ==> s.nextGen > 0)
    && s.local == (if phase == IsLocal then Some(cur) else None)
    && s.client == (if phase == IsPublished then Some(cur) else None)
    && s.dead == (if phase == IsDying then Some(cur) else None)
    && (forall g :: g in s.clients && g != cur ==> s.clients[g].net == Gone)
    && (s.nextGen > 0 ==>
          if phase == NoClient then s.clients[cur].net == Gone
          else if Launched(s.pc) then s.clients[cur].net != Unborn && s.clients[cur].net != Gone
          else s.clients[cur].net == Unborn)
    && (s.pc == NotStarted <==> !s.started)
  }

  /** The mutex is held by the thread that is inside a critical section, and by no other. */
  ghost predicate Exclusion(s: State) {
    && (s.mutex == BySupervisor <==> s.pc.Hold? || s.pc == Closing)
    && (forall g: nat :: s.mutex == ByNet(g) <==> g in s.clients && s.clients[g].net == HoldSignal)
    && (s.mutex == ByApp <==> s.app == HoldStart || s.app == HoldStop || s.app == HoldClose)
    && (s.mutex == BySender <==> s.sender == HoldSend)
    && (s.app == HoldClose ==> s.stopping)
    && (s.stopping ==> s.started)
    && (s.pc.Asleep? ==> s.pc.section == Serve || s.pc.section == Backoff)
  }

  /** From the per-iteration reset to teardown. */
  predicate Watching(pc: Pc) {
    PhaseOf(pc) != NoClient && pc != Want(Reset) && pc != Hold(Reset)
  }

  /** The drop signal is the current client's own: set exactly when its on_closed has fired. */
  ghost predicate DropSignal(s: State) {
    && (forall g :: g in s.clients ==>
          var c := s.clients[g];
          && (c.fired ==> c.latched)
          && (c.net == WantSignal || c.net == HoldSignal ==> c.latched && !c.fired)
          && (c.net == NeedNotify ==> c.fired)
          && (c.net == Unborn ==> !c.latched))
    && (Watching(s.pc) && Current(s) in s.clients ==> s.dropSignaled == s.clients[Current(s)].fired)
  }

  /** No wakeup is lost: a sleeping supervisor whose wait is over has a notification on its way. */
  ghost predicate Wakeups(s: State) {
    && (s.pc.Asleep? && s.stopping ==> s.app == HoldClose)
    && (s.pc == Asleep(Serve) && s.dropSignaled && Current(s) in s.clients ==>
          s.clients[Current(s)].net == NeedNotify)
  }

  /** Whenever the mutex is free, a published client has been closed if stop was requested. */
  ghost predicate StopCloses(s: State) {
    s.stopping && s.client.Some? && s.client.value in s.clients && s.pc != Closing && s.app != HoldClose ==>
      s.clients[s.client.value].closeRequested
  }

  // ---- a measure that falls once stop is requested

  function PcRank(pc: Pc): nat {
    match pc
    case NotStarted => 31
    case Make => 30
    case Connecting => 27
    case Discard => 12
    case Closing => 24
    case WaitingUp => 23
    case OnReady => 18
    case Joining(fate) => if fate == Final then 1 else 12
    case Done => 0
    case Want(x) => SectionRank(x) + 1
    case Hold(x) => SectionRank(x)
    case Asleep(x) => SectionRank(x) + 2
  }

  function SectionRank(x: Section): nat {
    match x
    case Exit => 2
    case Top => 4
    case Backoff => 6
    case Fail => 9
    case Down => 13
    case Teardown => 13
    case Serve => 15
    case Success => 19
    case StopCheck => 21
    case Publish => 25
    case Reset => 28
  }

  function NetRank(c: Client): nat {
    match c.net
    case Unborn => 6
    case Running => if c.latched then 1 else 5
    case WantSignal => 4
    case HoldSignal => 3
    case NeedNotify => 2
    case _ => 0
  }

  function Rank(s: State): nat {
    8 * PcRank(s.pc) + if Current(s) in s.clients then NetRank(s.clients[Current(s)]) else 0
  }

  /** A stop request is never withdrawn, and then the measure falls. */
  ghost predicate Descends(s: State, t: State) {
    s.stopping ==> t.stopping && Rank(t) < Rank(s)
  }

  /** The same for threads that only call in: they never raise it. */
  ghost predicate Calm(s: State, t: State) {
    s.stopping ==> t.stopping && Rank(t) <= Rank(s)
  }

  ghost predicate Inv(s: State) {
    Ownership(s) && Exclusion(s) && DropSignal(s) && Wakeups(s) && StopCloses(s)
  }

  lemma InitialInv()
    ensures Inv(INITIAL)
  {
    assert Ownership(INITIAL);
    assert Exclusion(INITIAL);
    assert DropSignal(INITIAL);
  }

  // ---- one lemma per program point

  lemma KeepTop(p: Policy, s: State, choice: bool)
    requires Inv(s) && Enabled(s, SupervisorStep(choice)) && s.pc == Hold(Top)
    ensures Inv(SupervisorNext(p, s, choice)) && Descends(s, SupervisorNext(p, s, choice))
  {
  }

  lemma KeepReset(p: Policy, s: State, choice: bool)
    requires Inv(s) && Enabled(s, SupervisorStep(choice)) && s.pc == Hold(Reset)
    ensures Inv(SupervisorNext(p, s, choice)) && Descends(s, SupervisorNext(p, s, choice))
  {
  }

  lemma KeepPublish(p: Policy, s: State, choice: bool)
    requires Inv(s) && Enabled(s, SupervisorStep(choice)) && s.pc == Hold(Publish)
    ensures Inv(SupervisorNext(p, s, choice)) && Descends(s, SupervisorNext(p, s, choice))
  {
  }

  lemma KeepStopNow(p: Policy, s: State, choice: bool)
    requires Inv(s) && Enabled(s, SupervisorStep(choice)) && s.pc == Hold(StopCheck) && s.stopping
    ensures Inv(SupervisorNext(p, s, choice)) && Descends(s, SupervisorNext(p, s, choice))
  {
    assert SupervisorNext(p, s, choice).pc == Joining(StopNow);
  }

  lemma KeepGoing(p: Policy, s: State, choice: bool)
    requires Inv(s) && Enabled(s, SupervisorStep(choice)) && s.pc == Hold(StopCheck) && !s.stopping
    ensures Inv(SupervisorNext(p, s, choice)) && Descends(s, SupervisorNext(p, s, choice))
  {
    assert SupervisorNext(p, s, choice).pc == if s.up then Want(Success) else Want(Down);
  }

  lemma KeepDown(p: Policy, s: State, choice: bool)
    requires Inv(s) && Enabled(s, SupervisorStep(choice)) && s.pc == Hold(Down)
    ensures Inv(SupervisorNext(p, s, choice)) && Descends(s, SupervisorNext(p, s, choice))
  {
  }

  lemma KeepLeaving(p: Policy, s: State, choice: bool)
    requires Inv(s) && Enabled(s, SupervisorStep(choice)) && s.pc == Hold(Fail)
    requires (s.stopping || GivesUp(p, Next32(s.books.attempts)))
    ensures Inv(SupervisorNext(p, s, choice)) && Descends(s, SupervisorNext(p, s, choice))
  {
    assert SupervisorNext(p, s, choice).pc == Want(Exit);
  }

  lemma KeepBackingOff(p: Policy, s: State, choice: bool)
    requires Inv(s) && Enabled(s, SupervisorStep(choice)) && s.pc == Hold(Fail)
    requires !s.stopping && !GivesUp(p, Next32(s.books.attempts))
    ensures Inv(SupervisorNext(p, s, choice)) && Descends(s, SupervisorNext(p, s, choice))
  {
    assert SupervisorNext(p, s, choice).pc == Asleep(Backoff);
  }

  lemma KeepBackoff(p: Policy, s: State, choice: bool)
    requires Inv(s) && Enabled(s, SupervisorStep(choice)) && s.pc == Hold(Backoff)
    ensures Inv(SupervisorNext(p, s, choice)) && Descends(s, SupervisorNext(p, s, choice))
  {
  }

  lemma KeepSuccess(p: Policy, s: State, choice: bool)
    requires Inv(s) && Enabled(s, SupervisorStep(choice)) && s.pc == Hold(Success)
    ensures Inv(SupervisorNext(p, s, choice)) && Descends(s, SupervisorNext(p, s, choice))
  {
  }

  lemma KeepServe(p: Policy, s: State, choice: bool)
    requires Inv(s) && Enabled(s, SupervisorStep(choice)) && s.pc == Hold(Serve)
    ensures Inv(SupervisorNext(p, s, choice)) && Descends(s, SupervisorNext(p, s, choice))
  {
  }

  lemma KeepTeardown(p: Policy, s: State, choice: bool)
    requires Inv(s) && Enabled(s, SupervisorStep(choice)) && s.pc == Hold(Teardown)
    ensures Inv(SupervisorNext(p, s, choice)) && Descends(s, SupervisorNext(p, s, choice))
  {
  }

  lemma KeepExit(p: Policy, s: State, choice: bool)
    requires Inv(s) && Enabled(s, SupervisorStep(choice)) && s.pc == Hold(Exit)
    ensures Inv(SupervisorNext(p, s, choice)) && Descends(s, SupervisorNext(p, s, choice))
  {
  }

  lemma KeepWant(p: Policy, s: State, choice: bool)
    requires Inv(s) && Enabled(s, SupervisorStep(choice)) && s.pc.Want?
    ensures Inv(SupervisorNext(p, s, choice)) && Descends(s, SupervisorNext(p, s, choice))
  {
  }

  lemma KeepMake(p: Policy, s: State, choice: bool)
    requires Inv(s) && Enabled(s, SupervisorStep(choice)) && s.pc == Make
    ensures Inv(SupervisorNext(p, s, choice)) && Descends(s, SupervisorNext(p, s, choice))
  {
  }

  lemma KeepConnecting(p: Policy, s: State, choice: bool)
    requires Inv(s) && Enabled(s, SupervisorStep(choice)) && s.pc == Connecting
    ensures Inv(SupervisorNext(p, s, choice)) && Descends(s, SupervisorNext(p, s, choice))
  {
  }

  lemma KeepDiscard(p: Policy, s: State, choice: bool)
    requires Inv(s) && Enabled(s, SupervisorStep(choice)) && s.pc == Discard
    ensures Inv(SupervisorNext(p, s, choice)) && Descends(s, SupervisorNext(p, s, choice))
  {
    var s' := SupervisorNext(p, s, choice);
    assert s'.clients == s.clients[Current(s) := s.clients[Current(s)].(net := Gone)];
  }

  lemma KeepClosing(p: Policy, s: State, choice: bool)
    requires Inv(s) && Enabled(s, SupervisorStep(choice)) && s.pc == Closing
    ensures Inv(SupervisorNext(p, s, choice)) && Descends(s, SupervisorNext(p, s, choice))
  {
    var s' := SupervisorNext(p, s, choice);
    assert s'.pc == WaitingUp;
    if s.stopping {
      assert s'.clients[Current(s)] == s.clients[Current(s)].(closeRequested := true);
    }
  }

  lemma KeepWaitingUp(p: Policy, s: State, choice: bool)
    requires Inv(s) && Enabled(s, SupervisorStep(choice)) && s.pc == WaitingUp
    ensures Inv(SupervisorNext(p, s, choice)) && Descends(s, SupervisorNext(p, s, choice))
  {
  }

  lemma KeepOnReady(p: Policy, s: State, choice: bool)
    requires Inv(s) && Enabled(s, SupervisorStep(choice)) && s.pc == OnReady
    ensures Inv(SupervisorNext(p, s, choice)) && Descends(s, SupervisorNext(p, s, choice))
  {
  }

  lemma KeepFinal(p: Policy, s: State, choice: bool)
    requires Inv(s) && Enabled(s, SupervisorStep(choice)) && s.pc == Joining(Final)
    ensures Inv(SupervisorNext(p, s, choice)) && Descends(s, SupervisorNext(p, s, choice))
  {
    assert SupervisorNext(p, s, choice).clients == s.clients;
  }

  lemma KeepDying(p: Policy, s: State, choice: bool)
    requires Inv(s) && Enabled(s, SupervisorStep(choice)) && s.pc.Joining? && s.pc.fate != Final
    ensures Inv(SupervisorNext(p, s, choice)) && Descends(s, SupervisorNext(p, s, choice))
  {
    assert SupervisorNext(p, s, choice).clients == s.clients[Current(s) := s.clients[Current(s)].(net := Gone)];
  }

  ghost predicate SameNets(a: map<nat, Client>, b: map<nat, Client>) {
    && a.Keys == b.Keys
    && forall g :: g in a ==> a[g].net == b[g].net && a[g].latched == b[g].latched && a[g].fired == b[g].fired
  }

  /** Equal as far as ownership and the drop signal can tell. */
  ghost predicate Alike(s: State, t: State) {
    && PhaseOf(s.pc) == PhaseOf(t.pc) && Launched(s.pc) == Launched(t.pc) && Watching(s.pc) == Watching(t.pc)
    && (s.pc == NotStarted <==> t.pc == NotStarted)
    && s.local == t.local && s.client == t.client && s.dead == t.dead && s.started == t.started
    && s.nextGen == t.nextGen && s.dropSignaled == t.dropSignaled
    && SameNets(s.clients, t.clients)
  }

  lemma AlikeKeeps(s: State, t: State)
    requires Alike(s, t) && Ownership(s) && DropSignal(s)
    ensures Ownership(t) && DropSignal(t)
  {
    hide PhaseOf, Launched, Watching;
  }

  lemma AlikeCalm(s: State, t: State)
    requires Alike(s, t) && PcRank(t.pc) <= PcRank(s.pc) && (s.stopping ==> t.stopping)
    ensures Calm(s, t)
  {
    hide PhaseOf, Launched, Watching, PcRank;
  }

  lemma ClosedAlike(clients: map<nat, Client>, g: Option<nat>)
    ensures SameNets(clients, Closed(clients, g))
    ensures g.Some? && g.value in clients ==> Closed(clients, g)[g.value].closeRequested
  {
  }

  lemma SameNetsHold(a: map<nat, Client>, b: map<nat, Client>)
    requires SameNets(a, b)
    ensures forall g :: g in a <==> g in b
    ensures forall g :: g in a ==> a[g].net == b[g].net
  {
  }

  lemma WakingKeepsPhase(s: State)
    ensures var pc, pc' := s.pc, Notified(s).pc;
            PhaseOf(pc') == PhaseOf(pc)
    ensures Exclusion(s) ==> Launched(Notified(s).pc) == Launched(s.pc) && Watching(Notified(s).pc) == Watching(s.pc)
    ensures s.pc != Closing && s.pc != NotStarted ==> Notified(s).pc != Closing && Notified(s).pc != NotStarted
  {
  }

  lemma WakingLowersRank(s: State)
    ensures PcRank(Notified(s).pc) <= PcRank(s.pc)
  {
  }

  lemma NetAcquires(s: State, g: nat)
    requires Inv(s) && Enabled(s, NetStep(g)) && s.clients[g].net == WantSignal
    ensures Inv(NetNext(s, g)) && Descends(s, NetNext(s, g))
  {
  }

  lemma NetSignals(s: State, g: nat)
    requires Inv(s) && Enabled(s, NetStep(g)) && s.clients[g].net == HoldSignal
    ensures Inv(NetNext(s, g)) && Descends(s, NetNext(s, g))
  {
  }

  lemma NetWakes(s: State, g: nat)
    requires Inv(s) && Enabled(s, NetStep(g)) && s.clients[g].net == NeedNotify && s.pc.Asleep?
    ensures Inv(NetNext(s, g)) && Descends(s, NetNext(s, g))
  {
    assert NetNext(s, g).pc == Want(s.pc.section);
  }

  lemma NetNotifiesNobody(s: State, g: nat)
    requires Inv(s) && Enabled(s, NetStep(g)) && s.clients[g].net == NeedNotify && !s.pc.Asleep?
    ensures Inv(NetNext(s, g)) && Descends(s, NetNext(s, g))
  {
    assert NetNext(s, g).pc == s.pc;
  }

  lemma AppLocks(s: State)
    requires Inv(s) && Enabled(s, AppStep) && (s.app == WantStart || s.app == WantStop || s.app == JoinRun)
    ensures Inv(AppNext(s)) && Calm(s, AppNext(s))
  {
  }

  lemma AppStarts(s: State)
    requires Inv(s) && s.app == HoldStart
    ensures Inv(AppNext(s)) && Calm(s, AppNext(s))
  {
  }

  lemma AppStopsAlike(s: State)
    requires s.app == HoldStop
    ensures Alike(s, AppNext(s))
  {
    hide PhaseOf, Launched, Watching;
  }

  lemma AppStopsRest(s: State)
    requires Exclusion(s) && Wakeups(s) && StopCloses(s) && s.app == HoldStop
    ensures Exclusion(AppNext(s)) && Wakeups(AppNext(s)) && StopCloses(AppNext(s))
    ensures AppNext(s).pc == s.pc && (s.stopping ==> AppNext(s).stopping)
  {
  }

  lemma AppStops(s: State)
    requires Inv(s) && s.app == HoldStop
    ensures Inv(AppNext(s)) && Calm(s, AppNext(s))
  {
    hide Alike, Ownership, DropSignal, Exclusion, Wakeups, StopCloses, AppNext;
    AppStopsAlike(s);
    AppStopsRest(s);
    AlikeKeeps(s, AppNext(s));
    AlikeCalm(s, AppNext(s));
  }

  lemma AppClosesAlike(s: State)
    requires s.app == HoldClose && Exclusion(s)
    ensures Alike(s, AppNext(s))
  {
    hide PhaseOf, Launched, Watching, SameNets, Closed;
    ClosedAlike(s.clients, s.client);
    WakingKeepsPhase(s);
    assert AppNext(s).pc == Notified(s).pc;
  }

  lemma AppClosesRest(s: State)
    requires Exclusion(s) && Wakeups(s) && StopCloses(s) && s.app == HoldClose
    ensures Exclusion(AppNext(s)) && Wakeups(AppNext(s)) && StopCloses(AppNext(s))
    ensures AppNext(s).pc == Notified(s).pc && (s.stopping ==> AppNext(s).stopping)
  {
    hide SameNets, Closed;
    ClosedAlike(s.clients, s.client);
    SameNetsHold(s.clients, Closed(s.clients, s.client));
    var t := s.(clients := Closed(s.clients, s.client), mutex := Free, app := JoinRun);
    assert AppNext(s) == Notified(t);
  }

  lemma AppCloses(s: State)
    requires Inv(s) && s.app == HoldClose
    ensures Inv(AppNext(s)) && Calm(s, AppNext(s))
  {
    hide Alike, Ownership, DropSignal, Exclusion, Wakeups, StopCloses, AppNext;
    AppClosesAlike(s);
    AppClosesRest(s);
    AlikeKeeps(s, AppNext(s));
    WakingLowersRank(s);
    AlikeCalm(s, AppNext(s));
  }

  lemma NetCloses(p: Policy, s: State, g: nat)
    requires Inv(s) && Enabled(s, NetClose(g))
    ensures Inv(Next(p, s, NetClose(g))) && Descends(s, Next(p, s, NetClose(g)))
  {
  }

  lemma NetExits(p: Policy, s: State, g: nat)
    requires Inv(s) && Enabled(s, NetExit(g))
    ensures Inv(Next(p, s, NetExit(g))) && Descends(s, Next(p, s, NetExit(g)))
  {
  }

  lemma WakeKeeps(s: State)
    requires Inv(s) && s.pc.Asleep?
    ensures Inv(Notified(s)) && Descends(s, Notified(s))
  {
  }

  lemma CallsRest(p: Policy, s: State, a: Action)
    requires Enabled(s, a) && (a.AppCall? || a.SenderCall? || a.Tick?)
    requires Exclusion(s) && Wakeups(s) && StopCloses(s)
    ensures var t := Next(p, s, a);
            && Exclusion(t) && Wakeups(t) && StopCloses(t)
            && t.pc == s.pc && t.stopping == s.stopping
  {
    hide SupervisorNext, NetNext, AppNext;
  }

  lemma SendsRest(p: Policy, s: State)
    requires Enabled(s, SenderStep)
    requires Exclusion(s) && Wakeups(s) && StopCloses(s)
    ensures var t := Next(p, s, SenderStep);
            && Exclusion(t) && Wakeups(t) && StopCloses(t)
            && t.pc == s.pc && t.stopping == s.stopping
  {
    hide SupervisorNext, NetNext, AppNext, Exclusion;
    SendsExclude(p, s);
  }

  lemma SendsExclude(p: Policy, s: State)
    requires Enabled(s, SenderStep) && Exclusion(s)
    ensures Exclusion(Next(p, s, SenderStep))
  {
    hide SupervisorNext, NetNext, AppNext;
    var t := Next(p, s, SenderStep);
    assert t == s.(mutex := t.mutex, sender := t.sender);
  }

  lemma CallersAlike(p: Policy, s: State, a: Action)
    requires Enabled(s, a) && (a.AppCall? || a.SenderCall? || a.SenderStep? || a.Tick?)
    ensures Alike(s, Next(p, s, a))
  {
    hide PhaseOf, Launched, Watching, SupervisorNext, NetNext, AppNext;
    match a
    case AppCall(stop) => assert Next(p, s, a) == s.(app := if stop then WantStop else WantStart);
    case SenderCall => assert Next(p, s, a) == s.(sender := WantSend);
    case Tick => assert Next(p, s, a) == s.(books := Next(p, s, a).books);
    case SenderStep =>
      var t := Next(p, s, a);
      assert t == s.(mutex := t.mutex, sender := t.sender);
  }

  lemma CallersKeep(p: Policy, s: State, a: Action)
    requires Inv(s) && Enabled(s, a) && (a.AppCall? || a.SenderCall? || a.SenderStep? || a.Tick?)
    ensures Inv(Next(p, s, a)) && Calm(s, Next(p, s, a))
  {
    hide Alike, Ownership, DropSignal, Exclusion, Wakeups, StopCloses, Next, Enabled;
    CallersAlike(p, s, a);
    if a.SenderStep? {
      SendsRest(p, s);
    } else {
      CallsRest(p, s, a);
    }
    AlikeKeeps(s, Next(p, s, a));
    AlikeCalm(s, Next(p, s, a));
  }

  // ---- every step, every run

  lemma SectionKeeps(p: Policy, s: State, choice: bool)
    requires Inv(s) && Enabled(s, SupervisorStep(choice)) && s.pc.Hold?
    ensures Inv(SupervisorNext(p, s, choice)) && Descends(s, SupervisorNext(p, s, choice))
  {
    hide Inv, SupervisorNext, Enabled, Rank;
    match s.pc.section
    case Top => KeepTop(p, s, choice);
    case Reset => KeepReset(p, s, choice);
    case Publish => KeepPublish(p, s, choice);
    case StopCheck => if s.stopping { KeepStopNow(p, s, choice); } else { KeepGoing(p, s, choice); }
    case Down => KeepDown(p, s, choice);
    case Fail =>
      if s.stopping || GivesUp(p, Next32(s.books.attempts)) {
        KeepLeaving(p, s, choice);
      } else {
        KeepBackingOff(p, s, choice);
      }
    case Backoff => KeepBackoff(p, s, choice);
    case Success => KeepSuccess(p, s, choice);
    case Serve => KeepServe(p, s, choice);
    case Teardown => KeepTeardown(p, s, choice);
    case Exit => KeepExit(p, s, choice);
  }

  lemma SupervisorKeeps(p: Policy, s: State, choice: bool)
    requires Inv(s) && Enabled(s, SupervisorStep(choice))
    ensures Inv(SupervisorNext(p, s, choice)) && Descends(s, SupervisorNext(p, s, choice))
  {
    hide Inv, SupervisorNext, Rank;
    match s.pc
    case Want(_) => KeepWant(p, s, choice);
    case Hold(_) => SectionKeeps(p, s, choice);
    case Make => KeepMake(p, s, choice);
    case Connecting => KeepConnecting(p, s, choice);
    case Discard => KeepDiscard(p, s, choice);
    case Closing => KeepClosing(p, s, choice);
    case WaitingUp => KeepWaitingUp(p, s, choice);
    case OnReady => KeepOnReady(p, s, choice);
    case Joining(fate) => if fate == Final { KeepFinal(p, s, choice); } else { KeepDying(p, s, choice); }
  }

  lemma NetKeeps(s: State, g: nat)
    requires Inv(s) && Enabled(s, NetStep(g))
    ensures Inv(NetNext(s, g)) && Descends(s, NetNext(s, g))
  {
    hide Inv, NetNext, Rank;
    if s.clients[g].net == WantSignal {
      NetAcquires(s, g);
    } else if s.clients[g].net == HoldSignal {
      NetSignals(s, g);
    } else if s.pc.Asleep? {
      NetWakes(s, g);
    } else {
      NetNotifiesNobody(s, g);
    }
  }

  lemma AppKeeps(s: State)
    requires Inv(s) && Enabled(s, AppStep)
    ensures Inv(AppNext(s)) && Calm(s, AppNext(s))
  {
    hide Inv, AppNext, Rank;
    if s.app == HoldStart {
      AppStarts(s);
    } else if s.app == HoldStop {
      AppStops(s);
    } else if s.app == HoldClose {
      AppCloses(s);
    } else {
      AppLocks(s);
    }
  }

  /** Every step of every thread keeps the invariant. */
  lemma StepKeeps(p: Policy, s: State, a: Action)
    requires Inv(s) && Enabled(s, a)
    ensures Inv(Next(p, s, a))
    ensures if a.AppCall? || a.AppStep? || a.SenderCall? || a.SenderStep? || a.Tick?
            then Calm(s, Next(p, s, a))
            else Descends(s, Next(p, s, a))
  {
    hide Inv, SupervisorNext, NetNext, AppNext, Rank;
    match a
    case SupervisorStep(choice) => SupervisorKeeps(p, s, choice);
    case NetStep(g) => NetKeeps(s, g);
    case AppStep => AppKeeps(s);
    case NetClose(g) => NetCloses(p, s, g);
    case NetExit(g) => NetExits(p, s, g);
    case Wake => WakeKeeps(s);
    case _ => CallersKeep(p, s, a);
  }

  lemma {:induction false} RunKeeps(p: Policy, s: State, run: seq<Action>)
    requires Inv(s) && LegalRun(p, s, run)
    ensures Inv(After(p, s, run))
    decreases |run|
  {
    hide Inv, Next, Enabled;
    if run != [] {
      StepKeeps(p, s, run[0]);
      RunKeeps(p, Next(p, s, run[0]), run[1..]);
    }
  }

  /** A state some run of the system reaches. */
  ghost predicate Reachable(p: Policy, s: State) {
    exists run :: LegalRun(p, INITIAL, run) && After(p, INITIAL, run) == s
  }

  lemma ReachableInv(p: Policy, s: State)
    requires Reachable(p, s)
    ensures Inv(s)
  {
    hide Inv, LegalRun, After;
    var run :| LegalRun(p, INITIAL, run) && After(p, INITIAL, run) == s;
    InitialInv();
    RunKeeps(p, INITIAL, run);
  }

  // ---- what that means

  /** From the per-iteration reset to teardown the drop signal is set exactly when the current client's
      on_closed has fired, and no other client has a network thread left that could set it. */
  lemma DropSignalIsOwn(p: Policy, s: State)
    requires Reachable(p, s)
    ensures Watching(s.pc) ==> Current(s) in s.clients && s.dropSignaled == s.clients[Current(s)].fired
    ensures forall g, h :: g in s.clients && h in s.clients && s.clients[g].net != Gone && s.clients[h].net != Gone ==>
              g == h
  {
    hide Reachable;
    ReachableInv(p, s);
  }

  /** A stop request always reaches a published client: with the mutex free, it has been closed. */
  lemma StopReachesClient(p: Policy, s: State)
    requires Reachable(p, s)
    requires s.mutex == Free && s.stopping && s.client.Some?
    ensures s.client.value in s.clients && s.clients[s.client.value].closeRequested
  {
    hide Reachable;
    ReachableInv(p, s);
  }

  /** A dead connection never leaves the supervisor blocked: if it sleeps although the drop has been
      signalled or stop requested, the thread that did so is about to notify it. */
  lemma NeverStranded(p: Policy, s: State)
    requires Reachable(p, s) && s.pc == Asleep(Serve)
    ensures s.dropSignaled ==> Enabled(s, NetStep(Current(s))) && NetNext(s, Current(s)).pc == Want(Serve)
    ensures s.stopping ==> Enabled(s, AppStep) && AppNext(s).pc == Want(Serve)
  {
    hide Reachable;
    ReachableInv(p, s);
  }

  /** The clean-up after the loop never finds a client: every way out has already destroyed it. */
  lemma ExitFindsNoClient(p: Policy, s: State)
    requires Reachable(p, s) && s.pc == Hold(Exit)
    ensures s.client == None && forall g :: g in s.clients ==> s.clients[g].net == Gone
  {
    hide Reachable;
    ReachableInv(p, s);
  }
}
