/** The supervisor's bookkeeping over all runs, and its backoff. */
module SupervisorBooks {
  import opened Bytes
  import opened Supervisor
  import opened SupervisorInvariants

  /** Consecutive failures since the last success. */
  function Trailing(log: seq<bool>): nat {
    if log == [] || log[|log| - 1] then 0 else 1 + Trailing(log[..|log| - 1])
  }

  function Successes(log: seq<bool>): nat {
    if log == [] then 0 else Successes(log[..|log| - 1]) + if log[|log| - 1] then 1 else 0
  }

  lemma LogGrows(log: seq<bool>, ok: bool)
    ensures Trailing(log + [ok]) == if ok then 0 else Trailing(log) + 1
    ensures Successes(log + [ok]) == Successes(log) + if ok then 1 else 0
  {
    assert (log + [ok])[..|log|] == log;
  }

  /** A failure that the run loop has not counted yet. */
  predicate Uncounted(s: State) {
    match s.pc
    case Discard => true
    case Joining(fate) => fate == Retry
    case Want(x) => x == Fail || x == Down || (x == StopCheck && !s.up)
    case Hold(x) => x == Fail || x == Down || (x == StopCheck && !s.up)
    case _ => false
  }

  /** On the way out of the run loop. */
  predicate Leaving(pc: Pc) {
    match pc
    case Want(x) => x == Exit
    case Hold(x) => x == Exit
    case Joining(fate) => fate == Final || fate == StopNow
    case Done => true
    case _ => false
  }

  predicate IsUp(pc: Pc) {
    match pc
    case OnReady => true
    case Want(x) => x == Serve || x == Teardown
    case Hold(x) => x == Serve || x == Teardown
    case Asleep(x) => x == Serve
    case _ => false
  }

  predicate BacksOff(pc: Pc) {
    pc == Want(Backoff) || pc == Hold(Backoff) || pc == Asleep(Backoff)
  }

  ghost predicate Counters(p: Policy, s: State) {
    var fails, oks := Trailing(s.books.log), Successes(s.books.log);
    && s.books.reconnectCount == (if oks == 0 then 0 else (oks - 1) % U64_SPAN)
    && s.books.firstConnect == (oks == if s.pc == OnReady then 1 else 0)
    && (s.pc == OnReady ==> fails == 0 && oks >= 1)
    && (IsUp(s.pc) || s.pc == Joining(Torn) ==> fails == 0)
    && (BacksOff(s.pc) ==> fails >= 1)
    && (s.pc == NotStarted ==> s.books.log == [])
    && (s.pc != OnReady && !Leaving(s.pc) ==>
          if Uncounted(s) then fails >= 1 && s.books.attempts == (fails - 1) % U32_SPAN
          else s.books.attempts == fails % U32_SPAN)
    && (p.maxAttempts != 0 ==>
          fails <= p.maxAttempts && (fails == p.maxAttempts ==> Uncounted(s) || Leaving(s.pc)))
  }

  ghost predicate Verdict(p: Policy, s: State) {
    && (s.books.failed ==> p.maxAttempts != 0 && Trailing(s.books.log) == p.maxAttempts && Leaving(s.pc))
    && (Leaving(s.pc) ==> s.books.failed || s.stopping)
    && (s.pc == Joining(Torn) && s.shouldStop ==> s.stopping)
    && s.books.connected == IsUp(s.pc)
    && (s.pc == Want(Teardown) || s.pc == Hold(Teardown) ==> s.dropSignaled || s.stopping)
  }

  ghost predicate Books(p: Policy, s: State) {
    Counters(p, s) && Verdict(p, s)
  }

  lemma KeepTop(p: Policy, s: State, choice: bool)
    requires Books(p, s) && Enabled(s, SupervisorStep(choice)) && (s.pc == Hold(Top) || s.pc == Hold(Reset))
    ensures Books(p, SupervisorNext(p, s, choice))
  {
    hide Trailing, Successes;
  }

  lemma KeepMoving(p: Policy, s: State, choice: bool)
    requires Books(p, s) && Enabled(s, SupervisorStep(choice)) && (s.pc == Hold(Publish) || s.pc == Hold(Down))
    ensures Books(p, SupervisorNext(p, s, choice))
  {
    hide Trailing, Successes;
  }

  lemma KeepStopCheck(p: Policy, s: State, choice: bool)
    requires Books(p, s) && Enabled(s, SupervisorStep(choice)) && s.pc == Hold(StopCheck)
    ensures Books(p, SupervisorNext(p, s, choice))
  {
    hide Trailing, Successes;
  }

  lemma KeepSleepers(p: Policy, s: State, choice: bool)
    requires Books(p, s) && Enabled(s, SupervisorStep(choice)) && (s.pc == Hold(Backoff) || s.pc == Hold(Serve))
    ensures Books(p, SupervisorNext(p, s, choice))
  {
    hide Trailing, Successes;
  }

  lemma CountersWrap(n: nat)
    ensures Next32(n % U32_SPAN) == (n + 1) % U32_SPAN
    ensures Next64(n % U64_SPAN) == (n + 1) % U64_SPAN
  {
  }

  lemma KeepGivingIn(p: Policy, s: State, choice: bool)
    requires Books(p, s) && Enabled(s, SupervisorStep(choice)) && s.pc == Hold(Fail) && s.stopping
    ensures Books(p, SupervisorNext(p, s, choice))
  {
    hide Trailing, Successes;
  }

  lemma KeepGivingUp(p: Policy, s: State, choice: bool)
    requires Books(p, s) && Enabled(s, SupervisorStep(choice)) && s.pc == Hold(Fail)
    requires !s.stopping && GivesUp(p, Next32(s.books.attempts))
    ensures Books(p, SupervisorNext(p, s, choice))
  {
    hide Trailing, Successes, Next32;
    CountersWrap(Trailing(s.books.log) - 1);
  }

  lemma KeepRetrying(p: Policy, s: State, choice: bool)
    requires Books(p, s) && Enabled(s, SupervisorStep(choice)) && s.pc == Hold(Fail)
    requires !s.stopping && !GivesUp(p, Next32(s.books.attempts))
    ensures Books(p, SupervisorNext(p, s, choice))
  {
    hide Trailing, Successes, Next32, Waiting;
    CountersWrap(Trailing(s.books.log) - 1);
    var t, b := SupervisorNext(p, s, choice), s.books.(attempts := Next32(s.books.attempts));
    WaitKeepsCounters(p, b);
    assert t == Release(s, Asleep(Backoff)).(books := Waiting(p, b));
  }

  lemma WaitKeepsCounters(p: Policy, b: Record)
    ensures Waiting(p, b) == b.(clock := Waiting(p, b).clock)
  {
  }

  lemma KeepSuccess(p: Policy, s: State, choice: bool)
    requires Books(p, s) && Enabled(s, SupervisorStep(choice)) && s.pc == Hold(Success)
    ensures Books(p, SupervisorNext(p, s, choice))
  {
    hide Trailing, Successes, Next64;
    LogGrows(s.books.log, true);
    if Successes(s.books.log) > 0 {
      CountersWrap(Successes(s.books.log) - 1);
    }
  }

  lemma KeepTeardown(p: Policy, s: State, choice: bool)
    requires Books(p, s) && Enabled(s, SupervisorStep(choice)) && (s.pc == Hold(Teardown) || s.pc == Hold(Exit))
    ensures Books(p, SupervisorNext(p, s, choice))
  {
    hide Trailing, Successes;
  }

  lemma KeepWant(p: Policy, s: State, choice: bool)
    requires Books(p, s) && Enabled(s, SupervisorStep(choice)) && s.pc.Want?
    ensures Books(p, SupervisorNext(p, s, choice))
  {
    hide Trailing, Successes;
  }

  lemma KeepMaking(p: Policy, s: State, choice: bool)
    requires Books(p, s) && Enabled(s, SupervisorStep(choice)) && (s.pc == Make || s.pc == Closing || s.pc == OnReady)
    ensures Books(p, SupervisorNext(p, s, choice))
  {
    hide Trailing, Successes;
  }

  lemma KeepConnecting(p: Policy, s: State, choice: bool)
    requires Books(p, s) && Enabled(s, SupervisorStep(choice)) && s.pc == Connecting
    ensures Books(p, SupervisorNext(p, s, choice))
  {
    hide Trailing, Successes;
    var t := SupervisorNext(p, s, choice);
    if t.pc == Discard {
      LogGrows(s.books.log, false);
      assert t.books == s.books.(log := s.books.log + [false]);
    } else {
      assert t.pc == Want(Publish) && t.books == s.books;
    }
  }

  lemma KeepWaitingUp(p: Policy, s: State, choice: bool)
    requires Books(p, s) && Enabled(s, SupervisorStep(choice)) && s.pc == WaitingUp
    ensures Books(p, SupervisorNext(p, s, choice))
  {
    hide Trailing, Successes;
    LogGrows(s.books.log, false);
  }

  lemma KeepDiscard(p: Policy, s: State, choice: bool)
    requires Books(p, s) && Enabled(s, SupervisorStep(choice)) && s.pc == Discard
    ensures Books(p, SupervisorNext(p, s, choice))
  {
    hide Trailing, Successes;
  }

  lemma KeepJoining(p: Policy, s: State, choice: bool)
    requires Books(p, s) && Enabled(s, SupervisorStep(choice)) && s.pc.Joining?
    ensures Books(p, SupervisorNext(p, s, choice))
  {
    hide Trailing, Successes;
  }

  /** Other threads touch none of the books; they only start, stop or wake the run loop, or let time pass. */
  ghost predicate SameBooks(s: State, t: State) {
    && t.books == s.books.(clock := s.books.clock.(now := t.books.clock.now))
    && t.books.clock.now >= s.books.clock.now && (s.dropSignaled ==> t.dropSignaled)
    && s.up == t.up && s.shouldStop == t.shouldStop && (s.stopping ==> t.stopping)
    && (t.pc == s.pc || (s.pc.Asleep? && t.pc == Want(s.pc.section)) || (s.pc == NotStarted && t.pc == Want(Top)))
  }

  lemma SameBooksKeep(p: Policy, s: State, t: State)
    requires Books(p, s) && SameBooks(s, t) && (s.pc.Asleep? ==> s.pc.section == Serve || s.pc.section == Backoff)
    ensures Books(p, t)
  {
    hide Trailing, Successes;
  }

  lemma NetLeavesBooks(s: State, g: nat)
    requires Enabled(s, NetStep(g))
    ensures SameBooks(s, NetNext(s, g))
  {
    if s.clients[g].net == NeedNotify {
      assert NetNext(s, g) == Notified(Net(s, g, Running));
    } else {
      assert NetNext(s, g).pc == s.pc && NetNext(s, g).books == s.books;
    }
  }

  lemma AppLeavesBooks(s: State)
    requires Enabled(s, AppStep) && (s.pc == NotStarted <==> !s.started)
    ensures SameBooks(s, AppNext(s))
  {
    if s.app == HoldClose {
      var t := s.(clients := Closed(s.clients, s.client), mutex := Free, app := JoinRun);
      assert AppNext(s) == Notified(t);
    }
  }

  lemma OthersLeaveBooks(p: Policy, s: State, a: Action)
    requires Enabled(s, a) && !a.SupervisorStep? && !a.NetStep? && !a.AppStep?
    ensures SameBooks(s, Next(p, s, a))
  {
    hide SupervisorNext, NetNext, AppNext;
  }

  lemma SupervisorKeepsBooks(p: Policy, s: State, choice: bool)
    requires Books(p, s) && Enabled(s, SupervisorStep(choice))
    ensures Books(p, SupervisorNext(p, s, choice))
  {
    hide Books, SupervisorNext;
    match s.pc
    case Want(_) => KeepWant(p, s, choice);
    case Hold(x) =>
      match x {
        case StopCheck => KeepStopCheck(p, s, choice);
        case Backoff => KeepSleepers(p, s, choice);
        case Serve => KeepSleepers(p, s, choice);
        case Fail =>
          if s.stopping {
            KeepGivingIn(p, s, choice);
          } else if GivesUp(p, Next32(s.books.attempts)) {
            KeepGivingUp(p, s, choice);
          } else {
            KeepRetrying(p, s, choice);
          }
        case Success => KeepSuccess(p, s, choice);
        case Teardown => KeepTeardown(p, s, choice);
        case Exit => KeepTeardown(p, s, choice);
        case Top => KeepTop(p, s, choice);
        case Reset => KeepTop(p, s, choice);
        case _ => KeepMoving(p, s, choice);
      }
    case Connecting => KeepConnecting(p, s, choice);
    case WaitingUp => KeepWaitingUp(p, s, choice);
    case Discard => KeepDiscard(p, s, choice);
    case Joining(_) => KeepJoining(p, s, choice);
    case _ => KeepMaking(p, s, choice);
  }

  lemma OtherThreads(p: Policy, s: State, a: Action)
    requires Inv(s) && Enabled(s, a) && !a.SupervisorStep?
    ensures SameBooks(s, Next(p, s, a))
  {
    hide SameBooks, SupervisorNext, NetNext, AppNext;
    if a.NetStep? {
      NetLeavesBooks(s, a.gen);
    } else if a.AppStep? {
      AppLeavesBooks(s);
    } else {
      OthersLeaveBooks(p, s, a);
    }
  }

  lemma StepKeepsBooks(p: Policy, s: State, a: Action)
    requires Inv(s) && Books(p, s) && Enabled(s, a)
    ensures Books(p, Next(p, s, a))
  {
    hide Books, SameBooks, SupervisorNext, NetNext, AppNext;
    if a.SupervisorStep? {
      SupervisorKeepsBooks(p, s, a.choice);
    } else {
      OtherThreads(p, s, a);
      SameBooksKeep(p, s, Next(p, s, a));
    }
  }

  lemma {:induction false} RunKeepsBooks(p: Policy, s: State, run: seq<Action>)
    requires Inv(s) && Books(p, s) && LegalRun(p, s, run)
    ensures Books(p, After(p, s, run))
    decreases |run|
  {
    hide Inv, Books, Next, Enabled;
    if run != [] {
      StepKeeps(p, s, run[0]);
      StepKeepsBooks(p, s, run[0]);
      RunKeepsBooks(p, Next(p, s, run[0]), run[1..]);
    }
  }

  lemma InitialBooks(p: Policy)
    ensures Books(p, INITIAL)
  {
  }

  /** In every reachable state: giving up means exactly the permitted number of consecutive failures since
      the last success, and never more failures are made; reconnect_count is successes after the first (as
      a 64-bit counter); connected implies a published client; a connection is torn down only after its own
      drop or a stop request; and the run loop ends only because it gave up or was told to stop. */
  lemma Bookkeeping(p: Policy, s: State)
    requires Reachable(p, s)
    ensures s.books.failed ==> p.maxAttempts != 0 && Trailing(s.books.log) == p.maxAttempts
    ensures p.maxAttempts != 0 ==> Trailing(s.books.log) <= p.maxAttempts
    ensures s.books.reconnectCount ==
            if Successes(s.books.log) == 0 then 0 else (Successes(s.books.log) - 1) % U64_SPAN
    ensures s.books.connected ==> s.client == Some(Current(s))
    ensures s.pc == Done ==> s.books.failed || s.stopping
    ensures s.pc == Hold(Teardown) ==> s.dropSignaled || s.stopping
  {
    hide LegalRun, After, Next, Inv, Books, Trailing, Successes;
    ReachableInv(p, s);
    var run :| LegalRun(p, INITIAL, run) && After(p, INITIAL, run) == s;
    InitialInv();
    InitialBooks(p);
    RunKeepsBooks(p, INITIAL, run);
    BooksMean(p, s);
  }

  lemma BooksMean(p: Policy, s: State)
    requires Inv(s) && Books(p, s)
    ensures s.books.failed ==> p.maxAttempts != 0 && Trailing(s.books.log) == p.maxAttempts
    ensures p.maxAttempts != 0 ==> Trailing(s.books.log) <= p.maxAttempts
    ensures s.books.reconnectCount ==
            if Successes(s.books.log) == 0 then 0 else (Successes(s.books.log) - 1) % U64_SPAN
    ensures s.books.connected ==> s.client == Some(Current(s))
    ensures s.pc == Done ==> s.books.failed || s.stopping
    ensures s.pc == Hold(Teardown) ==> s.dropSignaled || s.stopping
  {
    hide Trailing, Successes;
  }

  /** What `send` checks under the mutex before it hands a frame to the client. */
  predicate SendAccepts(s: State) {
    s.client.Some? && s.books.connected
  }

  /** In every reachable state `send` is accepted exactly from the success of an attempt until its teardown, and then
      the client it uses has not been destroyed. */
  lemma SendExactly(p: Policy, s: State)
    requires Reachable(p, s)
    ensures SendAccepts(s) <==> IsUp(s.pc)
    ensures SendAccepts(s) ==> s.client.value in s.clients && s.clients[s.client.value].net != Gone
  {
    hide LegalRun, After, Next, Inv, Books, Trailing, Successes;
    ReachableInv(p, s);
    var run :| LegalRun(p, INITIAL, run) && After(p, INITIAL, run) == s;
    InitialInv();
    InitialBooks(p);
    RunKeepsBooks(p, INITIAL, run);
    UpMeans(p, s);
  }

  lemma UpMeans(p: Policy, s: State)
    requires Inv(s) && Books(p, s)
    ensures SendAccepts(s) <==> IsUp(s.pc)
    ensures SendAccepts(s) ==> s.client.value in s.clients && s.clients[s.client.value].net != Gone
  {
    hide Trailing, Successes;
  }
}
