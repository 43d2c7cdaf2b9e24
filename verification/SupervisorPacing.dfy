/** How failed attempts and dropped connections are spaced over whole runs. */
module SupervisorPacing {
  import opened Bytes
  import opened Supervisor
  import opened SupervisorInvariants
  import opened SupervisorBooks
  import Pace = Backoff

  /** The states a run goes through, the first one included. */
  ghost function States(p: Policy, s: State, run: seq<Action>): (ss: seq<State>)
    requires LegalRun(p, s, run)
    ensures |ss| == |run| + 1 && ss[0] == s
    decreases |run|
  {
    [s] + if run == [] then [] else States(p, Next(p, s, run[0]), run[1..])
  }

  /** Each state but the first is the next one after its predecessor. */
  ghost predicate Connected(p: Policy, ss: seq<State>, run: seq<Action>) {
    |ss| == |run| + 1 && forall i :: 0 <= i < |run| ==> Steps(p, ss[i], run[i], ss[i + 1])
  }

  ghost predicate Steps(p: Policy, s: State, a: Action, t: State) {
    Enabled(s, a) && t == Next(p, s, a)
  }

  lemma {:induction false} StatesConnected(p: Policy, s: State, run: seq<Action>)
    requires LegalRun(p, s, run)
    ensures Connected(p, States(p, s, run), run)
    decreases |run|
  {
    hide Enabled, Next;
    if run != [] {
      var t := Next(p, s, run[0]);
      StatesConnected(p, t, run[1..]);
      var ss, tail := States(p, s, run), States(p, t, run[1..]);
      forall i | 0 <= i < |run|
        ensures Steps(p, ss[i], run[i], ss[i + 1])
      {
        if i > 0 {
          assert ss[i] == tail[i - 1] && ss[i + 1] == tail[i] && run[i] == run[1..][i - 1];
          assert Steps(p, tail[i - 1], run[1..][i - 1], tail[i]);
        }
      }
    }
  }

  lemma {:induction false} KeepsAll(p: Policy, ss: seq<State>, run: seq<Action>, i: nat)
    requires Connected(p, ss, run) && i < |ss| && Inv(ss[0]) && Books(p, ss[0])
    ensures Inv(ss[i]) && Books(p, ss[i])
    decreases i
  {
    hide Inv, Books, Enabled, Next;
    if i > 0 {
      KeepsAll(p, ss, run, i - 1);
      assert Steps(p, ss[i - 1], run[i - 1], ss[i]);
      StepKeeps(p, ss[i - 1], run[i - 1]);
      StepKeepsBooks(p, ss[i - 1], run[i - 1]);
    }
  }

  // ---- one step

  /** Between the end of a wait, or of a connection, and the next client. */
  predicate Ready(pc: Pc) {
    pc == Want(Top) || pc == Hold(Top) || pc == Make
  }

  function Wait(s: State): (nat, int) {
    (s.books.clock.since, s.books.clock.delay)
  }

  /** A failed attempt begins its wait. */
  ghost predicate BeginsWait(p: Policy, s: State, a: Action, t: State) {
    && s.pc == Hold(Fail) && a.SupervisorStep? && t.pc == Asleep(Backoff)
    && t.books.log == s.books.log
    && Wait(t) == (s.books.clock.now, Pace.Delay(p.initialBackoff, p.maxBackoff, t.books.attempts))
  }

  /** The backoff timer fires: the wait has lasted its delay and nobody asked to stop. */
  ghost predicate TimerFires(s: State, a: Action, t: State) {
    && s.pc == Hold(Backoff) && a.SupervisorStep? && t.pc == Want(Top) && !s.stopping
    && s.books.clock.now >= s.books.clock.since + s.books.clock.delay
    && t.books.log == s.books.log
  }

  /** A wait is entered only by a failure, and kept as it was begun. */
  ghost predicate IntoBackoff(p: Policy, s: State, a: Action, t: State) {
    BacksOff(t.pc) ==>
      || BeginsWait(p, s, a, t)
      || (BacksOff(s.pc) && Wait(t) == Wait(s) && t.books.log == s.books.log && t.books.attempts == s.books.attempts)
  }

  /** The way to a new client starts at a timer that fires, at a connection torn down, or at the first start. */
  ghost predicate IntoReady(s: State, a: Action, t: State) {
    Ready(t.pc) ==>
      && t.books.log == s.books.log && (s.stopping ==> t.stopping)
      && (|| (Ready(s.pc) && (t.pc == Make ==> s.pc == Make || (s.pc == Hold(Top) && !s.stopping))
              && (s.pc == Make ==> t.pc == Make))
          || TimerFires(s, a, t)
          || (s.pc == Hold(Backoff) && t.pc == Want(Top) && t.stopping)
          || s.pc == Joining(Torn) || s.pc == NotStarted)
  }

  ghost predicate Paces(p: Policy, s: State, a: Action, t: State) {
    IntoBackoff(p, s, a, t) && IntoReady(s, a, t) && t.books.clock.now >= s.books.clock.now
  }

  lemma FailPaces(p: Policy, s: State, choice: bool)
    requires Enabled(s, SupervisorStep(choice)) && s.pc == Hold(Fail)
    ensures Paces(p, s, SupervisorStep(choice), SupervisorNext(p, s, choice))
  {
    hide Pace.Delay;
  }

  lemma BackoffPaces(p: Policy, s: State, choice: bool)
    requires Enabled(s, SupervisorStep(choice)) && (s.pc == Hold(Backoff) || s.pc == Hold(Top))
    ensures Paces(p, s, SupervisorStep(choice), SupervisorNext(p, s, choice))
  {
    hide Pace.Delay;
  }

  /** Leads neither into a wait nor to a new client. */
  ghost predicate Aside(s: State, t: State) {
    !BacksOff(t.pc) && !Ready(t.pc) && t.books.clock == s.books.clock
  }

  lemma EarlySections(p: Policy, s: State, choice: bool)
    requires s.pc.Hold? && s.pc.section in {Reset, Publish, StopCheck, Down}
    ensures Aside(s, InSection(p, s, choice))
  {
    hide Up, Waiting;
  }

  lemma LateSections(p: Policy, s: State, choice: bool)
    requires s.pc.Hold? && s.pc.section in {Success, Serve, Teardown, Exit}
    ensures Aside(s, InSection(p, s, choice))
  {
    hide Waiting;
  }

  lemma EarlyMoves(p: Policy, s: State, choice: bool)
    requires Enabled(s, SupervisorStep(choice)) && (s.pc == Make || s.pc == Connecting || s.pc == Discard)
    ensures Aside(s, SupervisorNext(p, s, choice))
  {
    hide InSection;
  }

  lemma LateMoves(p: Policy, s: State, choice: bool)
    requires Enabled(s, SupervisorStep(choice)) && (s.pc == Closing || s.pc == WaitingUp || s.pc == OnReady)
    ensures Aside(s, SupervisorNext(p, s, choice))
  {
    hide InSection;
  }

  lemma AsidePaces(p: Policy, s: State, a: Action, t: State)
    requires Aside(s, t)
    ensures Paces(p, s, a, t)
  {
  }

  lemma WantPaces(p: Policy, s: State, choice: bool)
    requires Enabled(s, SupervisorStep(choice)) && s.pc.Want?
    ensures Paces(p, s, SupervisorStep(choice), SupervisorNext(p, s, choice))
  {
  }

  lemma JoinPaces(p: Policy, s: State, choice: bool)
    requires Enabled(s, SupervisorStep(choice)) && s.pc.Joining?
    ensures Paces(p, s, SupervisorStep(choice), SupervisorNext(p, s, choice))
  {
    hide InSection;
  }

  lemma RestPaces(p: Policy, s: State, choice: bool)
    requires Enabled(s, SupervisorStep(choice)) && !s.pc.Want? && !s.pc.Joining?
    requires s.pc != Hold(Fail) && s.pc != Hold(Backoff) && s.pc != Hold(Top)
    ensures Paces(p, s, SupervisorStep(choice), SupervisorNext(p, s, choice))
  {
    hide InSection, Aside, Paces;
    if s.pc.Hold? {
      match s.pc.section {
        case Reset => EarlySections(p, s, choice);
        case Publish => EarlySections(p, s, choice);
        case StopCheck => EarlySections(p, s, choice);
        case Down => EarlySections(p, s, choice);
        case _ => LateSections(p, s, choice);
      }
    } else if s.pc == Make || s.pc == Connecting || s.pc == Discard {
      EarlyMoves(p, s, choice);
    } else {
      LateMoves(p, s, choice);
    }
    AsidePaces(p, s, SupervisorStep(choice), SupervisorNext(p, s, choice));
  }

  lemma OthersPace(p: Policy, s: State, a: Action, t: State)
    requires SameBooks(s, t) && (s.pc.Asleep? ==> s.pc.section == Serve || s.pc.section == Backoff)
    ensures Paces(p, s, a, t)
  {
  }

  lemma StepPaces(p: Policy, s: State, a: Action, t: State)
    requires Inv(s) && Steps(p, s, a, t)
    ensures Paces(p, s, a, t)
  {
    hide Paces, SameBooks, SupervisorNext, NetNext, AppNext;
    if !a.SupervisorStep? {
      OtherThreads(p, s, a);
      OthersPace(p, s, a, t);
    } else if s.pc == Hold(Fail) {
      FailPaces(p, s, a.choice);
    } else if s.pc == Hold(Backoff) || s.pc == Hold(Top) {
      BackoffPaces(p, s, a.choice);
    } else if s.pc.Want? {
      WantPaces(p, s, a.choice);
    } else if s.pc.Joining? {
      JoinPaces(p, s, a.choice);
    } else {
      RestPaces(p, s, a.choice);
    }
  }

  // ---- whole runs

  ghost predicate BeginsAt(p: Policy, ss: seq<State>, run: seq<Action>, f: nat) {
    f < |run| && |ss| == |run| + 1 && BeginsWait(p, ss[f], run[f], ss[f + 1])
  }

  ghost predicate FiresAt(ss: seq<State>, run: seq<Action>, i: nat) {
    i < |run| && |ss| == |run| + 1 && TimerFires(ss[i], run[i], ss[i + 1])
  }

  /** While backing off, the wait is the one begun by the last failure, for the delay due after it. */
  lemma {:induction false} WaitFollowsFailure(p: Policy, ss: seq<State>, run: seq<Action>, j: nat) returns (f: nat)
    requires Connected(p, ss, run) && j < |ss| && Inv(ss[0]) && Books(p, ss[0]) && ss[0].pc == NotStarted
    requires BacksOff(ss[j].pc)
    ensures f < j && BeginsAt(p, ss, run, f) && ss[f].books.log == ss[j].books.log
    ensures Wait(ss[j]) ==
            (ss[f].books.clock.now, Pace.Delay(p.initialBackoff, p.maxBackoff, ss[j].books.attempts))
    decreases j
  {
    hide Steps, BeginsWait, Wait, Inv, Books, IntoReady;
    assert Steps(p, ss[j - 1], run[j - 1], ss[j]);
    KeepsAll(p, ss, run, j - 1);
    StepPaces(p, ss[j - 1], run[j - 1], ss[j]);
    if BeginsWait(p, ss[j - 1], run[j - 1], ss[j]) {
      f := j - 1;
      WaitBegun(p, ss[f], run[f], ss[j]);
    } else {
      f := WaitFollowsFailure(p, ss, run, j - 1);
    }
  }

  lemma WaitBegun(p: Policy, s: State, a: Action, t: State)
    requires BeginsWait(p, s, a, t)
    ensures t.books.log == s.books.log
    ensures Wait(t) == (s.books.clock.now, Pace.Delay(p.initialBackoff, p.maxBackoff, t.books.attempts))
  {
  }

  /** The log ends in a failure. */
  predicate JustFailed(log: seq<bool>) {
    log != [] && !log[|log| - 1]
  }

  lemma TrailingIff(log: seq<bool>)
    ensures JustFailed(log) <==> Trailing(log) >= 1
  {
  }

  lemma {:induction false} ReadyFollowsTimer(p: Policy, ss: seq<State>, run: seq<Action>, j: nat) returns (i: nat)
    requires Connected(p, ss, run) && j < |ss| && Inv(ss[0]) && Books(p, ss[0]) && ss[0].pc == NotStarted
    requires Ready(ss[j].pc) && JustFailed(ss[j].books.log) && (ss[j].pc == Make || !ss[j].stopping)
    ensures i < j && FiresAt(ss, run, i) && ss[i].books.log == ss[j].books.log
    decreases j
  {
    hide Steps, TimerFires, Inv, Books, IntoBackoff;
    assert Steps(p, ss[j - 1], run[j - 1], ss[j]);
    KeepsAll(p, ss, run, j - 1);
    StepPaces(p, ss[j - 1], run[j - 1], ss[j]);
    FreshLog(p, ss[j - 1]);
    if TimerFires(ss[j - 1], run[j - 1], ss[j]) {
      i := j - 1;
    } else {
      i := ReadyFollowsTimer(p, ss, run, j - 1);
    }
  }

  lemma FreshLog(p: Policy, s: State)
    requires Books(p, s)
    ensures s.pc == Joining(Torn) || s.pc == NotStarted ==> !JustFailed(s.books.log)
    ensures BacksOff(s.pc) ==> JustFailed(s.books.log) && s.books.attempts == Trailing(s.books.log) % U32_SPAN
  {
    TrailingIff(s.books.log);
    hide Trailing, Successes;
  }

  lemma {:induction false} TimePassesOver(p: Policy, ss: seq<State>, run: seq<Action>, i: nat, j: nat)
    requires Connected(p, ss, run) && i <= j < |ss| && Inv(ss[0]) && Books(p, ss[0])
    ensures ss[j].books.clock.now >= ss[i].books.clock.now
    decreases j
  {
    hide Steps, Inv, Books, IntoBackoff, IntoReady;
    if i < j {
      TimePassesOver(p, ss, run, i, j - 1);
      assert Steps(p, ss[j - 1], run[j - 1], ss[j]);
      KeepsAll(p, ss, run, j - 1);
      StepPaces(p, ss[j - 1], run[j - 1], ss[j]);
    }
  }

  /** In every run, a new client after a failed attempt is made only after the backoff timer has fired for the delay due
      after that many consecutive failures, counted in 32 bits: the wait began with the failure, the timer fired later,
      and at least that delay has passed. */
  lemma WaitsAfterFailure(p: Policy, run: seq<Action>, j: nat) returns (f: nat, i: nat)
    requires LegalRun(p, INITIAL, run) && j < |run|
    requires var s := States(p, INITIAL, run)[j]; s.pc == Make && JustFailed(s.books.log)
    ensures f < i < j
    ensures var ss := States(p, INITIAL, run);
            var delay := Pace.Delay(p.initialBackoff, p.maxBackoff, Trailing(ss[j].books.log) % U32_SPAN);
            && BeginsAt(p, ss, run, f) && FiresAt(ss, run, i)
            && ss[f].books.log == ss[i].books.log == ss[j].books.log
            && Wait(ss[i]) == (ss[f].books.clock.now, delay)
            && ss[j].books.clock.now >= ss[f].books.clock.now + delay
  {
    hide LegalRun, States, Connected, BeginsAt, Inv, Books, JustFailed;
    var ss := States(p, INITIAL, run);
    StatesConnected(p, INITIAL, run);
    InitialInv();
    InitialBooks(p);
    i := ReadyFollowsTimer(p, ss, run, j);
    f := WaitFollowsFailure(p, ss, run, i);
    KeepsAll(p, ss, run, i);
    FreshLog(p, ss[i]);
    TimePassesOver(p, ss, run, i, j);
  }

  /** In every run, between the end of a connection (or the start) and the next client nothing backs off. */
  lemma NoWaitAfterDrop(p: Policy, run: seq<Action>, j: nat, i: nat)
    requires LegalRun(p, INITIAL, run) && i <= j < |run|
    requires var ss := States(p, INITIAL, run);
             ss[j].pc == Make && !JustFailed(ss[j].books.log) && ss[i].books.log == ss[j].books.log
    ensures !BacksOff(States(p, INITIAL, run)[i].pc)
  {
    hide LegalRun, States, Connected, Inv, Books;
    var ss := States(p, INITIAL, run);
    StatesConnected(p, INITIAL, run);
    InitialInv();
    InitialBooks(p);
    KeepsAll(p, ss, run, i);
    FreshLog(p, ss[i]);
  }
}
