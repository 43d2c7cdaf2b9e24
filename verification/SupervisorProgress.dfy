/** The supervisor neither deadlocks nor ignores a stop request. */
module SupervisorProgress {
  import opened Bytes
  import opened Supervisor
  import opened SupervisorInvariants

  /** Serving a live connection with nothing to do. */
  predicate IdleServing(s: State) {
    s.pc == Asleep(Serve) && !s.dropSignaled && !s.stopping
  }

  /** Steps that need no help from outside: no new connection event, no new call. The end of a network
      thread counts once its client is being destroyed; so does time while the supervisor backs off, and then
      the timer. */
  predicate Internal(s: State, a: Action) {
    match a
    case SupervisorStep(_) => true
    case NetStep(_) => true
    case NetExit(g) => s.dead == Some(g)
    case Wake => s.pc == Asleep(Backoff) && Expired(s.books.clock)
    case Tick => s.pc == Asleep(Backoff) && !Expired(s.books.clock)
    case AppStep => s.mutex == ByApp
    case SenderStep => s.mutex == BySender
    case _ => false
  }

  /** A step that can be taken now. */
  function Progress(s: State): Action {
    match s.mutex
    case BySupervisor => SupervisorStep(true)
    case ByNet(g) => NetStep(g)
    case ByApp => AppStep
    case BySender => SenderStep
    case Free =>
      if s.pc == Asleep(Backoff) then if Expired(s.books.clock) then Wake else Tick
      else if s.pc.Asleep? then NetStep(Current(s))
      else if WaitsForThread(s) then
        if s.clients[s.dead.value].net == Running then NetExit(s.dead.value) else NetStep(s.dead.value)
      else SupervisorStep(true)
  }

  /** No reachable state is stuck: until the supervisor is done, or unless it serves an idle connection,
      some thread can take an internal step. In particular joining a network thread cannot block on the
      mutex that thread needs. */
  lemma NoDeadlock(p: Policy, s: State)
    requires Reachable(p, s) && s.pc != NotStarted && s.pc != Done && !IdleServing(s)
    ensures Internal(s, Progress(s)) && Enabled(s, Progress(s))
  {
    hide Reachable, Inv, Progress, Internal, Enabled;
    ReachableInv(p, s);
    SomeStep(s);
  }

  lemma SomeStep(s: State)
    requires Inv(s) && s.pc != NotStarted && s.pc != Done && !IdleServing(s)
    ensures Internal(s, Progress(s)) && Enabled(s, Progress(s))
  {
    if s.pc.Joining? && s.dead.Some? {
      assert s.dead.value == Current(s);
    }
  }

  // ---- termination after a stop request

  /** Steps of the supervisor thread and of network threads. */
  predicate Inner(a: Action) {
    a.SupervisorStep? || a.Wake? || a.NetClose? || a.NetStep? || a.NetExit?
  }

  function Count(run: seq<Action>): nat {
    if run == [] then 0 else (if Inner(run[0]) then 1 else 0) + Count(run[1..])
  }

  lemma {:induction false} StoppingBounded(p: Policy, s: State, run: seq<Action>)
    requires Inv(s) && s.stopping && LegalRun(p, s, run)
    ensures var t := After(p, s, run);
            Inv(t) && t.stopping && Count(run) + Rank(t) <= Rank(s)
    decreases |run|
  {
    hide Inv, Next, Enabled, Rank;
    if run != [] {
      StepKeeps(p, s, run[0]);
      StoppingBounded(p, Next(p, s, run[0]), run[1..]);
    }
  }

  /** Once stopping is set, the supervisor and the network threads have at most `Rank` steps left in any
      run, whatever the callers of start, stop and send do; and when no internal step is left, the run
      loop has exited, with every client destroyed. */
  lemma StopEndsRun(p: Policy, s: State, run: seq<Action>)
    requires Reachable(p, s) && s.stopping && LegalRun(p, s, run)
    ensures Count(run) <= Rank(s)
    ensures var t := After(p, s, run);
            (forall a :: Internal(t, a) ==> !Enabled(t, a)) ==>
              t.pc == Done && forall g :: g in t.clients ==> t.clients[g].net == Gone
  {
    hide Reachable, LegalRun, After, Rank, Next;
    ReachableInv(p, s);
    StoppingBounded(p, s, run);
    var t := After(p, s, run);
    if t.pc != Done {
      StartedOnceStopping(t);
      SomeStep(t);
    }
  }

  lemma StartedOnceStopping(s: State)
    requires Inv(s) && s.stopping
    ensures s.pc != NotStarted
  {
  }
}
