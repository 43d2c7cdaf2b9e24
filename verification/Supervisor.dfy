/** The connection supervisor as a transition system: the supervisor thread, the network thread of every client
    it ever made, a thread that starts and stops it and a thread that sends, around one mutex and one
    condition variable. */
module Supervisor {
  import opened Bytes
  import Pace = Backoff

  /** 0 attempts: never give up. Delays are in milliseconds. */
  datatype Policy = Policy(maxAttempts: u32, initialBackoff: int, maxBackoff: int)

  /** The critical sections of the run loop. */
  datatype Section =
    Top | Reset | Publish | StopCheck | Down | Fail | Backoff | Success | Serve | Teardown | Exit

  /** What a client is being destroyed for. */
  datatype Fate = StopNow | Retry | Torn | Final

  /** Where the supervisor thread is. */
  datatype Pc =
    | NotStarted
    | Want(section: Section)   // about to lock the mutex
    | Hold(section: Section)   // has locked it
    | Make                     // constructs a client
    | Connecting               // in connect()
    | Discard                  // destroys a client that never connected
    | Closing                  // still holds the mutex: closes the client just published if stopping
    | WaitingUp                // in wait_connected()
    | OnReady                  // notifies, then runs the handshake handler
    | Asleep(section: Section) // in the condition variable's wait set
    | Joining(fate: Fate)      // destroys a client, joining its network thread
    | Done

  /** Where a client's network thread is; `Gone` once the client is destroyed. */
  datatype NetPc = Unborn | Running | WantSignal | HoldSignal | NeedNotify | Exited | Gone

  /** `latched`: signal_closed has started; `fired`: on_closed has set the drop signal. */
  datatype Client = Client(net: NetPc, latched: bool, fired: bool, closeRequested: bool)

  datatype AppPc = Idle | WantStart | HoldStart | WantStop | HoldStop | HoldClose | JoinRun

  datatype SenderPc = SendIdle | WantSend | HoldSend

  datatype Owner = Free | BySupervisor | ByNet(gen: nat) | ByApp | BySender

  /** The steady clock, and the backoff wait begun last: when, and for how long. */
  datatype Clock = Clock(now: nat, since: nat, delay: int)

  predicate Expired(c: Clock) {
    c.now >= c.since + c.delay
  }

  /** Status and counters, written by the run loop only, and the time; `log` has the outcome of every connection attempt
      so far and serves to state properties. */
  datatype Record = Record(
    connected: bool, failed: bool, reconnectCount: u64, firstConnect: bool, attempts: u32, log: seq<bool>,
    clock: Clock)

  datatype State = State(
    // shared, guarded by the mutex
    mutex: Owner, started: bool, stopping: bool, dropSignaled: bool, client: Option<nat>, books: Record,
    // the run loop's program counter and locals
    pc: Pc, local: Option<nat>, dead: Option<nat>, up: bool, shouldStop: bool,
    // the other threads
    clients: map<nat, Client>, nextGen: nat, app: AppPc, sender: SenderPc)

  const INITIAL: State := State(
    Free, false, false, false, None, Record(false, false, 0, true, 0, [], Clock(0, 0, 0)),
    NotStarted, None, None, false, false,
    map[], 0, Idle, SendIdle)

  datatype Action =
    | SupervisorStep(choice: bool)   // `choice` decides what connect() and wait_connected() return
    | Wake                           // spurious, or the backoff timer
    | Tick                           // a millisecond passes
    | NetClose(gen: nat)             // the connection closes
    | NetStep(gen: nat)              // the next step of signal_closed
    | NetExit(gen: nat)              // the network thread ends
    | AppCall(stop: bool)
    | AppStep
    | SenderCall
    | SenderStep

  predicate WaitsForMutex(s: State) {
    s.pc.Want? && s.mutex != Free
  }

  predicate WaitsForThread(s: State) {
    s.pc.Joining? && s.dead.Some? && s.dead.value in s.clients && s.clients[s.dead.value].net != Exited
  }

  predicate Enabled(s: State, a: Action) {
    match a
    case SupervisorStep(_) =>
      && !s.pc.NotStarted? && !s.pc.Done? && !s.pc.Asleep?
      && !WaitsForMutex(s) && !WaitsForThread(s)
    case Wake => s.pc.Asleep?
    case Tick => true
    case NetClose(g) => g in s.clients && s.clients[g].net == Running && !s.clients[g].latched
    case NetStep(g) =>
      && g in s.clients
      && (match s.clients[g].net
          case WantSignal => s.mutex == Free
          case HoldSignal => true
          case NeedNotify => true
          case _ => false)
    case NetExit(g) => g in s.clients && s.clients[g].net == Running
    case AppCall(_) => s.app == Idle
    case AppStep =>
      (match s.app
       case Idle => false
       case WantStart => s.mutex == Free
       case WantStop => s.mutex == Free
       case JoinRun => s.pc == Done
       case _ => true)
    case SenderCall => s.sender == SendIdle
    case SenderStep => s.sender == HoldSend || (s.sender == WantSend && s.mutex == Free)
  }

  function Net(s: State, g: nat, net: NetPc): State
    requires g in s.clients
  {
    s.(clients := s.clients[g := s.clients[g].(net := net)])
  }

  /** close() only leaves a request; the network thread acts on it. */
  function Closed(clients: map<nat, Client>, g: Option<nat>): map<nat, Client> {
    if g.Some? && g.value in clients then clients[g.value := clients[g.value].(closeRequested := true)] else clients
  }

  function Release(s: State, pc: Pc): State {
    s.(mutex := Free, pc := pc)
  }

  /** notify_all: whoever waits must take the mutex again. */
  function Notified(s: State): State {
    if s.pc.Asleep? then s.(pc := Want(s.pc.section)) else s
  }

  function Fails(s: State): State {
    s.(books := s.books.(log := s.books.log + [false]))
  }

  function GivesUp(p: Policy, attempts: u32): bool {
    p.maxAttempts != 0 && attempts >= p.maxAttempts
  }

  function Next32(n: u32): u32 {
    (n + 1) % U32_SPAN
  }

  function Next64(n: u64): u64 {
    (n + 1) % U64_SPAN
  }

  /** A connection has come up. */
  function Up(b: Record): Record {
    b.(connected := true,
       reconnectCount := if b.firstConnect then b.reconnectCount else Next64(b.reconnectCount),
       log := b.log + [true])
  }

  /** The wait for the next attempt begins. */
  function Waiting(p: Policy, b: Record): Record {
    b.(clock := Clock(b.clock.now, b.clock.now, Pace.Delay(p.initialBackoff, p.maxBackoff, b.attempts)))
  }

  /** The body of a critical section, up to the release of the mutex. */
  function InSection(p: Policy, s: State, choice: bool): State
    requires s.pc.Hold?
  {
    match s.pc.section
    case Top => Release(s, if s.stopping then Want(Exit) else Make)
    case Reset => Release(s, Connecting).(dropSignaled := false)
    case Publish => s.(client := s.local, local := None, pc := Closing)
    case StopCheck =>
      if s.stopping then Release(s, Joining(StopNow)).(dead := s.client, client := None)
      else Release(s, if s.up then Want(Success) else Want(Down))
    case Down => Release(s, Joining(Retry)).(dead := s.client, client := None)
    case Fail =>
      if s.stopping then Release(s, Want(Exit))
      else
        var n := Next32(s.books.attempts);
        if GivesUp(p, n) then Release(s, Want(Exit)).(books := s.books.(attempts := n, failed := true))
        else Release(s, Asleep(Backoff)).(books := Waiting(p, s.books.(attempts := n)))
    case Backoff => Release(s, if s.stopping || Expired(s.books.clock) then Want(Top) else Asleep(Backoff))
    case Success => Release(s, OnReady).(books := Up(s.books))
    case Serve => Release(s, if s.dropSignaled || s.stopping then Want(Teardown) else Asleep(Serve))
    case Teardown =>
      Release(s, Joining(Torn)).(
        books := s.books.(connected := false), dead := s.client, client := None, shouldStop := s.stopping)
    case Exit => Release(s, Joining(Final)).(books := s.books.(connected := false), dead := s.client, client := None)
  }

  function AfterJoin(s: State, fate: Fate): Pc {
    match fate
    case StopNow => Want(Exit)
    case Retry => Want(Fail)
    case Torn => if s.shouldStop then Want(Exit) else Want(Top)
    case Final => Done
  }

  /** Destroys a client that has no running network thread. */
  function Destroy(s: State, g: Option<nat>): State {
    if g.Some? && g.value in s.clients then Net(s, g.value, Gone) else s
  }

  function SupervisorNext(p: Policy, s: State, choice: bool): State
    requires Enabled(s, SupervisorStep(choice))
  {
    match s.pc
    case Want(section) => s.(mutex := BySupervisor, pc := Hold(section))
    case Hold(_) => InSection(p, s, choice)
    case Make =>
      s.(clients := s.clients[s.nextGen := Client(Unborn, false, false, false)],
         local := Some(s.nextGen), nextGen := s.nextGen + 1, pc := Want(Reset))
    case Connecting =>
      if choice && s.local.Some? && s.local.value in s.clients
      then Net(s, s.local.value, Running).(pc := Want(Publish))
      else Fails(s).(pc := Discard)
    case Discard => Destroy(s, s.local).(local := None, pc := Want(Fail))
    case Closing => Release(s, WaitingUp).(clients := if s.stopping then Closed(s.clients, s.client) else s.clients)
    case WaitingUp => (if choice then s else Fails(s)).(up := choice, pc := Want(StopCheck))
    case OnReady => s.(books := s.books.(firstConnect := false, attempts := 0), pc := Want(Serve))
    case Joining(fate) => Destroy(s, s.dead).(dead := None, pc := AfterJoin(s, fate))
    case _ => s
  }

  function NetNext(s: State, g: nat): State
    requires Enabled(s, NetStep(g))
  {
    match s.clients[g].net
    case WantSignal => Net(s, g, HoldSignal).(mutex := ByNet(g))
    case HoldSignal =>
      s.(clients := s.clients[g := s.clients[g].(net := NeedNotify, fired := true)],
         dropSignaled := true, mutex := Free)
    case _ => Notified(Net(s, g, Running))
  }

  function AppNext(s: State): State
    requires Enabled(s, AppStep)
  {
    match s.app
    case WantStart => s.(mutex := ByApp, app := HoldStart)
    case HoldStart => s.(mutex := Free, app := Idle, started := true, pc := if s.started then s.pc else Want(Top))
    case WantStop => s.(mutex := ByApp, app := HoldStop)
    case HoldStop => if s.started then s.(stopping := true, app := HoldClose) else s.(mutex := Free, app := Idle)
    case HoldClose => Notified(s.(clients := Closed(s.clients, s.client), mutex := Free, app := JoinRun))
    case _ => s.(app := Idle)
  }

  function Next(p: Policy, s: State, a: Action): State
    requires Enabled(s, a)
  {
    match a
    case SupervisorStep(choice) => SupervisorNext(p, s, choice)
    case Wake => Notified(s)
    case Tick => s.(books := s.books.(clock := s.books.clock.(now := s.books.clock.now + 1)))
    case NetClose(g) => s.(clients := s.clients[g := s.clients[g].(net := WantSignal, latched := true)])
    case NetStep(g) => NetNext(s, g)
    case NetExit(g) => Net(s, g, Exited)
    case AppCall(stop) => s.(app := if stop then WantStop else WantStart)
    case AppStep => AppNext(s)
    case SenderCall => s.(sender := WantSend)
    case SenderStep =>
      if s.sender == WantSend then s.(mutex := BySender, sender := HoldSend) else s.(mutex := Free, sender := SendIdle)
  }

  // ---- runs

  predicate LegalRun(p: Policy, s: State, run: seq<Action>)
    decreases |run|
  {
    run != [] ==> Enabled(s, run[0]) && LegalRun(p, Next(p, s, run[0]), run[1..])
  }

  function After(p: Policy, s: State, run: seq<Action>): State
    requires LegalRun(p, s, run)
    decreases |run|
  {
    if run == [] then s else After(p, Next(p, s, run[0]), run[1..])
  }
}
