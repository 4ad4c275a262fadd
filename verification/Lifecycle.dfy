/** The server's threads as one interleaved machine.

The accept thread, any number of threads calling `Server::stop`, and one worker thread per
session take atomic, sequentially consistent steps in any order. Each step is one access to a
shared variable: the atomics, the registry under its mutex, a socket operation, a thread start
or a join. The environment chooses what `accept`, `recv` and `send` return. */
module Lifecycle {
  import opened Wrappers

  // ---------------------------------------------------------------- sessions and workers

  /** What `run()` is answering. Refuse stands for every reply whose send result is ignored
      while the session goes on: UNKNOWN requests and refused GETs. */
  datatype Command = List | Stream | Refuse | Quit

  /** Where a session's worker thread is. `Unstarted`: the session exists, its thread does not. */
  datatype Phase =
    | Unstarted
    | Spawned              // before `is_active_ = true` at the head of run()
    | Check                // about to read is_active_
    | Receive              // inside recv_line
    | Answer(cmd: Command) // inside a handler
    | Leave                // about to store is_active_ = false after the loop
    | Close                // about to close the socket
    | Finished

  /** `open`: fd_ >= 0. `shut`: the descriptor has been shut down by stop(). */
  datatype Session = Session(active: bool, open: bool, shut: bool, phase: Phase, joined: bool)

  datatype WorkerChoice = Go | Line(cmd: Command) | Lost | Sent | Failed | Quiet

  const NEW_SESSION := Session(true, true, false, Unstarted, false)

  /** One step of a worker thread. It reads and writes only its own session. */
  function WorkerStep(x: Session, c: WorkerChoice): Option<Session> {
    match (x.phase, c)
    case (Spawned, Go) => Some(x.(active := true, phase := Check))
    case (Check, Go) => Some(x.(phase := if x.active then Receive else Leave))
    case (Receive, Line(cmd)) => if x.open then Some(x.(phase := Answer(cmd))) else None
    case (Receive, Lost) => Some(x.(phase := Leave))
    case (Answer(cmd), Sent) =>
      if x.open && !x.shut then Some(x.(active := x.active && cmd != Quit, phase := Check)) else None
    case (Answer(cmd), Failed) => Some(x.(active := x.active && cmd == Refuse, phase := Check))
    case (Answer(Stream), Quiet) => if !x.active then Some(x.(phase := Check)) else None
    case (Leave, Go) => Some(x.(active := false, phase := Close))
    case (Close, Go) => Some(x.(open := false, phase := Finished))
    case _ => None
  }

  // ---------------------------------------------------------------- the server

  datatype Listener = Listening | ShutDown | Closed

  /** What the accept loop still does with the session it has built: clean up under the mutex, then
      register under the mutex. `before` is the registry when cleanup began, `seen` the activity
      it has observed so far. */
  datatype Task =
    | WantCleanup
    | Cleanup(i: nat, before: seq<nat>, seen: seq<bool>)
    | Reap(i: nat, before: seq<nat>, seen: seq<bool>)
    | WantRegister
    | Spawn
    | Insert

  datatype AcceptPc =
    | Top                       // about to read is_running_
    | Accepting                 // inside accept()
    | Recheck                   // accept failed; about to read is_running_ again
    | Accepted                  // a connection is held, its session is not built yet
    | Holding(sid: nat, task: Task)
    | Release
    | Exited

  datatype Stage = Cas | Shutdown | CloseFd

  datatype StopPc =
    | Enter
    | ShutListener
    | CloseListener
    | WantLock
    | StopSession(i: nat, stage: Stage)
    | Join(i: nat)
    | Clear
    | Done
    | Refused                   // the compare-exchange failed: stop() returned at once

  datatype Owner = Free | ByAccept | ByStop(t: nat)

  /** `sessions[i]` is the session whose id is i + 1. The last four fields are history: who won
      the compare-exchange in stop(), how many workers were registered after it, whether the
      registry has been cleared, and whether the accept thread held a connection when stop() took
      the mutex. */
  datatype State = State(
    running: bool,
    listener: Listener,
    sessions: seq<Session>,
    registry: seq<nat>,
    owner: Owner,
    accept: AcceptPc,
    stops: seq<StopPc>,
    winner: Option<nat>,
    late: nat,
    cleared: bool,
    heldAtLock: bool)

  datatype AcceptChoice = Proceed | Connection | Error

  datatype Action =
    | Accept(a: AcceptChoice)
    | CallStop
    | Stop(t: nat)
    | Work(w: nat, c: WorkerChoice)

  const INITIAL := State(true, Listening, [], [], Free, Top, [], None, 0, false, false)

  /** Between a successful accept and the insertion of its worker. */
  predicate HoldsConnection(pc: AcceptPc) { pc.Accepted? || pc.Holding? }

  /** The session the accept loop holds: built, not yet in the registry. */
  predicate Holds(pc: AcceptPc, sid: nat) { pc.Holding? && pc.sid == sid }

  predicate HoldsLock(pc: AcceptPc) {
    pc.Release? || (pc.Holding? && !pc.task.WantCleanup? && !pc.task.WantRegister?)
  }

  /** The sequence without its i-th element. */
  function Without<T>(s: seq<T>, i: nat): (r: seq<T>)
    requires i < |s|
    ensures |r| == |s| - 1
    ensures forall k | 0 <= k < |r| :: r[k] == s[if k < i then k else k + 1]
  {
    s[..i] + s[i + 1..]
  }

  /** One step of the accept thread while it holds a session. */
  function HoldingStep(s: State, sid: nat, task: Task): Option<State> {
    match task
    case WantCleanup =>
      if s.owner.Free?
      then Some(s.(owner := ByAccept, accept := Holding(sid, Cleanup(0, s.registry, []))))
      else None
    case Cleanup(i, before, seen) =>
      if i < |s.registry| && s.registry[i] < |s.sessions| then
        if s.sessions[s.registry[i]].active
        then Some(s.(accept := Holding(sid, Cleanup(i + 1, before, seen + [true]))))
        else Some(s.(accept := Holding(sid, Reap(i, before, seen))))
      else Some(s.(owner := Free, accept := Holding(sid, WantRegister)))
    case Reap(i, before, seen) =>
      if i < |s.registry| && s.registry[i] < |s.sessions| && CanJoin(s.sessions[s.registry[i]])
      then Some(s.(sessions := Joined(s.sessions, s.registry[i]),
                   registry := Without(s.registry, i),
                   accept := Holding(sid, Cleanup(i, before, seen + [false]))))
      else None
    case WantRegister =>
      if s.owner.Free? then Some(s.(owner := ByAccept, accept := Holding(sid, Spawn))) else None
    case Spawn =>
      if sid < |s.sessions|
      then Some(s.(sessions := s.sessions[sid := s.sessions[sid].(phase := Spawned)], accept := Holding(sid, Insert)))
      else None
    case Insert =>
      Some(s.(registry := s.registry + [sid], late := s.late + (if s.running then 0 else 1), accept := Release))
  }

  /** One step of the accept thread. */
  function AcceptStep(s: State, a: AcceptChoice): Option<State> {
    match s.accept
    case Top => if a.Proceed? then Some(s.(accept := if s.running then Accepting else Exited)) else None
    case Accepting =>
      if a.Connection? && s.listener.Listening? then Some(s.(accept := Accepted))
      else if a.Error? then Some(s.(accept := Recheck))
      else None
    case Recheck => if a.Proceed? then Some(s.(accept := if s.running then Top else Exited)) else None
    case Accepted =>
      if a.Proceed?
      then Some(s.(sessions := s.sessions + [NEW_SESSION], accept := Holding(|s.sessions|, WantCleanup)))
      else None
    case Holding(sid, task) => if a.Proceed? then HoldingStep(s, sid, task) else None
    case Release => if a.Proceed? then Some(s.(owner := Free, accept := Top)) else None
    case Exited => None
  }

  /** `join` returns at once on a thread that is not joinable, else when the thread has ended. */
  predicate CanJoin(x: Session) { x.joined || x.phase.Finished? }

  function Joined(sessions: seq<Session>, sid: nat): seq<Session>
    requires sid < |sessions|
  {
    sessions[sid := sessions[sid].(joined := true)]
  }

  /** What one access of `ClientSession::stop` does to the session. */
  function Stopped(x: Session, stage: Stage): Session {
    match stage
    case Cas => x.(active := false)
    case Shutdown => x.(shut := true)
    case CloseFd => x.(open := false)
  }

  /** Only the caller whose compare-exchange found the session active goes on to its socket. */
  function AfterStage(i: nat, stage: Stage, wasActive: bool): StopPc {
    match stage
    case Cas => if wasActive then StopSession(i, Shutdown) else StopSession(i + 1, Cas)
    case Shutdown => StopSession(i, CloseFd)
    case CloseFd => StopSession(i + 1, Cas)
  }

  /** One step of thread t inside `Server::stop`. */
  function StopStep(s: State, t: nat): Option<State>
    requires t < |s.stops|
  {
    match s.stops[t]
    case Enter =>
      if s.running
      then Some(s.(running := false, winner := Some(t), stops := s.stops[t := ShutListener]))
      else Some(s.(stops := s.stops[t := Refused]))
    case ShutListener => Some(s.(listener := ShutDown, stops := s.stops[t := CloseListener]))
    case CloseListener => Some(s.(listener := Closed, stops := s.stops[t := WantLock]))
    case WantLock =>
      if s.owner.Free?
      then Some(s.(owner := ByStop(t), heldAtLock := HoldsConnection(s.accept), stops := s.stops[t := StopSession(0, Cas)]))
      else None
    case StopSession(i, stage) =>
      if i < |s.registry| && s.registry[i] < |s.sessions| then
        var sid := s.registry[i];
        var x := s.sessions[sid];
        Some(s.(sessions := s.sessions[sid := Stopped(x, stage)],
                stops := s.stops[t := AfterStage(i, stage, x.active)]))
      else Some(s.(stops := s.stops[t := Join(0)]))
    case Join(i) =>
      if i < |s.registry| && s.registry[i] < |s.sessions| then
        if CanJoin(s.sessions[s.registry[i]])
        then Some(s.(sessions := Joined(s.sessions, s.registry[i]), stops := s.stops[t := Join(i + 1)]))
        else None
      else Some(s.(stops := s.stops[t := Clear]))
    case Clear => Some(s.(registry := [], owner := Free, cleared := true, stops := s.stops[t := Done]))
    case Done => None
    case Refused => None
  }

  /** One atomic step of the whole program; None when the action is not enabled. */
  function Step(s: State, a: Action): Option<State> {
    match a
    case Accept(choice) => AcceptStep(s, choice)
    case CallStop => Some(s.(stops := s.stops + [Enter]))
    case Stop(t) => if t < |s.stops| then StopStep(s, t) else None
    case Work(w, c) =>
      if w < |s.sessions| then
        match WorkerStep(s.sessions[w], c)
        case Some(x) => Some(s.(sessions := s.sessions[w := x]))
        case None => None
      else None
  }

  /** The state after a run, from a given state; None if some action was not enabled. */
  function Run(s: State, actions: seq<Action>): Option<State>
    decreases |actions|
  {
    if actions == [] then Some(s)
    else match Step(s, actions[0])
         case Some(s') => Run(s', actions[1..])
         case None => None
  }

  ghost predicate Reachable(s: State) {
    exists actions :: Run(INITIAL, actions) == Some(s)
  }
}
