/** Sessions share a registry, a mutex, an accept thread and any number of stops; this is what one of
them sees of all that. */
module Projection {
  import opened Wrappers
  import opened Lifecycle
  import opened LifecycleInvariant
  import opened LifecycleTheorems

  /** What can happen to a session: a step of its own worker, an access of the stop() that won, the
      start of its thread, its join. */
  datatype Event = Own(choice: WorkerChoice) | StopAccess(stage: Stage) | Started | JoinedOnce

  function Apply(x: Session, e: Event): Option<Session> {
    match e
    case Own(choice) => WorkerStep(x, choice)
    case StopAccess(stage) => if x.joined then None else Some(Stopped(x, stage))
    case Started => if x.phase.Unstarted? then Some(x.(phase := Spawned)) else None
    case JoinedOnce => if x.phase.Finished? && !x.joined then Some(x.(joined := true)) else None
  }

  /** What a step of the machine is to the session, if anything. */
  function EventOf(s: State, a: Action, sid: nat): Option<Event> {
    if JoinTarget(s, a) == Some(sid) then Some(JoinedOnce)
    else
      match a
      case Work(w, choice) => if w == sid then Some(Own(choice)) else None
      case Stop(t) =>
        if t < |s.stops| && s.stops[t].StopSession? && s.stops[t].i < |s.registry| && s.registry[s.stops[t].i] == sid
        then Some(StopAccess(s.stops[t].stage))
        else None
      case Accept(_) => if Holds(s.accept, sid) && s.accept.task.Spawn? then Some(Started) else None
      case CallStop => None
  }

  lemma AcceptProjects(s: State, c: AcceptChoice, s': State, sid: nat)
    requires Inv(s) && AcceptStep(s, c) == Some(s') && sid < |s.sessions|
    ensures sid < |s'.sessions|
    ensures match EventOf(s, Accept(c), sid)
      case None => s'.sessions[sid] == s.sessions[sid]
      case Some(e) => Apply(s.sessions[sid], e) == Some(s'.sessions[sid])
  {
    JoinedExactlyOnceIn(s, Accept(c), s', sid);
    AcceptTouches(s, c, s', sid);
    if s.accept.Holding? && s.accept.task.Spawn? && Holds(s.accept, sid) {
      SpawnStarts(s, s', sid);
    } else {
      hide AcceptStep, HoldingStep;
      assert s'.sessions[sid] == s.sessions[sid] || JoinTarget(s, Accept(c)) == Some(sid);
    }
  }

  lemma SpawnStarts(s: State, s': State, sid: nat)
    requires Inv(s) && Holds(s.accept, sid) && s.accept.task.Spawn? && sid < |s.sessions|
    requires HoldingStep(s, s.accept.sid, s.accept.task) == Some(s')
    ensures s.sessions[sid].phase.Unstarted? && sid < |s'.sessions|
    ensures s'.sessions[sid] == s.sessions[sid].(phase := Spawned)
  {
  }

  lemma JoinedExactlyOnceIn(s: State, a: Action, s': State, sid: nat)
    requires Inv(s) && Step(s, a) == Some(s') && sid < |s.sessions|
    ensures JoinTarget(s, a) == Some(sid) ==>
      !s.sessions[sid].joined && s.sessions[sid].phase.Finished?
  {
    match a
    case Accept(c) =>
      if JoinTarget(s, a) == Some(sid) {
        assert !JoinedByStop(s, s.accept.task.i);
        AcceptTouches(s, c, s', sid);
      }
    case Stop(t) =>
      if JoinTarget(s, a) == Some(sid) {
        assert !JoinedByStop(s, s.stops[t].i);
        StopTouches(s, t, s', sid);
      }
    case _ =>
  }

  lemma StopProjects(s: State, t: nat, s': State, sid: nat)
    requires Inv(s) && t < |s.stops| && StopStep(s, t) == Some(s') && sid < |s.sessions|
    ensures sid < |s'.sessions|
    ensures match EventOf(s, Stop(t), sid)
      case None => s'.sessions[sid] == s.sessions[sid]
      case Some(e) => Apply(s.sessions[sid], e) == Some(s'.sessions[sid])
  {
    match s.stops[t]
    case StopSession(i, stage) =>
      StopExcludesCleanup(s, t);
      if i < |s.registry| && s.registry[i] == sid { assert !JoinedByStop(s, i); }
    case Join(i) => JoinedExactlyOnceIn(s, Stop(t), s', sid);
    case _ =>
  }

  /** A step of any thread changes a session by the session's own event or not at all. */
  lemma StepProjects(s: State, a: Action, s': State, sid: nat)
    requires Inv(s) && Step(s, a) == Some(s') && sid < |s.sessions|
    ensures sid < |s'.sessions|
    ensures match EventOf(s, a, sid)
      case None => s'.sessions[sid] == s.sessions[sid]
      case Some(e) => Apply(s.sessions[sid], e) == Some(s'.sessions[sid])
  {
    hide Inv, AcceptStep, StopStep, Apply;
    match a
    case Accept(c) => AcceptProjects(s, c, s', sid);
    case Stop(t) => StopProjects(s, t, s', sid);
    case Work(w, c) => WorkProjects(s, w, c, s', sid);
    case CallStop =>
  }

  lemma WorkProjects(s: State, w: nat, c: WorkerChoice, s': State, sid: nat)
    requires Step(s, Work(w, c)) == Some(s') && sid < |s.sessions|
    ensures sid < |s'.sessions|
    ensures if w == sid then Apply(s.sessions[sid], Own(c)) == Some(s'.sessions[sid]) else s'.sessions[sid] == s.sessions[sid]
  {
  }

  /** The session with this id, or what it will be when it is built. */
  function At(s: State, sid: nat): Session { if sid < |s.sessions| then s.sessions[sid] else NEW_SESSION }

  /** A session's own part of a run. */
  function Events(s: State, actions: seq<Action>, sid: nat): seq<Event>
    requires Run(s, actions).Some?
    decreases |actions|
  {
    if actions == [] then []
    else
      var rest := Events(Step(s, actions[0]).value, actions[1..], sid);
      if sid < |s.sessions| && EventOf(s, actions[0], sid).Some?
      then [EventOf(s, actions[0], sid).value] + rest
      else rest
  }

  function Replay(x: Session, events: seq<Event>): Option<Session>
    decreases |events|
  {
    if events == [] then Some(x)
    else match Apply(x, events[0])
         case None => None
         case Some(x') => Replay(x', events[1..])
  }

  lemma Built(s: State, a: Action, s': State, sid: nat)
    requires Step(s, a) == Some(s') && sid >= |s.sessions|
    ensures At(s', sid) == NEW_SESSION
  {
    hide HoldingStep, StopStep, WorkerStep;
    match a
    case Accept(_) => if s.accept.Holding? { HoldingBuildsNone(s, s'); }
    case Stop(t) => StopBuildsNone(s, t, s');
    case _ =>
  }

  lemma HoldingBuildsNone(s: State, s': State)
    requires s.accept.Holding? && HoldingStep(s, s.accept.sid, s.accept.task) == Some(s')
    ensures |s'.sessions| == |s.sessions|
  {
  }

  lemma StopBuildsNone(s: State, t: nat, s': State)
    requires t < |s.stops| && StopStep(s, t) == Some(s')
    ensures |s'.sessions| == |s.sessions|
  {
  }

  /** Non-interference: whatever all other sessions, the accept thread and every caller of stop() do in
      between, a session goes through its own events alone: its worker's steps, the accesses of the
      winning stop(), its start and its one join. Runs in which these are the same leave it the same. */
  lemma {:induction false} RunProjects(s: State, actions: seq<Action>, s': State, sid: nat)
    requires Inv(s) && Run(s, actions) == Some(s')
    ensures Replay(At(s, sid), Events(s, actions, sid)) == Some(At(s', sid))
    decreases |actions|
  {
    hide Inv, Step, EventOf, Apply;
    if actions != [] {
      var next := Step(s, actions[0]).value;
      StepKeeps(s, actions[0], next);
      RunProjects(next, actions[1..], s', sid);
      if sid < |s.sessions| {
        StepProjects(s, actions[0], next, sid);
        if EventOf(s, actions[0], sid).Some? {
          var e := EventOf(s, actions[0], sid).value;
          assert ([e] + Events(next, actions[1..], sid))[1..] == Events(next, actions[1..], sid);
        }
      } else {
        Built(s, actions[0], next, sid);
      }
    }
  }

  lemma WorkIsBeforeJoin(s: State, w: nat, c: WorkerChoice)
    requires Inv(s) && w < |s.sessions| && WorkerStep(s.sessions[w], c).Some?
    ensures !s.sessions[w].joined
  {
  }

  /** The accesses come from the one stop() that won, while the session is registered and not joined;
      and nothing happens to a session any more once it has been joined. */
  lemma EventsAreLegitimate(s: State, a: Action, s': State, sid: nat, e: Event)
    requires Inv(s) && Step(s, a) == Some(s') && sid < |s.sessions| && EventOf(s, a, sid) == Some(e)
    ensures !s.sessions[sid].joined
    ensures e.StopAccess? ==> a.Stop? && s.winner == Some(a.t) && sid in s.registry
    ensures e.Started? ==> Holds(s.accept, sid)
    ensures e.JoinedOnce? ==> sid in s.registry && ((a.Stop? && s.winner == Some(a.t)) || (a.Accept? && Reaping(s)))
  {
    StepProjects(s, a, s', sid);
    match a
    case Stop(t) => StopExcludesCleanup(s, t);
    case Accept(_) =>
    case Work(w, c) => WorkIsBeforeJoin(s, w, c);
    case CallStop =>
  }

  /** Steps of two different workers commute: neither enables, disables or changes the other. */
  lemma WorkersCommute(s: State, v: nat, c: WorkerChoice, w: nat, d: WorkerChoice)
    requires v != w && Step(s, Work(v, c)).Some? && Step(s, Work(w, d)).Some?
    ensures Run(s, [Work(v, c), Work(w, d)]).Some?
    ensures Run(s, [Work(v, c), Work(w, d)]) == Run(s, [Work(w, d), Work(v, c)])
  {
    var x, y := WorkerStep(s.sessions[v], c).value, WorkerStep(s.sessions[w], d).value;
    TwoSteps(s, Work(v, c), Work(w, d));
    TwoSteps(s, Work(w, d), Work(v, c));
    assert s.sessions[v := x][w := y] == s.sessions[w := y][v := x];
  }

  lemma TwoSteps(s: State, a: Action, b: Action)
    requires Step(s, a).Some?
    ensures Run(s, [a, b]) == Step(Step(s, a).value, b)
  {
    hide Step;
    var next := Step(s, a).value;
    assert [a, b][1..] == [b] && [b][1..] == [];
    assert Run(s, [a, b]) == Run(next, [b]);
    if Step(next, b).Some? { assert Run(Step(next, b).value, []) == Step(next, b); }
  }
}
