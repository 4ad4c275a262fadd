/** Once stop() has won, the whole server of module Fleet shuts down: whatever the connections hold, the
steps stop() has to wait for are bounded, and one of them can always be taken. */
module FleetShutdown {
  import opened Wrappers
  import opened Sessions
  import opened Fleet
  import L = Lifecycle
  import I = LifecycleInvariant
  import T = LifecycleTheorems

  /** The steps of the threads underneath a run. */
  function Threads(lib: Library, f: State, actions: seq<Action>): seq<L.Action>
    requires Fleet.Run(lib, f, actions).Some?
    decreases |actions|
  {
    if actions == [] then []
    else
      var rest := Threads(lib, Step(lib, f, actions[0]).value, actions[1..]);
      match Underneath(lib, f, actions[0])
      case None => rest
      case Some(a) => [a] + rest
  }

  /** The action is, to the threads, a step that stop() may have to wait for. */
  ghost predicate Counted(lib: Library, f: State, action: Action) {
    Underneath(lib, f, action).Some? && T.Counts(f.server, Underneath(lib, f, action).value)
  }

  ghost function CountedSteps(lib: Library, f: State, actions: seq<Action>): nat
    requires Fleet.Run(lib, f, actions).Some?
    decreases |actions|
  {
    if actions == [] then 0
    else (if Counted(lib, f, actions[0]) then 1 else 0) + CountedSteps(lib, Step(lib, f, actions[0]).value, actions[1..])
  }

  /** A run of the whole server is a run of its threads, with the same steps counted. */
  lemma {:induction false} RunUnderneath(lib: Library, f: State, actions: seq<Action>, f': State)
    requires Fleet.Run(lib, f, actions) == Some(f')
    ensures L.Run(f.server, Threads(lib, f, actions)) == Some(f'.server)
    ensures CountedSteps(lib, f, actions) == T.CountedSteps(f.server, Threads(lib, f, actions))
    decreases |actions|
  {
    hide Step, L.Step, Underneath, T.Counts;
    if actions != [] {
      var next := Step(lib, f, actions[0]).value;
      StepUnderneath(lib, f, actions[0], next);
      RunUnderneath(lib, next, actions[1..], f');
      var rest := Threads(lib, next, actions[1..]);
      if Underneath(lib, f, actions[0]).Some? {
        assert ([Underneath(lib, f, actions[0]).value] + rest)[1..] == rest;
      }
    }
  }

  lemma {:induction false} RunKeepsSound(lib: Library, f: State, actions: seq<Action>, f': State)
    requires Sound(f) && Fleet.Run(lib, f, actions) == Some(f')
    ensures Sound(f')
    decreases |actions|
  {
    hide Step, Sound;
    if actions != [] {
      var next := Step(lib, f, actions[0]).value;
      StepKeepsSound(lib, f, actions[0], next);
      RunKeepsSound(lib, next, actions[1..], f');
    }
  }

  /** A worker that no longer depends on the network can take its own next step whatever its connection
      holds: no send of its is left to succeed. */
  lemma DoomedCanGoOn(lib: Library, f: State, w: nat, choice: L.WorkerChoice)
    requires Sound(f) && w < |f.server.sessions| && I.Doomed(f.server.sessions[w])
    requires L.WorkerStep(f.server.sessions[w], choice).Some?
    ensures var action := Worker(w, Other(T.OwnStep(f.server.sessions[w])));
      Counted(lib, f, action) && Step(lib, f, action).Some?
  {
    hide I.Inv;
  }

  /** What a thread that stop() waits for can do next, the whole server lets it do. */
  lemma CountedIsEnabled(lib: Library, f: State, a: L.Action) returns (action: Action)
    requires Sound(f) && T.Counts(f.server, a) && L.Step(f.server, a).Some?
    ensures Counted(lib, f, action) && Step(lib, f, action).Some?
  {
    hide I.Inv, L.AcceptStep, L.StopStep, L.WorkerStep, WorkStep, I.Doomed;
    if a.Work? {
      action := Worker(a.w, Other(T.OwnStep(f.server.sessions[a.w])));
      DoomedCanGoOn(lib, f, a.w, a.c);
    } else {
      action := if Builds(f.server, a) then Admit([], 0) else Server(a);
    }
  }

  /** In every run of the whole server after a stop() has won, boundedly many steps are counted, and one of
      them is enabled until that stop() has returned; then every worker has been joined but for at most one
      whose connection the accept loop held. */
  lemma StopReturns(lib: Library, before: seq<Action>, f: State, actions: seq<Action>, f': State)
    requires Fleet.Run(lib, IDLE, before) == Some(f) && !f.server.running && Fleet.Run(lib, f, actions) == Some(f')
    ensures I.OneWinner(f.server) && f.server.winner.Some? && I.OneWinner(f'.server) && f'.server.winner == f.server.winner
    ensures CountedSteps(lib, f, actions) <= T.Measure(f.server)
    ensures T.WinnerPc(f'.server).Done? || exists action :: Counted(lib, f', action) && Step(lib, f', action).Some?
    ensures CountedSteps(lib, f, actions) == T.Measure(f.server) ==> T.WinnerPc(f'.server).Done?
    ensures T.WinnerPc(f'.server).Done? ==> forall sid | 0 <= sid < |f'.server.sessions| ::
      f'.server.sessions[sid].joined
      || (f'.server.heldAtLock && (L.Holds(f'.server.accept, sid) || f'.server.registry == [sid]))
  {
    hide Step, L.Step, I.Inv, T.Counts, Underneath, T.Measure, CountedSteps, T.CountedSteps, Threads;
    RunUnderneath(lib, IDLE, before, f);
    RunUnderneath(lib, f, actions, f');
    T.StopReturns(f.server, Threads(lib, f, actions), f'.server);
    IdleIsSound();
    RunKeepsSound(lib, IDLE, before, f);
    RunKeepsSound(lib, f, actions, f');
    if !T.WinnerPc(f'.server).Done? {
      var a := T.StopNeverStuck(f'.server);
      var action := CountedIsEnabled(lib, f', a);
    }
  }
}
