/** What holds in every reachable state of the server, and why `Server::stop` returns. */
module LifecycleTheorems {
  import opened Wrappers
  import opened Lifecycle
  import opened LifecycleInvariant

  // ---------------------------------------------------------------- custody of workers

  /** Every session issued is in exactly one place: held by the accept loop, registered, or gone
      after its ended thread was joined. The registry lists ids in strictly increasing order. */
  lemma WorkersConserved(s: State)
    requires Reachable(s)
    ensures forall j, k | 0 <= j < k < |s.registry| :: s.registry[j] < s.registry[k]
    ensures forall sid | 0 <= sid < |s.sessions| ::
      var x := s.sessions[sid];
      && (Holds(s.accept, sid) ==> sid !in s.registry && !x.joined)
      && (!Holds(s.accept, sid) && sid !in s.registry ==> x.joined && x.phase.Finished?)
  {
    ReachableInv(s);
  }

  /** The session the step joins, if it is a join. */
  function JoinTarget(s: State, a: Action): Option<nat> {
    if a.Accept? && Reaping(s) && s.accept.task.i < |s.registry| then Some(s.registry[s.accept.task.i])
    else if a.Stop? && a.t < |s.stops| && s.stops[a.t].Join? && s.stops[a.t].i < |s.registry|
    then Some(s.registry[s.stops[a.t].i])
    else None
  }

  lemma HoldingTouches(s: State, s': State, sid: nat)
    requires s.accept.Holding? && HoldingStep(s, s.accept.sid, s.accept.task) == Some(s') && sid < |s.sessions|
    ensures |s.sessions| == |s'.sessions|
    ensures var x, x' := s.sessions[sid], s'.sessions[sid];
      || x' == x
      || (x' == x.(joined := true) && JoinTarget(s, Accept(Proceed)) == Some(sid))
      || (x' == x.(phase := Spawned) && Holds(s.accept, sid) && s.accept.task.Spawn?)
    ensures JoinTarget(s, Accept(Proceed)) == Some(sid) ==> s'.sessions[sid].joined && CanJoin(s.sessions[sid])
  {
  }

  /** What a step of the accept thread can do to a session that exists. */
  lemma AcceptTouches(s: State, c: AcceptChoice, s': State, sid: nat)
    requires AcceptStep(s, c) == Some(s') && sid < |s.sessions|
    ensures |s.sessions| <= |s'.sessions|
    ensures var x, x' := s.sessions[sid], s'.sessions[sid];
      || x' == x
      || (x' == x.(joined := true) && JoinTarget(s, Accept(c)) == Some(sid))
      || (x' == x.(phase := Spawned) && Holds(s.accept, sid) && s.accept.task.Spawn?)
    ensures JoinTarget(s, Accept(c)) == Some(sid) ==> s'.sessions[sid].joined && CanJoin(s.sessions[sid])
  {
    hide HoldingStep, CanJoin;
    if s.accept.Holding? { HoldingTouches(s, s', sid); }
  }

  lemma AcceptHolds(s: State, c: AcceptChoice, s': State, sid: nat)
    requires AcceptStep(s, c) == Some(s') && Holds(s'.accept, sid)
    ensures Holds(s.accept, sid) || sid == |s.sessions|
  {
  }

  lemma AccessTouches(s: State, t: nat, s': State, sid: nat)
    requires t < |s.stops| && s.stops[t].StopSession? && StopStep(s, t) == Some(s') && sid < |s.sessions|
    ensures |s'.sessions| == |s.sessions| && s'.accept == s.accept
    ensures var x, x' := s.sessions[sid], s'.sessions[sid];
      x' == x || x' == Stopped(x, Cas) || x' == Stopped(x, Shutdown) || x' == Stopped(x, CloseFd)
  {
    hide CanJoin, AfterStage;
    match s.stops[t].stage
    case Cas =>
    case Shutdown =>
    case CloseFd =>
  }

  lemma JoinTouches(s: State, t: nat, s': State, sid: nat)
    requires t < |s.stops| && !s.stops[t].StopSession? && StopStep(s, t) == Some(s') && sid < |s.sessions|
    ensures |s'.sessions| == |s.sessions| && s'.accept == s.accept
    ensures var x, x' := s.sessions[sid], s'.sessions[sid];
      x' == x || (x' == x.(joined := true) && JoinTarget(s, Stop(t)) == Some(sid))
    ensures JoinTarget(s, Stop(t)) == Some(sid) && s.registry[s.stops[t].i] < |s.sessions| ==>
      s'.sessions[sid].joined && CanJoin(s.sessions[sid])
  {
    hide CanJoin, AfterStage, Stopped;
  }

  /** What a step of a thread inside stop() can do to a session. */
  lemma StopTouches(s: State, t: nat, s': State, sid: nat)
    requires t < |s.stops| && StopStep(s, t) == Some(s') && sid < |s.sessions|
    ensures |s'.sessions| == |s.sessions| && s'.accept == s.accept
    ensures var x, x' := s.sessions[sid], s'.sessions[sid];
      || x' == x
      || (x' == x.(joined := true) && JoinTarget(s, Stop(t)) == Some(sid))
      || x' == Stopped(x, Cas) || x' == Stopped(x, Shutdown) || x' == Stopped(x, CloseFd)
    ensures JoinTarget(s, Stop(t)) == Some(sid) && s.registry[s.stops[t].i] < |s.sessions| ==>
      s'.sessions[sid].joined && CanJoin(s.sessions[sid])
  {
    hide CanJoin, AfterStage, Stopped, StopStep;
    if s.stops[t].StopSession? { AccessTouches(s, t, s', sid); } else { JoinTouches(s, t, s', sid); }
  }

  /** No thread is joined twice, whichever of cleanup and stop() reaches it, and a join finds its
      thread ended; every other step leaves the joined threads as they were. */
  lemma JoinedExactlyOnce(s: State, a: Action, s': State, sid: nat)
    requires Reachable(s) && Step(s, a) == Some(s') && sid < |s.sessions|
    ensures sid < |s'.sessions|
    ensures JoinTarget(s, a) == Some(sid) ==>
      !s.sessions[sid].joined && s.sessions[sid].phase.Finished? && s'.sessions[sid].joined
    ensures JoinTarget(s, a) != Some(sid) ==> s'.sessions[sid].joined == s.sessions[sid].joined
  {
    ReachableInv(s);
    match a
    case Accept(c) =>
      AcceptTouches(s, c, s', sid);
      if JoinTarget(s, a) == Some(sid) {
        assert !JoinedByStop(s, s.accept.task.i);
      }
    case Stop(t) =>
      StopTouches(s, t, s', sid);
      if JoinTarget(s, a) == Some(sid) {
        assert !JoinedByStop(s, s.stops[t].i);
      }
    case Work(w, c) => WorkerStepKeeps(s.sessions[w], c, s'.sessions[w]);
    case CallStop =>
  }

  /** No worker leaves the registry without having been joined. */
  lemma RegistryLosesOnlyJoined(s: State, a: Action, s': State, sid: nat)
    requires Reachable(s) && Step(s, a) == Some(s')
    requires sid in s.registry && sid !in s'.registry
    ensures sid < |s'.sessions| && s'.sessions[sid].joined
  {
    ReachableInv(s);
    StepKeeps(s, a, s');
    match a
    case Accept(c) =>
      AcceptTouches(s, c, s', sid);
      if Holds(s'.accept, sid) { AcceptHolds(s, c, s', sid); }
    case Stop(t) => StopTouches(s, t, s', sid);
    case Work(w, c) =>
    case CallStop =>
  }

  /** Outside a cleanup pass nothing is filtered; at its end the registry is the stable filter of
      what it was, by the activity that was observed. */
  lemma CleanupIsStableFilter(s: State, s': State)
    requires Reachable(s) && CleaningUp(s) && Step(s, Accept(Proceed)) == Some(s') && !CleaningUp(s') && !Reaping(s')
    ensures |s.accept.task.seen| == |s.accept.task.before|
    ensures s'.registry == Kept(s.accept.task.before, s.accept.task.seen)
    ensures s'.owner.Free?
  {
    ReachableInv(s);
  }

  // ---------------------------------------------------------------- late arrivals

  /** Once is_running_ is false the accept loop registers at most one more worker. When stop() has
      cleared the registry, then the registry holds that one or the accept loop still does, exactly
      one of the two, if and only if the accept loop held a connection when stop() took the mutex. */
  lemma AtMostOneLateWorker(s: State)
    requires Reachable(s)
    ensures !s.running ==> s.late <= 1
    ensures s.cleared ==> |s.registry| <= 1
    ensures s.cleared && HoldsConnection(s.accept) ==> s.registry == [] && s.heldAtLock
    ensures s.cleared && !HoldsConnection(s.accept) ==> (s.registry == [] <==> !s.heldAtLock)
  {
    ReachableInv(s);
  }

  /** A worker registered after the registry was cleared is never joined or removed. */
  lemma {:induction false} LateWorkerStays(s: State, actions: seq<Action>, s': State)
    requires Inv(s) && s.cleared && s.registry != [] && Run(s, actions) == Some(s')
    ensures s'.cleared && s'.registry == s.registry && s.registry[0] < |s.sessions| <= |s'.sessions|
    ensures !s'.sessions[s.registry[0]].joined
    decreases |actions|
  {
    if actions != [] {
      var next := Step(s, actions[0]).value;
      StepKeeps(s, actions[0], next);
      LateWorkerStaysOnce(s, actions[0], next);
      LateWorkerStays(next, actions[1..], s');
    } else {
      assert !JoinedByStop(s, 0);
    }
  }

  lemma LateWorkerStaysOnce(s: State, a: Action, s': State)
    requires Inv(s) && s.cleared && s.registry != [] && Step(s, a) == Some(s')
    ensures s'.cleared && s'.registry == s.registry && |s.sessions| <= |s'.sessions|
    ensures s'.sessions[s.registry[0]].joined == s.sessions[s.registry[0]].joined
  {
    assert !HoldsConnection(s.accept);
    assert s.stops[s.winner.value].Done?;
  }

  // ---------------------------------------------------------------- reaping does not wait on the network

  /** The worker will neither receive nor answer again. */
  predicate PastNetwork(x: Session) {
    !x.active && (x.phase.Check? || x.phase.Leave? || x.phase.Close? || x.phase.Finished?)
  }

  /** When cleanup joins a thread, that thread is past its last recv and send. */
  lemma ReapedIsPastNetwork(s: State)
    requires Reachable(s) && Reaping(s)
    ensures s.accept.task.i < |s.registry| && s.registry[s.accept.task.i] < |s.sessions|
    ensures PastNetwork(s.sessions[s.registry[s.accept.task.i]])
  {
    ReachableInv(s);
    assert Treated(s, s.accept.task.i);
  }

  /** And it stays so in every continuation, whatever any thread does. */
  lemma {:induction false} PastNetworkForGood(s: State, actions: seq<Action>, s': State, sid: nat)
    requires Inv(s) && sid < |s.sessions| && PastNetwork(s.sessions[sid]) && Run(s, actions) == Some(s')
    ensures sid < |s'.sessions| && PastNetwork(s'.sessions[sid])
    decreases |actions|
  {
    if actions != [] {
      var next := Step(s, actions[0]).value;
      StepKeeps(s, actions[0], next);
      PastNetworkStep(s, actions[0], next, sid);
      PastNetworkForGood(next, actions[1..], s', sid);
    }
  }

  lemma PastNetworkStep(s: State, a: Action, s': State, sid: nat)
    requires Inv(s) && sid < |s.sessions| && PastNetwork(s.sessions[sid]) && Step(s, a) == Some(s')
    ensures sid < |s'.sessions| && PastNetwork(s'.sessions[sid])
  {
    match a
    case Accept(c) => AcceptTouches(s, c, s', sid);
    case Stop(t) => StopTouches(s, t, s', sid);
    case Work(_, _) =>
    case CallStop =>
  }

  // ---------------------------------------------------------------- shutdown terminates

  /** How many of its own steps a worker can still take once its socket is closed or it is ending. */
  function Rank(x: Session): nat {
    match x.phase
    case Unstarted => 6
    case Spawned => 5
    case Check => if x.active then 4 else 3
    case Receive => 3
    case Answer(_) => 5
    case Leave => 2
    case Close => 1
    case Finished => 0
  }

  function Weight(x: Session): nat { if Doomed(x) then Rank(x) else 6 }

  function Total(sessions: seq<Session>): nat {
    if sessions == [] then 0 else Total(sessions[..|sessions| - 1]) + Weight(sessions[|sessions| - 1])
  }

  function Left(n: nat, i: nat): nat { if i < n then n - i else 0 }

  function AcceptRank(pc: AcceptPc, listener: Listener, n: nat): nat {
    match pc
    case Exited => 0
    case Top => 1
    case Recheck => 1
    case Release => 2
    case Accepting => if listener.Listening? then 2 * n + 19 else 2
    case Accepted => 2 * n + 18
    case Holding(_, task) =>
      match task
      case WantCleanup => 2 * n + 11
      case Cleanup(i, _, _) => 2 * Left(n, i) + 10
      case Reap(i, _, _) => 2 * Left(n, i) + 9
      case WantRegister => 9
      case Spawn => 8
      case Insert => 7
  }

  function StopRank(pc: StopPc, n: nat): nat {
    match pc
    case ShutListener => 4 * n + 9
    case CloseListener => 4 * n + 8
    case WantLock => 4 * n + 7
    case StopSession(i, stage) => 3 * Left(n, i) + n + 6 - (match stage case Cas => 0 case Shutdown => 1 case CloseFd => 2)
    case Join(i) => Left(n, i) + 2
    case Clear => 1
    case _ => 0
  }

  ghost function WinnerPc(s: State): StopPc
    requires OneWinner(s) && s.winner.Some?
  {
    s.stops[s.winner.value]
  }

  /** Bounds the steps that still stand between a stopping server and the return of stop(). */
  ghost function Measure(s: State): nat
    requires OneWinner(s) && s.winner.Some?
  {
    AcceptRank(s.accept, s.listener, |s.registry|) + StopRank(WinnerPc(s), |s.registry|) + Total(s.sessions)
  }

  /** The steps stop() may have to wait for: its own, the accept thread's, and those of workers
      whose end no longer depends on the network. */
  ghost predicate Counts(s: State, a: Action) {
    match a
    case Accept(_) => true
    case Stop(t) => s.winner == Some(t)
    case Work(w, _) => w < |s.sessions| && Doomed(s.sessions[w])
    case CallStop => false
  }

  lemma {:induction false} TotalUpdate(sessions: seq<Session>, i: nat, x: Session)
    requires i < |sessions|
    ensures Total(sessions[i := x]) + Weight(sessions[i]) == Total(sessions) + Weight(x)
  {
    var n := |sessions| - 1;
    if i < n {
      TotalUpdate(sessions[..n], i, x);
      assert sessions[i := x][..n] == sessions[..n][i := x];
    } else {
      assert sessions[i := x][..n] == sessions[..n];
    }
  }

  /** A stopped worker comes closer to the end of run() with each of its steps, even when
      `is_active_ = true` at the head of run() has overwritten the stop. */
  lemma WorkerWeight(x: Session, c: WorkerChoice, x': Session)
    requires WorkerStep(x, c) == Some(x')
    ensures Weight(x') <= Weight(x)
    ensures Doomed(x) ==> Weight(x') < Weight(x)
  {
  }

  lemma WorkMeasure(s: State, w: nat, c: WorkerChoice, s': State)
    requires Inv(s) && s.winner.Some? && Step(s, Work(w, c)) == Some(s')
    ensures OneWinner(s') && s'.winner == s.winner && Measure(s') <= Measure(s)
    ensures Doomed(s.sessions[w]) ==> Measure(s') < Measure(s)
  {
    WorkerWeight(s.sessions[w], c, s'.sessions[w]);
    TotalUpdate(s.sessions, w, s'.sessions[w]);
  }

  /** A shorter registry or a closed listener raises no rank; one more entry raises stop()'s by 4. */
  lemma RanksMonotone(pc: AcceptPc, l: Listener, l': Listener, stop: StopPc, n: nat, n': nat)
    requires l'.Listening? ==> l.Listening?
    ensures n' <= n ==> AcceptRank(pc, l', n') <= AcceptRank(pc, l, n) && StopRank(stop, n') <= StopRank(stop, n)
    ensures n' == n + 1 ==> StopRank(stop, n') <= StopRank(stop, n) + 4
  {
  }

  /** The accept thread's own rank falls, by more than 4 when it registers a worker. */
  lemma HoldingRank(s: State, s': State)
    requires s.accept.Holding? && AcceptStep(s, Proceed) == Some(s')
    ensures AcceptRank(s'.accept, s'.listener, |s'.registry|) < AcceptRank(s.accept, s.listener, |s.registry|)
    ensures s.accept.task.Insert? ==>
      && |s'.registry| == |s.registry| + 1
      && AcceptRank(s'.accept, s'.listener, |s'.registry|) + 4 < AcceptRank(s.accept, s.listener, |s.registry|)
    ensures !s.accept.task.Insert? ==> |s'.registry| <= |s.registry|
  {
    hide Without, Joined, CanJoin;
  }

  lemma JoinedWeight(x: Session)
    ensures Weight(x.(joined := true)) == Weight(x)
    ensures x.phase.Unstarted? ==> Weight(x.(phase := Spawned)) <= Weight(x)
  {
  }

  lemma HoldingTotal(s: State, s': State)
    requires Custody(s) && s.accept.Holding? && AcceptStep(s, Proceed) == Some(s')
    ensures Total(s'.sessions) <= Total(s.sessions)
  {
    hide Total, Weight, Ordered, Conserved, JoinedOnce;
    match s.accept.task
    case Spawn =>
      JoinedWeight(s.sessions[s.accept.sid]);
      TotalUpdate(s.sessions, s.accept.sid, s'.sessions[s.accept.sid]);
    case Reap(i, _, _) =>
      JoinedWeight(s.sessions[s.registry[i]]);
      TotalUpdate(s.sessions, s.registry[i], s'.sessions[s.registry[i]]);
    case _ => assert s'.sessions == s.sessions;
  }

  lemma OutsideRank(s: State, c: AcceptChoice, s': State)
    requires !s.accept.Holding? && !s.running && AcceptStep(s, c) == Some(s')
    ensures AcceptRank(s'.accept, s'.listener, |s'.registry|) + Total(s'.sessions)
         < AcceptRank(s.accept, s.listener, |s.registry|) + Total(s.sessions)
    ensures s'.registry == s.registry
  {
    if s.accept.Accepted? {
      assert s'.sessions == s.sessions + [NEW_SESSION];
      assert s'.sessions[..|s.sessions|] == s.sessions;
    }
  }

  lemma AcceptMeasure(s: State, c: AcceptChoice, s': State)
    requires Inv(s) && s.winner.Some? && AcceptStep(s, c) == Some(s') && OneWinner(s')
    ensures s'.winner == s.winner && Measure(s') < Measure(s)
  {
    AcceptLeavesStop(s, c, s');
    RanksMonotone(s.accept, s.listener, s.listener, WinnerPc(s), |s.registry|, |s'.registry|);
    if s.accept.Holding? {
      HoldingRank(s, s');
      HoldingTotal(s, s');
    } else {
      OutsideRank(s, c, s');
    }
  }

  lemma StopLowers(s: State, t: nat, s': State)
    requires t < |s.stops| && Won(s.stops[t]) && StopStep(s, t) == Some(s')
    ensures |s'.stops| == |s.stops| && |s'.registry| <= |s.registry|
    ensures s'.winner == s.winner && s'.accept == s.accept
    ensures s'.listener.Listening? ==> s.listener.Listening?
  {
  }

  lemma StopRankFalls(s: State, t: nat, s': State)
    requires t < |s.stops| && Won(s.stops[t]) && StopStep(s, t) == Some(s') && |s'.stops| == |s.stops|
    requires Ordered(s)
    ensures StopRank(s'.stops[t], |s'.registry|) < StopRank(s.stops[t], |s.registry|)
  {
    hide CanJoin, Joined, Stopped;
  }

  /** stop() brings no worker further from its end. */
  lemma StoppedWeight(x: Session, stage: Stage)
    ensures Weight(Stopped(x, stage)) <= Weight(x)
    ensures Weight(x.(joined := true)) == Weight(x)
  {
  }

  lemma StopTotal(s: State, t: nat, s': State)
    requires t < |s.stops| && Ordered(s) && StopStep(s, t) == Some(s')
    ensures Total(s'.sessions) <= Total(s.sessions)
  {
    var pc := s.stops[t];
    if (pc.StopSession? || pc.Join?) && pc.i < |s.registry| {
      var sid := s.registry[pc.i];
      var x := s.sessions[sid];
      var x' := if pc.Join? then x.(joined := true) else Stopped(x, pc.stage);
      StoppedWeight(x, if pc.Join? then Cas else pc.stage);
      TotalUpdate(s.sessions, sid, x');
      assert s'.sessions == s.sessions[sid := x'];
    } else {
      assert s'.sessions == s.sessions;
    }
  }

  lemma StopMeasure(s: State, s': State)
    requires Inv(s) && s.winner.Some? && StopStep(s, s.winner.value) == Some(s') && OneWinner(s')
    ensures s'.winner == s.winner && Measure(s') < Measure(s)
  {
    StopLowers(s, s.winner.value, s');
    StopRankFalls(s, s.winner.value, s');
    StopTotal(s, s.winner.value, s');
    RanksMonotone(s.accept, s.listener, s'.listener, Clear, |s.registry|, |s'.registry|);
  }

  /** After a thread has won stop(), no step of any thread raises the measure, and each counted
      step lowers it. */
  lemma MeasureFalls(s: State, a: Action, s': State)
    requires Inv(s) && s.winner.Some? && Step(s, a) == Some(s')
    ensures OneWinner(s') && s'.winner == s.winner
    ensures Measure(s') <= Measure(s) && (Counts(s, a) ==> Measure(s') < Measure(s))
  {
    StepKeeps(s, a, s');
    match a
    case Accept(c) => AcceptMeasure(s, c, s');
    case Stop(t) => if s.winner == Some(t) { StopMeasure(s, s'); }
    case Work(w, c) => WorkMeasure(s, w, c, s');
    case CallStop =>
  }

  /** A step every unfinished, started worker can take by itself. */
  function OwnStep(x: Session): WorkerChoice {
    match x.phase
    case Receive => Lost
    case Answer(_) => Failed
    case _ => Go
  }

  /** Some counted step is enabled until stop() has returned: joining under the mutex cannot
      deadlock, since no worker ever takes the mutex. */
  lemma StopNeverStuck(s: State) returns (a: Action)
    requires Inv(s) && s.winner.Some? && !WinnerPc(s).Done?
    ensures Counts(s, a) && Step(s, a).Some?
  {
    var t := s.winner.value;
    match WinnerPc(s)
    case WantLock =>
      if s.owner.Free? {
        a := Stop(t);
      } else if Reaping(s) && !CanJoin(s.sessions[s.registry[s.accept.task.i]]) {
        assert Treated(s, s.accept.task.i);
        a := Work(s.registry[s.accept.task.i], Go);
      } else {
        a := Accept(Proceed);
      }
    case Join(i) =>
      if i < |s.registry| && !CanJoin(s.sessions[s.registry[i]]) {
        assert Treated(s, i);
        a := Work(s.registry[i], OwnStep(s.sessions[s.registry[i]]));
      } else {
        a := Stop(t);
      }
    case _ => a := Stop(t);
  }

  ghost function CountedSteps(s: State, actions: seq<Action>): nat
    decreases |actions|
  {
    if actions == [] || Step(s, actions[0]).None? then 0
    else (if Counts(s, actions[0]) then 1 else 0) + CountedSteps(Step(s, actions[0]).value, actions[1..])
  }

  /** In every run after the compare-exchange of stop(), the counted steps are at most Measure(s);
      and a run that takes that many ends with stop() returned. */
  lemma {:induction false} ShutdownTerminates(s: State, actions: seq<Action>, s': State)
    requires Inv(s) && s.winner.Some? && Run(s, actions) == Some(s')
    ensures OneWinner(s') && s'.winner == s.winner
    ensures CountedSteps(s, actions) + Measure(s') <= Measure(s)
    ensures CountedSteps(s, actions) == Measure(s) ==> WinnerPc(s').Done?
    decreases |actions|
  {
    if actions != [] {
      var next := Step(s, actions[0]).value;
      StepKeeps(s, actions[0], next);
      MeasureFalls(s, actions[0], next);
      ShutdownTerminates(next, actions[1..], s');
    }
  }

  /** When stop() is done every session has ended and been joined, but for a late one: still in the
      accept loop's hands, or alone in the registry, and then held already when stop() took the mutex. */
  lemma AllJoinedButLate(s: State, sid: nat)
    requires Reachable(s) && s.cleared && sid < |s.sessions|
    ensures s.sessions[sid].joined ==> s.sessions[sid].phase.Finished?
    ensures !s.sessions[sid].joined ==> s.heldAtLock && (Holds(s.accept, sid) || s.registry == [sid])
  {
    WorkersConserved(s);
    AtMostOneLateWorker(s);
    ReachableInv(s);
  }

  /** From the moment some stop() has won, every run takes boundedly many counted steps, and until
      that stop() has returned one of them is enabled: so it returns, with every session joined but the
      late one. */
  lemma StopReturns(s: State, actions: seq<Action>, s': State)
    requires Reachable(s) && !s.running && Run(s, actions) == Some(s')
    ensures OneWinner(s) && s.winner.Some? && OneWinner(s') && s'.winner == s.winner
    ensures CountedSteps(s, actions) <= Measure(s)
    ensures WinnerPc(s').Done? || exists a :: Counts(s', a) && Step(s', a).Some?
    ensures CountedSteps(s, actions) == Measure(s) ==> WinnerPc(s').Done?
    ensures WinnerPc(s').Done? ==> forall sid | 0 <= sid < |s'.sessions| ::
      s'.sessions[sid].joined || (s'.heldAtLock && (Holds(s'.accept, sid) || s'.registry == [sid]))
  {
    ReachableInv(s);
    RunKeeps(s, actions, s');
    ShutdownTerminates(s, actions, s');
    if WinnerPc(s').Done? {
      ReachesOn(s, actions, s');
      forall sid | 0 <= sid < |s'.sessions|
        ensures s'.sessions[sid].joined || (s'.heldAtLock && (Holds(s'.accept, sid) || s'.registry == [sid]))
      {
        AllJoinedButLate(s', sid);
      }
    } else {
      var a := StopNeverStuck(s');
    }
  }

  lemma {:induction false} ReachesOn(s: State, actions: seq<Action>, s': State)
    requires Reachable(s) && Run(s, actions) == Some(s')
    ensures Reachable(s')
    decreases |actions|
  {
    if actions != [] {
      var next := Advance(s, actions[0]);
      ReachesOn(next, actions[1..], s');
    }
  }

  // ---------------------------------------------------------------- the late worker exists

  lemma {:induction false} RunExtends(s: State, actions: seq<Action>, a: Action)
    requires Run(s, actions).Some?
    ensures Run(s, actions + [a]) == Step(Run(s, actions).value, a)
    decreases |actions|
  {
    if actions == [] {
      assert (actions + [a])[1..] == [];
    } else {
      assert (actions + [a])[1..] == actions[1..] + [a];
      RunExtends(Step(s, actions[0]).value, actions[1..], a);
    }
  }

  lemma Advance(s: State, a: Action) returns (s': State)
    requires Reachable(s) && Step(s, a).Some?
    ensures Reachable(s') && Step(s, a) == Some(s')
  {
    var actions :| Run(INITIAL, actions) == Some(s);
    RunExtends(INITIAL, actions, a);
    s' := Step(s, a).value;
    assert Run(INITIAL, actions + [a]) == Some(s');
  }

  /** stop() runs to its end while the accept loop holds a connection. */
  lemma StopOvertakesInsertion() returns (s: State)
    ensures Reachable(s)
    ensures s == State(false, Closed, [NEW_SESSION], [], Free, Holding(0, WantCleanup), [Done], Some(0), 0, true, true)
  {
    assert Run(INITIAL, []) == Some(INITIAL);
    s := Advance(INITIAL, Accept(Proceed));
    s := Advance(s, Accept(Connection));
    s := Advance(s, Accept(Proceed));
    s := Advance(s, CallStop);
    s := Advance(s, Stop(0));
    s := Advance(s, Stop(0));
    s := Advance(s, Stop(0));
    s := Advance(s, Stop(0));
    s := Advance(s, Stop(0));
    s := Advance(s, Stop(0));
    s := Advance(s, Stop(0));
  }

  /** The registry need not end empty: a connection accepted before stop() and inserted after it
      leaves one running worker registered when both the accept loop and stop() have ended. */
  lemma LateWorkerExists() returns (s: State)
    ensures Reachable(s) && s.cleared && s.heldAtLock && s.accept.Exited?
    ensures s.registry == [0] && |s.sessions| == 1 && !s.sessions[0].joined && !s.sessions[0].phase.Finished?
  {
    s := StopOvertakesInsertion();
    s := Advance(s, Accept(Proceed));
    s := Advance(s, Accept(Proceed));
    s := Advance(s, Accept(Proceed));
    s := Advance(s, Accept(Proceed));
    s := Advance(s, Accept(Proceed));
    s := Advance(s, Accept(Proceed));
    s := Advance(s, Accept(Proceed));
  }
}
