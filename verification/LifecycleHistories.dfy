/** What becomes of one session over a run: reaped by the next cleanup if it has ended, kept by it if not,
shut down and closed by stop() if it has not ended. */
module LifecycleHistories {
  import opened Wrappers
  import opened Lifecycle
  import opened LifecycleInvariant
  import opened LifecycleTheorems

  // ---------------------------------------------------------------- cleanup reaps whoever has ended

  predicate InPass(task: Task) { task.Cleanup? || task.Reap? }

  predicate PassOver(task: Task) { task.WantRegister? || task.Spawn? || task.Insert? }

  /** The session sid has ended, and is gone from the registry as far as the cleanup before the
      registration of `held` has come. */
  ghost predicate Condemned(s: State, held: nat, sid: nat) {
    && sid < |s.sessions| && sid < held <= |s.sessions|
    && (s.accept.Holding? ==> held <= s.accept.sid)
    && (sid in s.registry && !s.owner.ByStop? ==> PastNetwork(s.sessions[sid]))
    && (Holds(s.accept, held) && InPass(s.accept.task) ==>
          s.accept.task.i <= |s.registry| && sid !in s.registry[..s.accept.task.i])
    && (Holds(s.accept, held) && PassOver(s.accept.task) ==> sid !in s.registry)
  }

  lemma CondemnedStep(s: State, a: Action, s': State, held: nat, sid: nat)
    requires Inv(s) && Inv(s') && Condemned(s, held, sid) && Step(s, a) == Some(s')
    ensures Condemned(s', held, sid)
  {
    hide Inv;
    match a
    case Accept(c) => AcceptCondemns(s, c, s', held, sid);
    case Stop(t) => StopCondemns(s, t, s', held, sid);
    case Work(w, _) => 
    case CallStop =>
  }

  lemma AcceptCondemns(s: State, c: AcceptChoice, s': State, held: nat, sid: nat)
    requires Inv(s) && Condemned(s, held, sid) && AcceptStep(s, c) == Some(s')
    ensures Condemned(s', held, sid)
  {
    hide Treatment, LateBound, OneWinner, ThreadsStarted, JoinedOnce, LifecycleInvariant.Conserved, PastNetwork, HoldingStep;
    if s.accept.Holding? {
      if InPass(s.accept.task) { PassCondemns(s, s', held, sid); } else { HoldingCondemns(s, s', held, sid); }
    }
  }

  lemma HoldingCondemns(s: State, s': State, held: nat, sid: nat)
    requires Exclusive(s) && Condemned(s, held, sid)
    requires s.accept.Holding? && !InPass(s.accept.task) && HoldingStep(s, s.accept.sid, s.accept.task) == Some(s')
    ensures Condemned(s', held, sid)
  {
    hide CanJoin, StopInside;
  }

  lemma PassCondemns(s: State, s': State, held: nat, sid: nat)
    requires Ordered(s) && Exclusive(s) && Condemned(s, held, sid)
    requires s.accept.Holding? && InPass(s.accept.task) && HoldingStep(s, s.accept.sid, s.accept.task) == Some(s')
    ensures Condemned(s', held, sid)
  {
    hide Ordered, Exclusive, Condemned, HoldingStep;
    if s.accept.task.Reap? { ReapCondemns(s, s', held, sid); } else { CursorCondemns(s, s', held, sid); }
  }

  lemma CursorCondemns(s: State, s': State, held: nat, sid: nat)
    requires Ordered(s) && Exclusive(s) && Condemned(s, held, sid)
    requires CleaningUp(s) && HoldingStep(s, s.accept.sid, s.accept.task) == Some(s')
    ensures Condemned(s', held, sid)
  {
    hide StopInside, Ordered;
    var i := s.accept.task.i;
    if i < |s.registry| {
      UpTo(s.registry, i);
      assert s.registry[i] < |s.sessions| by { InOrder(s, i); }
    } else if i == |s.registry| {
      assert s.registry[..i] == s.registry;
    }
  }

  lemma InOrder(s: State, i: nat)
    requires Ordered(s) && i < |s.registry|
    ensures s.registry[i] < |s.sessions|
  {
  }

  lemma UpTo(ids: seq<nat>, i: nat)
    requires i < |ids|
    ensures ids[..i + 1] == ids[..i] + [ids[i]] && ids[i] in ids
    ensures Without(ids, i)[..i] == ids[..i] && forall id :: id in Without(ids, i) ==> id in ids
  {
  }

  lemma ReapCondemns(s: State, s': State, held: nat, sid: nat)
    requires Exclusive(s) && Condemned(s, held, sid)
    requires Reaping(s) && HoldingStep(s, s.accept.sid, s.accept.task) == Some(s')
    ensures Condemned(s', held, sid)
  {
    hide StopInside, CanJoin, Without;
    UpTo(s.registry, s.accept.task.i);
  }

  lemma StopCondemns(s: State, t: nat, s': State, held: nat, sid: nat)
    requires Inv(s) && t < |s.stops| && Condemned(s, held, sid) && StopStep(s, t) == Some(s')
    ensures Condemned(s', held, sid)
  {
    hide Treatment, LateBound, ThreadsStarted, JoinedOnce, LifecycleInvariant.Conserved, CanJoin, Stopped, AfterStage;
  }

  lemma {:induction false} CondemnedForGood(s: State, actions: seq<Action>, s': State, held: nat, sid: nat)
    requires Inv(s) && Condemned(s, held, sid) && Run(s, actions) == Some(s')
    ensures Inv(s') && Condemned(s', held, sid)
    decreases |actions|
  {
    hide Inv, Condemned, Step;
    if actions != [] {
      var next := Step(s, actions[0]).value;
      StepKeeps(s, actions[0], next);
      CondemnedStep(s, actions[0], next, held, sid);
      CondemnedForGood(next, actions[1..], s', held, sid);
    }
  }

  /** A registered worker whose session is inactive when a connection is accepted, or when the cleanup for
      it begins, has been joined and removed when that cleanup is over, whatever any thread does meanwhile. */
  lemma CleanupReaps(s: State, actions: seq<Action>, s': State, held: nat, sid: nat)
    requires Reachable(s) && Run(s, actions) == Some(s')
    requires if s.accept.Accepted? then held == |s.sessions| else Holds(s.accept, held) && s.accept.task.WantCleanup?
    requires sid in s.registry && sid < |s.sessions| && !s.sessions[sid].active
    requires Holds(s'.accept, held) && PassOver(s'.accept.task)
    ensures sid !in s'.registry && sid < |s'.sessions| && s'.sessions[sid].joined && s'.sessions[sid].phase.Finished?
  {
    ReachableInv(s);
    InactiveIsPast(s, sid);
    CondemnedForGood(s, actions, s', held, sid);
  }

  lemma InactiveIsPast(s: State, sid: nat)
    requires Inv(s) && sid in s.registry && sid < |s.sessions| && !s.sessions[sid].active
    ensures s.owner.ByStop? || PastNetwork(s.sessions[sid])
    ensures s.accept.Holding? ==> sid < s.accept.sid
  {
    var k :| 0 <= k < |s.registry| && s.registry[k] == sid;
    assert Treated(s, k);
  }

  // ---------------------------------------------------------------- and keeps whoever has not

  /** The cleanup for `held` has passed by the session sid. */
  ghost predicate Spared(s: State, held: nat, sid: nat) {
    && held < |s.sessions| && (s.accept.Holding? ==> held <= s.accept.sid)
    && (Holds(s.accept, held) ==> !s.accept.task.WantCleanup?)
    && (Holds(s.accept, held) && InPass(s.accept.task) ==>
          s.accept.task.i <= |s.registry| && sid in s.registry[..s.accept.task.i])
  }

  lemma SparedStep(s: State, a: Action, s': State, held: nat, sid: nat)
    requires Inv(s) && Spared(s, held, sid) && Step(s, a) == Some(s')
    ensures Spared(s', held, sid)
  {
    hide Inv;
    match a
    case Accept(c) => AcceptSpares(s, c, s', held, sid);
    case Stop(t) => StopSpares(s, t, s', held, sid);
    case Work(_, _) =>
    case CallStop =>
  }

  lemma AcceptSpares(s: State, c: AcceptChoice, s': State, held: nat, sid: nat)
    requires Inv(s) && Spared(s, held, sid) && AcceptStep(s, c) == Some(s')
    ensures Spared(s', held, sid)
  {
    hide Treatment, LateBound, OneWinner, ThreadsStarted, JoinedOnce, LifecycleInvariant.Conserved, HoldingStep;
    if s.accept.Holding? { HoldingSpares(s, s', held, sid); }
  }

  lemma HoldingSpares(s: State, s': State, held: nat, sid: nat)
    requires Spared(s, held, sid) && s.accept.Holding? && HoldingStep(s, s.accept.sid, s.accept.task) == Some(s')
    ensures Spared(s', held, sid)
  {
    hide HoldingStep, Spared;
    match s.accept.task
    case Reap(_, _, _) => ReapSpares(s, s', held, sid);
    case Cleanup(_, _, _) => CursorSpares(s, s', held, sid);
    case _ => OtherSpares(s, s', held, sid);
  }

  lemma OtherSpares(s: State, s': State, held: nat, sid: nat)
    requires Spared(s, held, sid) && s.accept.Holding? && !InPass(s.accept.task)
    requires HoldingStep(s, s.accept.sid, s.accept.task) == Some(s')
    ensures Spared(s', held, sid)
  {
  }

  lemma CursorSpares(s: State, s': State, held: nat, sid: nat)
    requires Spared(s, held, sid) && CleaningUp(s) && HoldingStep(s, s.accept.sid, s.accept.task) == Some(s')
    ensures Spared(s', held, sid)
  {
    hide CanJoin, Without;
    if s.accept.task.i < |s.registry| { UpTo(s.registry, s.accept.task.i); }
  }

  lemma ReapSpares(s: State, s': State, held: nat, sid: nat)
    requires Spared(s, held, sid) && Reaping(s) && HoldingStep(s, s.accept.sid, s.accept.task) == Some(s')
    ensures Spared(s', held, sid)
  {
    hide CanJoin, Without;
    UpTo(s.registry, s.accept.task.i);
  }

  lemma StopSpares(s: State, t: nat, s': State, held: nat, sid: nat)
    requires Inv(s) && t < |s.stops| && Spared(s, held, sid) && StopStep(s, t) == Some(s')
    ensures Spared(s', held, sid)
  {
    hide Treatment, LateBound, ThreadsStarted, JoinedOnce, LifecycleInvariant.Conserved, CanJoin, Stopped, AfterStage;
  }

  lemma {:induction false} SparedForGood(s: State, actions: seq<Action>, s': State, held: nat, sid: nat)
    requires Inv(s) && Spared(s, held, sid) && Run(s, actions) == Some(s')
    ensures Spared(s', held, sid)
    decreases |actions|
  {
    hide Inv, Spared, Step;
    if actions != [] {
      var next := Step(s, actions[0]).value;
      StepKeeps(s, actions[0], next);
      SparedStep(s, actions[0], next, held, sid);
      SparedForGood(next, actions[1..], s', held, sid);
    }
  }

  /** A worker whose session is active when the cursor of a cleanup reaches it stays registered to the end
      of that cleanup, whatever any thread does meanwhile. */
  lemma CleanupSpares(s: State, actions: seq<Action>, s': State, sid: nat)
    requires Reachable(s) && CleaningUp(s) && s.accept.task.i < |s.registry| && s.registry[s.accept.task.i] == sid
    requires sid < |s.sessions| && s.sessions[sid].active
    requires Run(s, [Accept(Proceed)] + actions) == Some(s')
    requires s'.accept.Holding? && s'.accept.sid == s.accept.sid && InPass(s'.accept.task)
    ensures sid in s'.registry
  {
    ReachableInv(s);
    var run := [Accept(Proceed)] + actions;
    assert run[0] == Accept(Proceed) && run[1..] == actions;
    var next := Step(s, Accept(Proceed)).value;
    StepKeeps(s, Accept(Proceed), next);
    assert next.registry[s.accept.task.i] == sid;
    SparedForGood(next, actions, s', s.accept.sid, sid);
  }

  // ---------------------------------------------------------------- stop() shuts down whoever has not ended

  /** What stop() has done, by the time it is there, to the k-th registered session: it shuts the socket
      down before it closes it; and once it is past a session, the socket is shut down and closed, or
      the session has ended by itself, its own thread closing the socket. */
  lemma StopShutsDown(s: State, k: nat)
    requires Reachable(s) && s.owner.ByStop? && k < |s.registry|
    ensures s.registry[k] < |s.sessions| && s.owner.t < |s.stops| && s.winner == Some(s.owner.t)
    ensures var x, pc := s.sessions[s.registry[k]], s.stops[s.owner.t];
      && (pc == StopSession(k, CloseFd) ==> x.shut)
      && (pc.Join? || pc.Clear? || (pc.StopSession? && k < pc.i) ==>
            || (x.shut && !x.open)
            || (!x.shut && !x.active && (x.phase.Check? || x.phase.Leave? || x.phase.Close? || x.phase.Finished?)))
  {
    ReachableInv(s);
    assert Treated(s, k);
  }

  /** ClientSession::stop as Server::stop runs it, if nothing comes in between: an active session is made
      inactive, shut down and closed, an inactive one is left as it is; then the next one is up. */
  lemma StopOfOne(s: State, t: nat, i: nat)
    requires t < |s.stops| && s.stops[t] == StopSession(i, Cas) && i < |s.registry| && s.registry[i] < |s.sessions|
    ensures var sid := s.registry[i];
      var x := s.sessions[sid];
      Run(s, if x.active then [Stop(t), Stop(t), Stop(t)] else [Stop(t)]) == Some(s.(
        stops := s.stops[t := StopSession(i + 1, Cas)],
        sessions := if x.active then s.sessions[sid := x.(active := false, shut := true, open := false)] else s.sessions))
  {
    if s.sessions[s.registry[i]].active {
      var s1 := Step(s, Stop(t)).value;
      var s2 := Step(s1, Stop(t)).value;
      var s3 := Step(s2, Stop(t)).value;
      assert [Stop(t), Stop(t), Stop(t)][1..] == [Stop(t), Stop(t)] && [Stop(t), Stop(t)][1..] == [Stop(t)] && [Stop(t)][1..] == [];
      assert s3.stops == s.stops[t := StopSession(i + 1, Cas)];
      assert s3.sessions == s.sessions[s.registry[i] := s3.sessions[s.registry[i]]];
      assert Run(s2, [Stop(t)]) == Run(s3, []);
      assert Run(s1, [Stop(t), Stop(t)]) == Run(s2, [Stop(t)]);
    } else {
      var s1 := Step(s, Stop(t)).value;
      assert [Stop(t)][1..] == [];
      assert s1.sessions == s.sessions;
      assert Run(s, [Stop(t)]) == Run(s1, []);
    }
  }

  /** stop() is at the socket of the session. */
  predicate AtSocket(s: State, sid: nat) {
    s.winner.Some? && s.winner.value < |s.stops| &&
    var pc := s.stops[s.winner.value];
    pc.StopSession? && !pc.stage.Cas? && pc.i < |s.registry| && s.registry[pc.i] == sid
  }

  /** Its own loop has ended, and stop() has not touched it. */
  ghost predicate EndedAlone(s: State, sid: nat) {
    sid < |s.sessions| && Untouched(s.sessions[sid]) && !s.sessions[sid].active && !AtSocket(s, sid)
  }

  lemma EndedStep(s: State, a: Action, s': State, sid: nat)
    requires Inv(s) && EndedAlone(s, sid) && Step(s, a) == Some(s')
    ensures EndedAlone(s', sid)
  {
    match a
    case Accept(c) =>
      AcceptTouches(s, c, s', sid);
      AcceptAtSocket(s, c, s', sid);
    case Stop(t) => StopLeavesEnded(s, t, s', sid);
    case Work(w, c) => WorkerStepKeeps(s.sessions[w], c, s'.sessions[w]);
    case CallStop => assert s'.stops == s.stops + [Enter];
  }

  lemma AcceptAtSocket(s: State, c: AcceptChoice, s': State, sid: nat)
    requires Exclusive(s) && AcceptStep(s, c) == Some(s')
    ensures AtSocket(s', sid) ==> AtSocket(s, sid)
  {
    hide AcceptStep;
    AcceptLeavesStop(s, c, s');
    AcceptLeavesRegistry(s, c, s');
  }

  /** The accept thread writes the registry only when it owns the mutex. */
  lemma AcceptLeavesRegistry(s: State, c: AcceptChoice, s': State)
    requires AcceptStep(s, c) == Some(s')
    ensures s'.registry == s.registry || HoldsLock(s.accept)
  {
  }

  lemma StopLeavesEnded(s: State, t: nat, s': State, sid: nat)
    requires OneWinner(s) && EndedAlone(s, sid) && t < |s.stops| && StopStep(s, t) == Some(s')
    ensures EndedAlone(s', sid)
  {
    hide OneWinner, EndedAlone, StopStep;
    WinnerInside(s, t);
    if s.stops[t].StopSession? { AccessLeavesEnded(s, t, s', sid); } else { OtherLeavesEnded(s, t, s', sid); }
  }

  lemma AccessLeavesEnded(s: State, t: nat, s': State, sid: nat)
    requires s.winner == Some(t) && EndedAlone(s, sid) && t < |s.stops| && s.stops[t].StopSession? && StopStep(s, t) == Some(s')
    ensures EndedAlone(s', sid)
  {
  }

  lemma OtherLeavesEnded(s: State, t: nat, s': State, sid: nat)
    requires EndedAlone(s, sid) && t < |s.stops| && !s.stops[t].StopSession? && StopStep(s, t) == Some(s')
    ensures EndedAlone(s', sid)
  {
    hide CanJoin, Untouched;
    JoinTouches(s, t, s', sid);
    JoiningUntouched(s.sessions[sid]);
  }

  lemma JoiningUntouched(x: Session)
    ensures Untouched(x.(joined := true)) == Untouched(x)
  {
  }

  lemma WinnerInside(s: State, t: nat)
    requires OneWinner(s) && t < |s.stops|
    ensures s.stops[t].StopSession? ==> s.winner == Some(t)
  {
  }

  /** A session that has ended by itself is never shut down: only the call whose compare-exchange finds it
      active goes on to its socket. */
  lemma {:induction false} EndedIsLeftAlone(s: State, actions: seq<Action>, s': State, sid: nat)
    requires Inv(s) && EndedAlone(s, sid) && Run(s, actions) == Some(s')
    ensures EndedAlone(s', sid)
    decreases |actions|
  {
    hide Inv, EndedAlone, Step;
    if actions != [] {
      var next := Step(s, actions[0]).value;
      StepKeeps(s, actions[0], next);
      EndedStep(s, actions[0], next, sid);
      EndedIsLeftAlone(next, actions[1..], s', sid);
    }
  }

  // ---------------------------------------------------------------- the accept loop and the listener

  /** The accept loop ends only when the server has been stopped, never on an error of accept() alone; and
      stop() shuts the listener down, which wakes accept(), before it closes it. */
  lemma AcceptEndsByStop(s: State)
    requires Reachable(s)
    ensures s.accept.Exited? ==> !s.running
    ensures s.running <==> s.winner.None?
    ensures forall t | 0 <= t < |s.stops| ::
      && (s.stops[t].CloseListener? ==> s.listener.ShutDown?)
      && (s.stops[t].WantLock? || s.stops[t].StopSession? || s.stops[t].Join? || s.stops[t].Clear? || s.stops[t].Done? ==>
            s.listener.Closed?)
  {
    ReachableInv(s);
  }
}
