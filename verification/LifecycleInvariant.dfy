/** What every step of every thread keeps. */
module LifecycleInvariant {
  import opened Wrappers
  import opened Lifecycle

  // ---------------------------------------------------------------- the invariant

  /** The registry lists built sessions in increasing id order, the held one being the newest. */
  ghost predicate Ordered(s: State) {
    && (forall k | 0 <= k < |s.registry| :: s.registry[k] < |s.sessions|)
    && (forall j, k | 0 <= j < k < |s.registry| :: s.registry[j] < s.registry[k])
    && (s.accept.Holding? ==>
          && s.accept.sid + 1 == |s.sessions|
          && (forall k | 0 <= k < |s.registry| :: s.registry[k] < s.accept.sid))
  }

  predicate Won(pc: StopPc) { !pc.Enter? && !pc.Refused? }

  predicate InCriticalSection(pc: StopPc) { pc.StopSession? || pc.Join? || pc.Clear? }

  predicate PastListener(pc: StopPc) { InCriticalSection(pc) || pc.WantLock? || pc.Done? }

  /** Exactly one thread wins the compare-exchange of stop(); the others return at once. */
  ghost predicate OneWinner(s: State) {
    && (s.running <==> s.winner.None?)
    && (s.winner.Some? ==> s.winner.value < |s.stops|)
    && (forall t | 0 <= t < |s.stops| :: Won(s.stops[t]) <==> s.winner == Some(t))
    && (s.running ==> s.listener.Listening? && !s.cleared)
    && (s.winner.Some? ==>
          && (s.stops[s.winner.value].ShutListener? ==> s.listener.Listening?)
          && (s.stops[s.winner.value].CloseListener? ==> s.listener.ShutDown?)
          && (PastListener(s.stops[s.winner.value]) ==> s.listener.Closed?)
          && (s.cleared <==> s.stops[s.winner.value].Done?))
  }

  predicate StopInside(s: State) {
    s.winner.Some? && s.winner.value < |s.stops| && InCriticalSection(s.stops[s.winner.value])
  }

  /** Whoever is inside a critical section owns the mutex, alone. */
  ghost predicate Exclusive(s: State) {
    match s.owner
    case Free => !HoldsLock(s.accept) && !StopInside(s)
    case ByAccept => HoldsLock(s.accept) && !StopInside(s)
    case ByStop(t) => !HoldsLock(s.accept) && StopInside(s) && s.winner == Some(t)
  }

  ghost predicate ThreadsStarted(s: State) {
    forall sid | 0 <= sid < |s.sessions| ::
      && (s.sessions[sid].phase.Unstarted? <==> Holds(s.accept, sid) && !s.accept.task.Insert?)
      && (s.sessions[sid].joined ==> s.sessions[sid].phase.Finished?)
  }

  /** Every session is held, registered or joined. */
  ghost predicate Conserved(s: State) {
    forall sid | 0 <= sid < |s.sessions| :: sid in s.registry || Holds(s.accept, sid) || s.sessions[sid].joined
  }

  /** stop() has already joined the k-th worker of the registry. */
  ghost predicate JoinedByStop(s: State, k: int) {
    s.winner.Some? && s.winner.value < |s.stops| &&
    var pc := s.stops[s.winner.value];
    pc.Clear? || (pc.Join? && k < pc.i)
  }

  /** A worker is joined at most once: those in the registry are not, but for stop()'s own loop. */
  ghost predicate JoinedOnce(s: State) {
    && (forall k | 0 <= k < |s.registry| && s.registry[k] < |s.sessions| ::
          s.sessions[s.registry[k]].joined <==> JoinedByStop(s, k))
    && (forall sid | 0 <= sid < |s.sessions| && Holds(s.accept, sid) :: !s.sessions[sid].joined)
  }

  /** A session no stop() has reached: is_active_ falls only at the end of its own loop. */
  predicate Untouched(x: Session) {
    && !x.shut
    && (x.open <==> !x.phase.Finished?)
    && (x.active || x.phase.Check? || x.phase.Leave? || x.phase.Close? || x.phase.Finished?)
    && (x.phase.Close? || x.phase.Finished? ==> !x.active)
  }

  /** The worker ends in a bounded number of its own steps, whatever the network does. */
  predicate Doomed(x: Session) {
    !x.open || (x.phase.Check? && !x.active) || x.phase.Leave? || x.phase.Close? || x.phase.Finished?
  }

  /** stop() is through with the session: its socket has been shut down and closed, or the compare-exchange
      found that its own loop had ended. */
  predicate Settled(x: Session) { (x.shut && !x.open) || (Untouched(x) && !x.active) }

  /** What stop() has done so far to the k-th worker of the registry: the compare-exchange, then the
      shutdown, then the close. */
  ghost predicate Treated(s: State, k: int)
    requires 0 <= k < |s.registry| && s.registry[k] < |s.sessions|
  {
    var x := s.sessions[s.registry[k]];
    if s.owner.ByStop? && s.owner.t < |s.stops| then
      match s.stops[s.owner.t]
      case StopSession(i, stage) =>
        if k < i then Settled(x)
        else if k == i && stage.CloseFd? then x.shut
        else (k == i && stage.Shutdown?) || Untouched(x)
      case _ => Settled(x)
    else Untouched(x)
  }

  ghost predicate StoppedInOrder(s: State) {
    && (forall k | 0 <= k < |s.registry| && s.registry[k] < |s.sessions| :: Treated(s, k))
    && (forall sid | 0 <= sid < |s.sessions| && Holds(s.accept, sid) :: Untouched(s.sessions[sid]))
  }

  /** How many more workers the accept loop can register once is_running_ is false. */
  function Pending(s: State): nat {
    if HoldsConnection(s.accept) || (s.accept.Accepting? && s.listener.Listening?) then 1 else 0
  }

  ghost predicate LateBound(s: State) {
    && (if s.running then s.late == 0 && !s.accept.Exited? else s.late + Pending(s) <= 1)
    && (s.owner.ByStop? ==> (s.heldAtLock <==> HoldsConnection(s.accept)))
    && (s.cleared ==> |s.registry| + Pending(s) == if s.heldAtLock then 1 else 0)
  }

  /** The elements of xs whose flag is set, in order. */
  function Kept<T>(xs: seq<T>, keep: seq<bool>): (r: seq<T>)
    requires |keep| <= |xs|
    ensures |r| <= |keep|
    decreases |keep|
  {
    if keep == [] then []
    else
      var n := |keep| - 1;
      Kept(xs, keep[..n]) + (if keep[n] then [xs[n]] else [])
  }

  predicate CleaningUp(s: State) { s.accept.Holding? && s.accept.task.Cleanup? }

  predicate Reaping(s: State) { s.accept.Holding? && s.accept.task.Reap? }

  /** Cleanup has replaced the part of the registry it has passed by its stable filter. */
  ghost predicate Filtering(s: State) {
    CleaningUp(s) || Reaping(s) ==>
      var before, seen := s.accept.task.before, s.accept.task.seen;
      && |seen| <= |before|
      && s.registry == Kept(before, seen) + before[|seen|..]
      && s.accept.task.i == |Kept(before, seen)|
      && (Reaping(s) ==> |seen| < |before|)
  }

  /** The worker the accept thread is joining has been seen inactive. */
  ghost predicate ReapsEnded(s: State) {
    Reaping(s) ==>
      && s.accept.task.i < |s.registry| && s.registry[s.accept.task.i] < |s.sessions|
      && !s.sessions[s.registry[s.accept.task.i]].active
  }

  /** The parts about flags, program counters and the mutex. */
  ghost predicate Control(s: State) { OneWinner(s) && Exclusive(s) && LateBound(s) }

  /** The parts about who owns which worker. */
  ghost predicate Custody(s: State) { Ordered(s) && ThreadsStarted(s) && Conserved(s) && JoinedOnce(s) }

  /** The parts about what cleanup and stop() have done to the registered sessions. */
  ghost predicate Treatment(s: State) { StoppedInOrder(s) && Filtering(s) && ReapsEnded(s) }

  ghost predicate Inv(s: State) { Control(s) && Custody(s) && Treatment(s) }

  // ---------------------------------------------------------------- what leaves a part alone

  predicate SameHeld(pc: AcceptPc, pc': AcceptPc) {
    && (pc.Holding? <==> pc'.Holding?)
    && (pc.Holding? ==> pc.sid == pc'.sid && (pc.task.Insert? <==> pc'.task.Insert?))
  }

  /** Custody only looks at who is held, registered, started and joined. */
  lemma CustodyFrame(s: State, s': State)
    requires Custody(s)
    requires |s'.sessions| == |s.sessions| && s'.registry == s.registry && SameHeld(s.accept, s'.accept)
    requires forall sid | 0 <= sid < |s.sessions| ::
      var x, x' := s.sessions[sid], s'.sessions[sid];
      && x'.joined == x.joined && x'.phase.Unstarted? == x.phase.Unstarted?
      && (x.phase.Finished? ==> x'.phase.Finished?)
    requires forall k | 0 <= k < |s.registry| :: JoinedByStop(s', k) == JoinedByStop(s, k)
    ensures Custody(s')
  {
  }

  lemma StoppedFrame(s: State, s': State)
    requires StoppedInOrder(s)
    requires s'.sessions == s.sessions && s'.registry == s.registry && SameHeld(s.accept, s'.accept)
    requires forall k | 0 <= k < |s.registry| && s.registry[k] < |s.sessions| :: Treated(s, k) ==> Treated(s', k)
    ensures StoppedInOrder(s')
  {
  }

  // ---------------------------------------------------------------- the accept thread

  lemma AcceptKeepsOneWinner(s: State, c: AcceptChoice, s': State)
    requires OneWinner(s) && AcceptStep(s, c) == Some(s')
    ensures OneWinner(s')
  {
    hide AcceptStep;
    AcceptLeavesStop(s, c, s');
  }

  lemma HoldingKeepsExclusive(s: State, s': State)
    requires Exclusive(s) && s.accept.Holding? && AcceptStep(s, Proceed) == Some(s')
    ensures Exclusive(s')
  {
    hide Without, Joined, CanJoin, StopInside;
    AcceptLeavesStop(s, Proceed, s');
    assert StopInside(s') == StopInside(s) by { SameStops(s, s'); }
  }

  lemma SameStops(s: State, s': State)
    requires s'.stops == s.stops && s'.winner == s.winner
    ensures StopInside(s') == StopInside(s)
  {
  }

  lemma OutsideKeepsExclusive(s: State, c: AcceptChoice, s': State)
    requires Exclusive(s) && !s.accept.Holding? && AcceptStep(s, c) == Some(s')
    ensures Exclusive(s')
  {
  }

  /** The accept thread never writes what only stop() writes. */
  lemma AcceptLeavesStop(s: State, c: AcceptChoice, s': State)
    requires AcceptStep(s, c) == Some(s')
    ensures s'.stops == s.stops && s'.winner == s.winner
    ensures s'.running == s.running && s'.listener == s.listener && s'.cleared == s.cleared
    ensures HoldsLock(s.accept) || s.owner == s'.owner || (s.owner.Free? && s'.owner.ByAccept?)
  {
  }

  lemma AcceptKeepsLateBound(s: State, c: AcceptChoice, s': State)
    requires OneWinner(s) && Exclusive(s) && LateBound(s) && AcceptStep(s, c) == Some(s')
    ensures LateBound(s')
  {
  }

  lemma CleanupFilters(s: State, s': State)
    requires CleaningUp(s) && Filtering(s) && Ordered(s) && AcceptStep(s, Proceed) == Some(s')
    ensures Filtering(s') && ReapsEnded(s')
  {
    if s.accept.task.i < |s.registry| {
      CursorAtNext(s);
      if s.sessions[s.registry[s.accept.task.i]].active {
        CleanupPasses(s, s');
      }
    }
  }

  lemma AcceptedKeeps(s: State, s': State)
    requires Inv(s) && s.accept.Accepted? && AcceptStep(s, Proceed) == Some(s')
    ensures Custody(s') && Treatment(s')
  {
    assert s'.sessions == s.sessions + [NEW_SESSION];
  }

  lemma SpawnKeeps(s: State, s': State)
    requires Inv(s) && s.accept.Holding? && s.accept.task.Spawn? && AcceptStep(s, Proceed) == Some(s')
    ensures Custody(s') && Treatment(s')
  {
  }

  lemma InsertKeeps(s: State, s': State)
    requires Inv(s) && s.accept.Holding? && s.accept.task.Insert? && AcceptStep(s, Proceed) == Some(s')
    ensures Custody(s') && Treatment(s')
  {
    hide Inv, Custody, Treatment, AcceptStep;
    InsertKeepsCustody(s, s');
    InsertKeepsTreatment(s, s');
  }

  lemma InsertKeepsCustody(s: State, s': State)
    requires Inv(s) && s.accept.Holding? && s.accept.task.Insert? && AcceptStep(s, Proceed) == Some(s')
    ensures Custody(s')
  {
    hide LateBound, Treatment;
    assert s'.registry == s.registry + [s.accept.sid];
  }

  lemma InsertKeepsTreatment(s: State, s': State)
    requires Inv(s) && s.accept.Holding? && s.accept.task.Insert? && AcceptStep(s, Proceed) == Some(s')
    ensures Treatment(s')
  {
    hide LateBound, ThreadsStarted, Conserved, JoinedOnce;
    assert s'.registry == s.registry + [s.accept.sid];
  }

  lemma KeptExtends<T>(xs: seq<T>, keep: seq<bool>, b: bool)
    requires |keep| < |xs|
    ensures Kept(xs, keep + [b]) == Kept(xs, keep) + (if b then [xs[|keep|]] else [])
  {
    assert (keep + [b])[..|keep|] == keep;
  }

  /** The registry entry under the cursor is the next one of the snapshot. */
  lemma CursorAtNext(s: State)
    requires Filtering(s) && (CleaningUp(s) || Reaping(s)) && s.accept.task.i < |s.registry|
    ensures var task := s.accept.task;
      && |task.seen| < |task.before|
      && s.registry[task.i] == task.before[|task.seen|]
      && s.registry[task.i + 1..] == task.before[|task.seen| + 1..]
      && s.registry[..task.i] == Kept(task.before, task.seen)
  {
  }

  lemma CleanupPasses(s: State, s': State)
    requires CleaningUp(s) && Filtering(s)
    requires s.accept.task.i < |s.registry| && s.registry[s.accept.task.i] < |s.sessions|
    requires s.sessions[s.registry[s.accept.task.i]].active && AcceptStep(s, Proceed) == Some(s')
    ensures Filtering(s')
  {
    CursorAtNext(s);
    KeptExtends(s.accept.task.before, s.accept.task.seen, true);
    var rest := s.accept.task.before[|s.accept.task.seen|..];
    assert rest == [rest[0]] + rest[1..];
  }

  lemma ReapFilters(s: State, s': State)
    requires Reaping(s) && Filtering(s) && ReapsEnded(s) && AcceptStep(s, Proceed) == Some(s')
    ensures Filtering(s') && ReapsEnded(s')
  {
    CursorAtNext(s);
    KeptExtends(s.accept.task.before, s.accept.task.seen, false);
  }

  lemma ReapOrders(s: State, s': State)
    requires Reaping(s) && Ordered(s) && ThreadsStarted(s) && AcceptStep(s, Proceed) == Some(s')
    ensures Ordered(s') && ThreadsStarted(s')
  {
  }

  lemma ReapConserves(s: State, s': State)
    requires Reaping(s) && Ordered(s) && Conserved(s) && AcceptStep(s, Proceed) == Some(s')
    ensures Conserved(s')
  {
    var i := s.accept.task.i;
    forall sid | 0 <= sid < |s'.sessions| && sid in s.registry && sid != s.registry[i]
      ensures sid in s'.registry
    {
      var k :| 0 <= k < |s.registry| && s.registry[k] == sid;
      assert s'.registry[if k < i then k else k - 1] == sid;
    }
  }

  lemma ReapJoins(s: State, s': State)
    requires Reaping(s) && Ordered(s) && Exclusive(s) && OneWinner(s) && JoinedOnce(s) && StoppedInOrder(s)
    requires AcceptStep(s, Proceed) == Some(s')
    ensures JoinedOnce(s') && StoppedInOrder(s')
  {
    assert s.owner.ByAccept?;
  }

  lemma IdleKeeps(s: State, s': State)
    requires Custody(s) && StoppedInOrder(s) && s'.winner == s.winner && s'.stops == s.stops
    requires s'.owner == s.owner || (!s.owner.ByStop? && !s'.owner.ByStop?)
    requires s'.sessions == s.sessions && s'.registry == s.registry && SameHeld(s.accept, s'.accept)
    ensures Custody(s') && StoppedInOrder(s')
  {
    CustodyFrame(s, s');
    StoppedFrame(s, s');
  }

  /** Before and during cleanup, up to a reap, nothing but the mutex and the cursor moves. */
  lemma IdleStep(s: State, s': State)
    requires s.accept.Holding? && AcceptStep(s, Proceed) == Some(s')
    requires s.accept.task.WantCleanup? || s.accept.task.Cleanup? || s.accept.task.WantRegister?
    requires Exclusive(s)
    ensures s'.sessions == s.sessions && s'.registry == s.registry && SameHeld(s.accept, s'.accept)
    ensures s'.winner == s.winner && s'.stops == s.stops
    ensures s'.owner == s.owner || (!s.owner.ByStop? && !s'.owner.ByStop?)
    ensures !s.accept.task.Cleanup? && Filtering(s) ==> Filtering(s') && ReapsEnded(s')
  {
  }

  lemma HoldingKeeps(s: State, s': State)
    requires Inv(s) && s.accept.Holding? && AcceptStep(s, Proceed) == Some(s')
    ensures Custody(s') && Treatment(s')
  {
    hide Filtering, ReapsEnded, StoppedInOrder, AcceptStep, Ordered, ThreadsStarted, Conserved, JoinedOnce, LateBound, Exclusive, OneWinner;
    match s.accept.task
    case Spawn => SpawnKeeps(s, s');
    case Insert => InsertKeeps(s, s');
    case Reap(_, _, _) =>
      ReapFilters(s, s');
      ReapOrders(s, s');
      ReapConserves(s, s');
      ReapJoins(s, s');
    case Cleanup(_, _, _) =>
      CleanupFilters(s, s');
      IdleStep(s, s');
      IdleKeeps(s, s');
    case WantCleanup =>
      IdleStep(s, s');
      IdleKeeps(s, s');
    case WantRegister =>
      IdleStep(s, s');
      IdleKeeps(s, s');
  }

  lemma OutsideKeeps(s: State, c: AcceptChoice, s': State)
    requires Inv(s) && !s.accept.Holding? && AcceptStep(s, c) == Some(s')
    ensures Custody(s') && Treatment(s')
  {
    AcceptLeavesStop(s, c, s');
    if s.accept.Accepted? {
      AcceptedKeeps(s, s');
    } else {
      IdleKeeps(s, s');
    }
  }

  lemma AcceptKeeps(s: State, c: AcceptChoice, s': State)
    requires Inv(s) && AcceptStep(s, c) == Some(s')
    ensures Inv(s')
  {
    AcceptKeepsOneWinner(s, c, s');
    AcceptKeepsLateBound(s, c, s');
    if s.accept.Holding? {
      HoldingKeepsExclusive(s, s');
      HoldingKeeps(s, s');
    } else {
      OutsideKeepsExclusive(s, c, s');
      OutsideKeeps(s, c, s');
    }
  }

  // ---------------------------------------------------------------- threads inside stop()

  lemma StopKeepsOneWinner(s: State, t: nat, s': State)
    requires t < |s.stops| && OneWinner(s) && StopStep(s, t) == Some(s')
    ensures OneWinner(s')
  {
  }

  lemma StopKeepsExclusive(s: State, t: nat, s': State)
    requires t < |s.stops| && OneWinner(s) && Exclusive(s) && StopStep(s, t) == Some(s')
    ensures Exclusive(s')
  {
  }

  lemma StopKeepsLateBound(s: State, t: nat, s': State)
    requires t < |s.stops| && OneWinner(s) && Exclusive(s) && LateBound(s) && StopStep(s, t) == Some(s')
    ensures LateBound(s')
  {
  }

  /** Inside its critical section stop() excludes cleanup. */
  lemma StopExcludesCleanup(s: State, t: nat)
    requires t < |s.stops| && Control(s) && InCriticalSection(s.stops[t])
    ensures s.winner == Some(t) && s.owner == ByStop(t) && !CleaningUp(s) && !Reaping(s)
  {
  }

  lemma StopIdleKeeps(s: State, t: nat, s': State)
    requires t < |s.stops| && Inv(s) && !InCriticalSection(s.stops[t]) && StopStep(s, t) == Some(s')
    requires OneWinner(s')
    ensures Custody(s') && Treatment(s')
  {
    assert s'.sessions == s.sessions && s'.registry == s.registry && s'.accept == s.accept;
    CustodyFrame(s, s');
    StoppedFrame(s, s');
  }

  lemma StopSessionKeepsCustody(s: State, t: nat, s': State)
    requires t < |s.stops| && s.winner == Some(t) && Custody(s) && s.stops[t].StopSession? && StopStep(s, t) == Some(s')
    ensures Custody(s')
  {
    hide Ordered, ThreadsStarted, Conserved, JoinedOnce;
    assert s'.registry == s.registry && s'.accept == s.accept && s'.winner == s.winner;
    CustodyFrame(s, s');
  }

  /** stop() works on one session at a time, in registry order. */
  lemma StopSessionTreats(s: State, t: nat, s': State)
    requires t < |s.stops| && s.stops[t].StopSession? && StopStep(s, t) == Some(s')
    requires Ordered(s) && s.owner == ByStop(t) && StoppedInOrder(s)
    ensures StoppedInOrder(s')
  {
    var i := s.stops[t].i;
    forall k | 0 <= k < |s'.registry|
      ensures Treated(s', k)
    {
      assert Treated(s, k);
      assert k != i && i < |s.registry| ==> s'.sessions[s.registry[k]] == s.sessions[s.registry[k]];
    }
  }

  lemma JoinKeepsCustody(s: State, t: nat, s': State)
    requires t < |s.stops| && s.winner == Some(t) && Custody(s) && s.stops[t].Join? && StopStep(s, t) == Some(s')
    ensures Custody(s')
  {
    var i := s.stops[t].i;
    forall k | 0 <= k < |s'.registry|
      ensures s'.sessions[s'.registry[k]].joined <==> JoinedByStop(s', k)
    {
      assert k != i && i < |s.registry| ==> s.registry[k] != s.registry[i];
    }
  }

  lemma JoinTreats(s: State, t: nat, s': State)
    requires t < |s.stops| && s.stops[t].Join? && StopStep(s, t) == Some(s')
    requires Ordered(s) && s.owner == ByStop(t) && StoppedInOrder(s)
    ensures StoppedInOrder(s')
  {
    forall k | 0 <= k < |s'.registry|
      ensures Treated(s', k)
    {
      assert Treated(s, k);
    }
  }

  lemma ClearKeeps(s: State, t: nat, s': State)
    requires t < |s.stops| && s.winner == Some(t) && s.stops[t].Clear? && StopStep(s, t) == Some(s')
    requires Custody(s) && StoppedInOrder(s)
    ensures Custody(s') && StoppedInOrder(s')
  {
    forall sid | 0 <= sid < |s.sessions| && sid in s.registry
      ensures s.sessions[sid].joined
    {
      var k :| 0 <= k < |s.registry| && s.registry[k] == sid;
      assert JoinedByStop(s, k);
    }
  }

  lemma StopKeeps(s: State, t: nat, s': State)
    requires t < |s.stops| && Inv(s) && StopStep(s, t) == Some(s')
    ensures Inv(s')
  {
    StopKeepsOneWinner(s, t, s');
    StopKeepsExclusive(s, t, s');
    StopKeepsLateBound(s, t, s');
    if InCriticalSection(s.stops[t]) {
      StopExcludesCleanup(s, t);
      assert s'.accept == s.accept;
      match s.stops[t]
      case StopSession(_, _) =>
        StopSessionKeepsCustody(s, t, s');
        StopSessionTreats(s, t, s');
      case Join(_) =>
        JoinKeepsCustody(s, t, s');
        JoinTreats(s, t, s');
      case Clear =>
        ClearKeeps(s, t, s');
    } else {
      StopIdleKeeps(s, t, s');
    }
  }

  // ---------------------------------------------------------------- workers and callers of stop()

  /** A worker's step keeps what its session's state promises about the rest of its life. */
  lemma WorkerStepKeeps(x: Session, c: WorkerChoice, x': Session)
    requires WorkerStep(x, c) == Some(x')
    ensures Untouched(x) ==> Untouched(x')
    ensures Doomed(x) ==> Doomed(x')
    ensures Settled(x) ==> Settled(x')
    ensures x'.shut == x.shut
    ensures x'.joined == x.joined && (x.phase.Finished? ==> x'.phase.Finished?)
    ensures !x.phase.Unstarted? && !x'.phase.Unstarted?
    ensures Untouched(x) && !x.active ==> !x'.active
  {
  }

  lemma WorkKeepsCustody(s: State, w: nat, x: Session, s': State)
    requires Custody(s) && w < |s.sessions| && s' == s.(sessions := s.sessions[w := x])
    requires x.joined == s.sessions[w].joined && (s.sessions[w].phase.Finished? ==> x.phase.Finished?)
    requires !s.sessions[w].phase.Unstarted? && !x.phase.Unstarted?
    ensures Custody(s')
  {
    CustodyFrame(s, s');
  }

  lemma WorkKeepsTreatment(s: State, w: nat, x: Session, s': State)
    requires Ordered(s) && Treatment(s) && Exclusive(s)
    requires w < |s.sessions| && s' == s.(sessions := s.sessions[w := x])
    requires Untouched(s.sessions[w]) ==> Untouched(x)
    requires Settled(s.sessions[w]) ==> Settled(x)
    requires x.shut == s.sessions[w].shut
    requires Untouched(s.sessions[w]) && !s.sessions[w].active ==> !x.active
    ensures Treatment(s')
  {
    forall k | 0 <= k < |s'.registry|
      ensures Treated(s', k)
    {
      assert Treated(s, k);
    }
  }

  lemma WorkKeeps(s: State, w: nat, c: WorkerChoice, s': State)
    requires Inv(s) && Step(s, Work(w, c)) == Some(s')
    ensures Inv(s')
  {
    var x := s'.sessions[w];
    WorkerStepKeeps(s.sessions[w], c, x);
    WorkKeepsCustody(s, w, x, s');
    WorkKeepsTreatment(s, w, x, s');
  }

  lemma CallStopKeepsControl(s: State, s': State)
    requires Control(s) && Step(s, CallStop) == Some(s')
    ensures Control(s')
  {
    assert s'.stops == s.stops + [Enter];
  }

  lemma CallStopKeepsPlaces(s: State, s': State)
    requires Control(s) && Step(s, CallStop) == Some(s')
    ensures forall k :: JoinedByStop(s', k) == JoinedByStop(s, k)
    ensures forall k | 0 <= k < |s.registry| && s.registry[k] < |s.sessions| :: Treated(s', k) == Treated(s, k)
    ensures s' == s.(stops := s'.stops)
  {
    assert s'.stops == s.stops + [Enter];
  }

  lemma CallStopKeeps(s: State, s': State)
    requires Inv(s) && Step(s, CallStop) == Some(s')
    ensures Inv(s')
  {
    hide Step, JoinedByStop, Treated, Control;
    CallStopKeepsControl(s, s');
    CallStopKeepsPlaces(s, s');
    CustodyFrame(s, s');
    StoppedFrame(s, s');
  }

  // ---------------------------------------------------------------- every run

  lemma StepKeeps(s: State, a: Action, s': State)
    requires Inv(s) && Step(s, a) == Some(s')
    ensures Inv(s')
  {
    match a
    case Accept(c) => AcceptKeeps(s, c, s');
    case CallStop => CallStopKeeps(s, s');
    case Stop(t) => StopKeeps(s, t, s');
    case Work(w, c) => WorkKeeps(s, w, c, s');
  }

  lemma {:induction false} RunKeeps(s: State, actions: seq<Action>, s': State)
    requires Inv(s) && Run(s, actions) == Some(s')
    ensures Inv(s')
    decreases |actions|
  {
    if actions != [] {
      var next := Step(s, actions[0]).value;
      StepKeeps(s, actions[0], next);
      RunKeeps(next, actions[1..], s');
    }
  }

  lemma ReachableInv(s: State)
    requires Reachable(s)
    ensures Inv(s)
  {
    var actions :| Run(INITIAL, actions) == Some(s);
    RunKeeps(INITIAL, actions, s);
  }
}
