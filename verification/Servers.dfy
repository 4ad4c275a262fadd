/** `class Server`: the registry as its methods change it.

What other threads do meanwhile enters as parameters: when is_running_ has been cleared, and which
sessions is_active() reports. Module Lifecycle has all interleavings. */
module Servers {
  import Lifecycle
  import opened LifecycleInvariant

  /** The registry's bookkeeping: the next session id, the workers in order, the threads joined so
      far in order, the sessions stopped so far in order. Ids count from 0 here, from 1 in the code. */
  datatype Book = Book(next: nat, workers: seq<nat>, joined: seq<nat>, stopped: seq<nat>)

  /** What one round of the accept loop meets: whether is_running_ is false when it looks, whether
      accept() yields a connection, if not, whether is_running_ is false by then, and the sessions
      is_active() reports during cleanup. When the rounds run out the server has been stopped. */
  datatype Round = Round(stopped: bool, connection: bool, stoppedMeanwhile: bool, active: set<nat>)

  function Flags(workers: seq<nat>, active: set<nat>): (flags: seq<bool>)
    ensures |flags| == |workers| && forall i | 0 <= i < |flags| :: flags[i] == (workers[i] in active)
  {
    seq(|workers|, i requires 0 <= i < |workers| => workers[i] in active)
  }

  function Negated(flags: seq<bool>): (r: seq<bool>)
    ensures |r| == |flags| && forall i | 0 <= i < |r| :: r[i] == !flags[i]
  {
    seq(|flags|, i requires 0 <= i < |flags| => !flags[i])
  }

  /** cleanup_finished_sessions: a stable filter, the rest joined in the same order. */
  function Cleaned(b: Book, active: set<nat>): Book {
    var flags := Flags(b.workers, active);
    b.(workers := Kept(b.workers, flags), joined := b.joined + Kept(b.workers, Negated(flags)))
  }

  /** One session accepted. */
  function Admitted(b: Book, active: set<nat>): Book {
    var cleaned := Cleaned(b, active);
    cleaned.(next := b.next + 1, workers := cleaned.workers + [b.next])
  }

  /** accept_loop, until it sees is_running_ false. */
  function Admissions(b: Book, rounds: seq<Round>): Book
    decreases |rounds|
  {
    if rounds == [] || rounds[0].stopped then b
    else if rounds[0].connection then Admissions(Admitted(b, rounds[0].active), rounds[1..])
    else if rounds[0].stoppedMeanwhile then b
    else Admissions(b, rounds[1..])
  }

  /** The critical section of stop: every registered session stopped, every thread joined. */
  function Emptied(b: Book): Book {
    Book(b.next, [], b.joined + b.workers, b.stopped + b.workers)
  }

  // ---------------------------------------------------------------- no worker is lost or joined twice

  predicate Increasing(ids: seq<nat>) { forall i, j | 0 <= i < j < |ids| :: ids[i] < ids[j] }

  function Below(n: nat): (r: multiset<nat>) { if n == 0 then multiset{} else Below(n - 1) + multiset{n - 1 as nat} }

  /** Every id issued is registered or joined, in all exactly once, and the registry is in order. */
  predicate Accounted(b: Book) {
    && Increasing(b.workers)
    && multiset(b.workers) + multiset(b.joined) == Below(b.next)
  }

  /** What holds even while the accept loop holds a session: no id is in two places, nor twice in one. */
  ghost predicate Tidy(b: Book) {
    && Increasing(b.workers)
    && (forall k :: multiset(b.workers)[k] + multiset(b.joined)[k] <= 1)
  }

  lemma {:induction false} BelowCounts(n: nat, k: nat)
    ensures Below(n)[k] == if k < n then 1 else 0
  {
    if n > 0 { BelowCounts(n - 1, k); }
  }

  /** A conserved registry and its joined threads have no id in common, and no id twice. */
  lemma OnePlaceEach(b: Book, k: nat)
    requires Accounted(b)
    ensures multiset(b.workers)[k] + multiset(b.joined)[k] == if k < b.next then 1 else 0
    ensures k in b.workers ==> k !in b.joined && k < b.next
  {
    BelowCounts(b.next, k);
    assert multiset(b.workers)[k] + multiset(b.joined)[k] == Below(b.next)[k];
    if k in b.workers { assert k in multiset(b.workers); }
    if k in b.joined { assert k in multiset(b.joined); }
  }

  lemma NothingKept(xs: seq<nat>)
    ensures Kept(xs, []) == []
  {
  }

  lemma KeptLast(xs: seq<nat>, keep: seq<bool>)
    requires 0 < |keep| <= |xs|
    ensures var n := |keep| - 1;
      && Kept(xs, keep) == (if keep[n] then Kept(xs, keep[..n]) + [xs[n]] else Kept(xs, keep[..n]))
      && Kept(xs, Negated(keep)) ==
           if keep[n] then Kept(xs, Negated(keep[..n])) else Kept(xs, Negated(keep[..n])) + [xs[n]]
  {
    assert Negated(keep)[..|keep| - 1] == Negated(keep[..|keep| - 1]);
  }

  /** What the filter keeps and what it drops make up the part it has passed. */
  lemma {:induction false} KeptSplits(xs: seq<nat>, keep: seq<bool>)
    requires |keep| <= |xs|
    ensures multiset(Kept(xs, keep)) + multiset(Kept(xs, Negated(keep))) == multiset(xs[..|keep|])
    decreases |keep|
  {
    hide Kept;
    if keep == [] {
      assert Negated(keep) == [];
      NothingKept(xs);
    } else {
      var n := |keep| - 1;
      var kept, dropped := Kept(xs, keep[..n]), Kept(xs, Negated(keep[..n]));
      KeptSplits(xs, keep[..n]);
      assert xs[..|keep|] == xs[..n] + [xs[n]];
      KeptLast(xs, keep);
      if keep[n] {
        assert multiset(kept + [xs[n]]) == multiset(kept) + multiset{xs[n]};
      } else {
        assert multiset(dropped + [xs[n]]) == multiset(dropped) + multiset{xs[n]};
      }
    }
  }

  lemma AppendIncreases(ids: seq<nat>, id: nat)
    requires Increasing(ids) && forall x | x in ids :: x < id
    ensures Increasing(ids + [id])
  {
    forall i | 0 <= i < |ids| ensures ids[i] < id {
      assert ids[i] in ids;
    }
  }

  lemma {:induction false} KeptIncreasing(xs: seq<nat>, keep: seq<bool>)
    requires |keep| <= |xs| && Increasing(xs)
    ensures Increasing(Kept(xs, keep))
    ensures forall x | x in Kept(xs, keep) :: x in xs[..|keep|]
    decreases |keep|
  {
    if keep != [] {
      var n := |keep| - 1;
      KeptIncreasing(xs, keep[..n]);
      assert xs[..|keep|] == xs[..n] + [xs[n]];
      forall x | x in Kept(xs, keep[..n]) ensures x < xs[n] {
        assert x in xs[..n];
      }
      AppendIncreases(Kept(xs, keep[..n]), xs[n]);
    }
  }

  lemma CleanedConserves(b: Book, active: set<nat>)
    requires Accounted(b)
    ensures Accounted(Cleaned(b, active)) && Cleaned(b, active).next == b.next
    ensures forall k | k in Cleaned(b, active).workers :: k in b.workers
  {
    var flags := Flags(b.workers, active);
    KeptIncreasing(b.workers, flags);
    KeptSplits(b.workers, flags);
    assert b.workers[..|flags|] == b.workers;
  }

  lemma AdmittedConserves(b: Book, active: set<nat>)
    requires Accounted(b)
    ensures Accounted(Admitted(b, active))
  {
    hide Cleaned;
    var c := Cleaned(b, active);
    CleanedConserves(b, active);
    forall k | k in c.workers ensures k < b.next { OnePlaceEach(c, k); }
    AppendIncreases(c.workers, b.next);
    assert Below(b.next + 1) == Below(b.next) + multiset{b.next};
  }

  /** The accept loop conserves workers through any rounds. */
  lemma {:induction false} AdmissionsConserve(b: Book, rounds: seq<Round>)
    requires Accounted(b)
    ensures Accounted(Admissions(b, rounds))
    decreases |rounds|
  {
    hide Accounted, Admitted;
    if rounds != [] && !rounds[0].stopped {
      if rounds[0].connection {
        AdmittedConserves(b, rounds[0].active);
        AdmissionsConserve(Admitted(b, rounds[0].active), rounds[1..]);
      } else {
        AdmissionsConserve(b, rounds[1..]);
      }
    }
  }

  /** The ids issued that the accept loop does not hold: all, or all but the newest. */
  function Placed(b: Book, held: bool): Book { if held && b.next > 0 then b.(next := b.next - 1) else b }

  /** stop() joins what is registered, so that every id issued has been joined, exactly once - but for
      the one session the accept loop may hold meanwhile, which has not. */
  lemma EmptiedJoinsAll(b: Book, held: bool, k: nat)
    requires Accounted(Placed(b, held)) && (held ==> b.next > 0)
    ensures Accounted(Placed(Emptied(b), held))
    ensures multiset(Emptied(b).joined)[k] == if k < b.next && !(held && k == b.next - 1) then 1 else 0
  {
    OnePlaceEach(Placed(Emptied(b), held), k);
  }

  // ---------------------------------------------------------------- who is registered, joined and stopped

  lemma {:induction false} KeptWhich(xs: seq<nat>, keep: seq<bool>, x: nat)
    requires |keep| <= |xs|
    ensures x in Kept(xs, keep) <==> exists i :: 0 <= i < |keep| && keep[i] && xs[i] == x
    decreases |keep|
  {
    if keep != [] {
      var n := |keep| - 1;
      KeptWhich(xs, keep[..n], x);
      assert keep[n] && xs[n] == x ==> x in Kept(xs, keep);
      assert forall i | 0 <= i < n :: keep[..n][i] == keep[i];
    }
  }

  /** A cleanup joins exactly the workers whose session it sees inactive, in registry order, and keeps
      exactly the others, in order. */
  lemma CleanedExactly(b: Book, active: set<nat>)
    requires Increasing(b.workers)
    ensures var c := Cleaned(b, active);
      && c.next == b.next && c.stopped == b.stopped
      && Increasing(c.workers) && (forall id :: id in c.workers <==> id in b.workers && id in active)
      && b.joined <= c.joined
      && var dropped := c.joined[|b.joined|..];
      Increasing(dropped) && forall id :: id in dropped <==> id in b.workers && id !in active
  {
    hide Kept;
    var flags := Flags(b.workers, active);
    KeptIncreasing(b.workers, flags);
    KeptIncreasing(b.workers, Negated(flags));
    forall id: nat ensures id in Kept(b.workers, flags) <==> id in b.workers && id in active {
      KeptWhich(b.workers, flags, id);
    }
    forall id: nat ensures id in Kept(b.workers, Negated(flags)) <==> id in b.workers && id !in active {
      KeptWhich(b.workers, Negated(flags), id);
    }
    assert Cleaned(b, active).joined[|b.joined|..] == Kept(b.workers, Negated(flags));
  }

  /** The accept loop ends with this round. */
  predicate Ends(round: Round) { round.stopped || (!round.connection && round.stoppedMeanwhile) }

  /** What the cleanups see that the accept loop runs, one for each connection before it ends. */
  function Connections(rounds: seq<Round>): seq<set<nat>> {
    if rounds == [] || Ends(rounds[0]) then []
    else (if rounds[0].connection then [rounds[0].active] else []) + Connections(rounds[1..])
  }

  /** The id has been issued, and no cleanup from then on has seen its session inactive. */
  predicate Stays(b: Book, cleanups: seq<set<nat>>, id: nat) {
    if id < b.next then id in b.workers && forall j | 0 <= j < |cleanups| :: id in cleanups[j]
    else id < b.next + |cleanups| && forall j | id - b.next < j < |cleanups| :: id in cleanups[j]
  }

  /** Every connection the accept loop takes gets the next id and is registered, last; and at the end
      exactly those workers are registered that no later cleanup has seen inactive. */
  lemma {:induction false} AdmissionsExactly(b: Book, rounds: seq<Round>)
    requires Accounted(b)
    ensures var r, cleanups := Admissions(b, rounds), Connections(rounds);
      && Accounted(r) && r.stopped == b.stopped && r.next == b.next + |cleanups|
      && (forall id :: id in r.workers <==> Stays(b, cleanups, id))
      && (cleanups != [] ==> r.workers != [] && r.workers[|r.workers| - 1] == r.next - 1)
    decreases |rounds|
  {
    hide Accounted, Admitted, Stays;
    AdmissionsConserve(b, rounds);
    if rounds == [] || Ends(rounds[0]) {
      forall id: nat ensures id in b.workers <==> Stays(b, [], id) { StaysAtOnce(b, id); }
    } else if rounds[0].connection {
      var active, more := rounds[0].active, Connections(rounds[1..]);
      var next := Admitted(b, active);
      AdmittedConserves(b, active);
      AdmissionsExactly(next, rounds[1..]);
      forall id: nat ensures Stays(next, more, id) <==> Stays(b, [active] + more, id) { StaysOn(b, active, more, id); }
      AdmittedLast(b, active);
      if more == [] { NoConnections(next, rounds[1..]); }
    } else {
      AdmissionsExactly(b, rounds[1..]);
      assert [] + Connections(rounds[1..]) == Connections(rounds[1..]);
    }
  }

  lemma StaysAtOnce(b: Book, id: nat)
    requires Accounted(b)
    ensures Stays(b, [], id) <==> id in b.workers
  {
    OnePlaceEach(b, id);
  }

  lemma AdmittedLast(b: Book, active: set<nat>)
    ensures var r := Admitted(b, active);
      r.stopped == b.stopped && r.next == b.next + 1 && r.workers != [] && r.workers[|r.workers| - 1] == b.next
  {
  }

  lemma StaysOn(b: Book, active: set<nat>, more: seq<set<nat>>, id: nat)
    requires Accounted(b)
    ensures Stays(Admitted(b, active), more, id) <==> Stays(b, [active] + more, id)
  {
    hide Cleaned, Accounted;
    InIncreasingOrder(b);
    CleanedExactly(b, active);
    OnePlaceEach(b, id);
    var cleanups := [active] + more;
    assert cleanups[0] == active && forall j | 0 < j < |cleanups| :: cleanups[j] == more[j - 1];
    assert forall j | 0 <= j < |more| :: more[j] == cleanups[j + 1];
  }

  lemma InIncreasingOrder(b: Book)
    ensures Accounted(b) ==> Increasing(b.workers)
  {
  }

  lemma {:induction false} NoConnections(b: Book, rounds: seq<Round>)
    requires Connections(rounds) == []
    ensures Admissions(b, rounds) == b
    decreases |rounds|
  {
    if rounds != [] && !Ends(rounds[0]) { NoConnections(b, rounds[1..]); }
  }

  /** stop() stops every registered session, in registry order, and joins every registered thread, in that
      order too; it registers nothing and forgets nothing. */
  lemma EmptiedStopsAll(b: Book)
    ensures var e := Emptied(b);
      && e.next == b.next && e.workers == []
      && b.stopped <= e.stopped && e.stopped[|b.stopped|..] == b.workers
      && b.joined <= e.joined && e.joined[|b.joined|..] == b.workers
      && forall id | id in b.workers :: id in e.stopped && id in e.joined
  {
  }

  // ---------------------------------------------------------------- steps of the loops

  lemma KeptNone(xs: seq<nat>, keep: seq<bool>)
    requires |keep| == |xs|
    ensures Kept(xs, keep[..0]) == [] && Kept(xs, Negated(keep)[..0]) == []
  {
  }

  lemma KeptNext(xs: seq<nat>, keep: seq<bool>, n: nat)
    requires n < |keep| == |xs|
    ensures Kept(xs, keep[..n + 1]) == Kept(xs, keep[..n]) + if keep[n] then [xs[n]] else []
    ensures Kept(xs, Negated(keep)[..n + 1]) == Kept(xs, Negated(keep)[..n]) + if keep[n] then [] else [xs[n]]
    ensures xs[n..] == [xs[n]] + xs[n + 1..]
  {
    KeptExtends(xs, keep[..n], keep[n]);
    KeptExtends(xs, Negated(keep)[..n], !keep[n]);
    assert keep[..n] + [keep[n]] == keep[..n + 1];
    assert Negated(keep)[..n] + [!keep[n]] == Negated(keep)[..n + 1];
  }

  /** Where the erasing loop is after n of the workers, and its cursor. */
  function Passed(b: Book, flags: seq<bool>, n: nat): Book
    requires n <= |flags| == |b.workers|
  {
    b.(workers := Kept(b.workers, flags[..n]) + b.workers[n..], joined := b.joined + Kept(b.workers, Negated(flags)[..n]))
  }

  function Cursor(b: Book, flags: seq<bool>, n: nat): nat
    requires n <= |flags| == |b.workers|
  {
    |Kept(b.workers, flags[..n])|
  }

  lemma PassBegins(b: Book, flags: seq<bool>)
    requires |flags| == |b.workers|
    ensures Passed(b, flags, 0) == b && Cursor(b, flags, 0) == 0
  {
    KeptNone(b.workers, flags);
  }

  lemma PassEnds(b: Book, active: set<nat>)
    ensures Passed(b, Flags(b.workers, active), |b.workers|) == Cleaned(b, active)
  {
    var flags := Flags(b.workers, active);
    assert flags[..|flags|] == flags && Negated(flags)[..|flags|] == Negated(flags);
  }

  lemma PassLength(b: Book, flags: seq<bool>, n: nat)
    requires n <= |flags| == |b.workers|
    ensures |Passed(b, flags, n).workers| == Cursor(b, flags, n) + |b.workers| - n
  {
  }

  lemma PassNext(b: Book, flags: seq<bool>, n: nat)
    requires n < |flags| == |b.workers|
    ensures var p, it := Passed(b, flags, n), Cursor(b, flags, n);
      && it < |p.workers| && p.workers[it] == b.workers[n]
      && Cursor(b, flags, n + 1) == (if flags[n] then it + 1 else it)
      && Passed(b, flags, n + 1) == if flags[n] then p else
           p.(workers := Lifecycle.Without(p.workers, it), joined := p.joined + [b.workers[n]])
  {
    hide Kept;
    KeptNext(b.workers, flags, n);
    var kept, rest := Kept(b.workers, flags[..n]), b.workers[n + 1..];
    assert (kept + ([b.workers[n]] + rest))[|kept| + 1..] == rest;
    assert (kept + [b.workers[n]]) + rest == kept + ([b.workers[n]] + rest);
  }

  /** The thread under the cursor has not been joined, before this pass or in it. */
  lemma NotPassedJoined(b: Book, flags: seq<bool>, n: nat)
    requires Tidy(b) && n < |b.workers| == |flags|
    ensures b.workers[n] !in Passed(b, flags, n).joined
  {
    InOnePlace(b, n);
    KeptIncreasing(b.workers, Negated(flags)[..n]);
  }

  lemma InOnePlace(b: Book, n: nat)
    requires Tidy(b) && n < |b.workers|
    ensures b.workers[n] !in b.joined
  {
    var k := b.workers[n];
    assert k in multiset(b.workers);
    assert k in b.joined ==> k in multiset(b.joined);
  }

  lemma AccountedIsTidy(b: Book, next: nat)
    requires Accounted(b)
    ensures Tidy(b.(next := next))
  {
    forall k: nat ensures multiset(b.workers)[k] + multiset(b.joined)[k] <= 1 { OnePlaceEach(b, k); }
  }

  lemma CleanedIgnoresNext(b: Book, next: nat, active: set<nat>)
    ensures Cleaned(b.(next := next), active) == Cleaned(b, active).(next := next)
  {
  }

  lemma NotInPrefix(b: Book, i: nat)
    requires Tidy(b) && i < |b.workers|
    ensures b.workers[i] !in b.joined + b.workers[..i]
  {
    InOnePlace(b, i);
  }

  // ---------------------------------------------------------------- the class

  class Server {
    var isRunning: bool
    var listening: bool
    var nextSessionId: nat
    var workers: seq<nat>
    var joined: seq<nat>
    var stopped: seq<nat>

    constructor ()
      ensures isRunning && listening && View() == Book(0, [], [], [])
    {
      isRunning, listening, nextSessionId, workers, joined, stopped := true, true, 0, [], [], [];
    }

    function View(): Book
      reads this
    {
      Book(nextSessionId, workers, joined, stopped)
    }

    /** Waits for a thread to end: one whose session has been seen inactive, or has been stopped. */
    method Join(id: nat, inactive: bool)
      requires inactive || id in stopped
      modifies `joined
      ensures joined == old(joined) + [id]
    {
      joined := joined + [id];
    }

    /** Erasing while iterating; a thread is joined only if it has not been. */
    method CleanupFinishedSessions(active: set<nat>)
      requires Tidy(View())
      modifies `workers, `joined
      ensures View() == Cleaned(old(View()), active)
    {
      hide Tidy, Kept, Passed, Cursor, Cleaned;
      ghost var b := View();
      ghost var flags := Flags(workers, active);
      ghost var n := 0;
      PassBegins(b, flags);
      PassLength(b, flags, 0);
      var it := 0;
      while it < |workers|
        invariant n <= |b.workers| && |workers| - it == |b.workers| - n
        invariant View() == Passed(b, flags, n) && it == Cursor(b, flags, n)
        decreases |workers| - it
      {
        var id := workers[it];
        PassNext(b, flags, n);
        NotPassedJoined(b, flags, n);
        if id !in active {
          if id !in joined {
            Join(id, id !in active);
          }
          workers := Lifecycle.Without(workers, it);
        } else {
          it := it + 1;
        }
        n := n + 1;
        PassLength(b, flags, n);
      }
      PassEnds(b, active);
    }

    /** One session per connection, ids in sequence. */
    method AcceptLoop(rounds: seq<Round>)
      requires isRunning && Accounted(View())
      modifies `isRunning, `nextSessionId, `workers, `joined
      ensures !isRunning && View() == Admissions(old(View()), rounds)
      ensures Accounted(View()) && nextSessionId == old(nextSessionId) + |Connections(rounds)|
      ensures forall id :: id in workers <==> Stays(old(View()), Connections(rounds), id)
    {
      hide Accounted, Cleaned, Stays, Connections;
      var i := 0;
      AdmissionsExactly(View(), rounds);
      assert rounds[0..] == rounds;
      while true
        invariant i <= |rounds| && isRunning && Accounted(View())
        invariant Admissions(View(), rounds[i..]) == Admissions(old(View()), rounds)
        decreases |rounds| - i
      {
        if i == |rounds| || rounds[i].stopped {
          isRunning := false;
          break;
        }
        var round := rounds[i];
        assert rounds[i..][0] == round && rounds[i..][1..] == rounds[i + 1..];
        i := i + 1;
        if !round.connection {
          if round.stoppedMeanwhile {
            isRunning := false;
            break;
          }
          continue;
        }
        ghost var b := View();
        AdmittedConserves(b, round.active);
        var sid := nextSessionId;
        nextSessionId := nextSessionId + 1;
        AccountedIsTidy(b, nextSessionId);
        CleanedIgnoresNext(b, nextSessionId, round.active);
        CleanupFinishedSessions(round.active);
        workers := workers + [sid];
      }
    }

    /** Only the call that finds the server running does anything. */
    method Stop()
      requires Tidy(View())
      modifies this
      ensures !old(isRunning) ==> View() == old(View()) && !isRunning && listening == old(listening)
      ensures old(isRunning) ==> View() == Emptied(old(View())) && !isRunning && !listening
      ensures old(isRunning) ==> stopped == old(stopped) + old(workers) && joined == old(joined) + old(workers) && workers == []
    {
      hide Tidy;
      if !isRunning {
        return;
      }
      isRunning := false;
      listening := false;
      var i := 0;
      while i < |workers|
        invariant i <= |workers|
        invariant View() == old(View()).(stopped := old(stopped) + workers[..i])
        invariant !isRunning && !listening
      {
        stopped := stopped + [workers[i]];
        i := i + 1;
      }
      ghost var b := old(View());
      i := 0;
      while i < |workers|
        invariant i <= |workers|
        invariant View() == b.(stopped := b.stopped + b.workers, joined := b.joined + workers[..i])
        invariant !isRunning && !listening
      {
        NotInPrefix(b, i);
        assert workers[i] in b.workers;
        if workers[i] !in joined {
          Join(workers[i], false);
        }
        i := i + 1;
      }
      workers := [];
      assert b.workers[..i] == b.workers;
    }
  }
}
