/** The workers of module Fleet do what the code does: every run of `ClientSession::run` under sticky
send failures is a run of such a worker. Its events are pinned: what stop() does to it are the stops the
code sees and the cuts of its script's turns, its choices are what the code receives and how its
handlers end, all in the code's order, and its pushes are what the code's calls of ::send move. */
module FleetCode {
  import opened Wrappers
  import opened Text
  import opened Protocol
  import opened Sockets
  import opened SocketTheorems
  import opened Sessions
  import opened Calls
  import opened SessionTheorems
  import opened WorkerRefinement
  import opened Fleet
  import L = Lifecycle
  import P = Projection

  // ---------------------------------------------------------------- what can be compared of the two

  /** A choice of the worker, or something done to it by another thread. */
  datatype Beat = Chose(choice: L.WorkerChoice) | Happened(event: P.Event)

  function BeatOf(lib: Library, s: Solo, e: Event): seq<Beat> {
    match e
    case Theirs(event) => [Happened(event)]
    case Mine(work) => match ChoiceOf(lib, s.link, work) case None => [] case Some(choice) => [Chose(choice)]
  }

  function Beats(lib: Library, s: Solo, events: seq<Event>): seq<Beat>
    requires SoloRun(lib, s, events).Some?
    decreases |events|
  {
    if events == [] then []
    else BeatOf(lib, s, events[0]) + Beats(lib, SoloStep(lib, s, events[0]).value, events[1..])
  }

  /** The bytes moved by each push. */
  function Pushes(events: seq<Event>): seq<nat> {
    if events == [] then [] else PushOf(events[0]) + Pushes(events[1..])
  }

  function PushOf(e: Event): seq<nat> { if e.Mine? && e.work.Push? then [e.work.n] else [] }

  function CutBeats(cut: Cut): seq<Beat> {
    match cut
    case Keep => []
    case Shut => [Happened(P.StopAccess(L.Shutdown))]
    case CloseIt => [Happened(P.StopAccess(L.Shutdown)), Happened(P.StopAccess(L.CloseFd))]
  }

  /** What a move of the code's session is: a stop before a look is the compare-exchange of stop(), and
      the cut of a turn its shutdown and close. */
  function MoveBeats(move: Move): seq<Beat> {
    match move
    case Own(choice) => [Chose(choice)]
    case Look(stopped) => if stopped then [Happened(P.StopAccess(L.Cas))] else []
    case Call(turn, _) => CutBeats(turn.cut)
  }

  function BeatsOf(moves: seq<Move>): seq<Beat> {
    if moves == [] then [] else MoveBeats(moves[0]) + BeatsOf(moves[1..])
  }

  // ---------------------------------------------------------------- the two side by side

  /** A stretch of the code's moves and of the worker's events. */
  datatype Track = Track(moves: seq<Move>, events: seq<Event>)

  const STILL := Track([], [])

  function Join(t: Track, u: Track): Track { Track(t.moves + u.moves, t.events + u.events) }

  /** The code gets from x to x' by these moves, the worker from s to s' by these events, through the
      same phases and beat by beat. */
  ghost predicate Follows(lib: Library, x: Session, s: Solo, t: Track, x': Session, s': Solo) {
    && Goes(x, s.x.phase, t.moves, x', s'.x.phase)
    && SoloRun(lib, s, t.events) == Some(s')
    && Beats(lib, s, t.events) == BeatsOf(t.moves)
  }

  lemma {:induction false} BeatsOfSplit(a: seq<Move>, b: seq<Move>)
    ensures BeatsOf(a + b) == BeatsOf(a) + BeatsOf(b)
  {
    hide MoveBeats;
    if a == [] {
      assert a + b == b;
    } else {
      assert (a + b)[1..] == a[1..] + b && (a + b)[0] == a[0];
      BeatsOfSplit(a[1..], b);
      Regroup(MoveBeats(a[0]), BeatsOf(a[1..]), BeatsOf(b));
    }
  }

  lemma {:induction false} PushesSplit(a: seq<Event>, b: seq<Event>)
    ensures Pushes(a + b) == Pushes(a) + Pushes(b)
  {
    hide PushOf;
    if a == [] {
      assert a + b == b;
    } else {
      assert (a + b)[1..] == a[1..] + b && (a + b)[0] == a[0];
      PushesSplit(a[1..], b);
      Regroup(PushOf(a[0]), Pushes(a[1..]), Pushes(b));
    }
  }

  lemma {:induction false} EventsSplit(lib: Library, s: Solo, a: seq<Event>, s1: Solo, b: seq<Event>)
    requires SoloRun(lib, s, a) == Some(s1) && SoloRun(lib, s1, b).Some?
    ensures SoloRun(lib, s, a + b) == SoloRun(lib, s1, b)
    ensures Beats(lib, s, a + b) == Beats(lib, s, a) + Beats(lib, s1, b)
    decreases |a|
  {
    hide SoloStep, BeatOf;
    if a == [] {
      assert a + b == b;
    } else {
      assert (a + b)[1..] == a[1..] + b && (a + b)[0] == a[0];
      var next := SoloStep(lib, s, a[0]).value;
      EventsSplit(lib, next, a[1..], s1, b);
      Regroup(BeatOf(lib, s, a[0]), Beats(lib, next, a[1..]), Beats(lib, s1, b));
    }
  }

  lemma Joins(lib: Library, x: Session, s: Solo, t: Track, x1: Session, s1: Solo, u: Track, x2: Session, s2: Solo)
    requires Follows(lib, x, s, t, x1, s1) && Follows(lib, x1, s1, u, x2, s2)
    ensures Follows(lib, x, s, Join(t, u), x2, s2)
    ensures Pushes(Join(t, u).events) == Pushes(t.events) + Pushes(u.events)
    ensures Choices(Join(t, u).moves) == Choices(t.moves) + Choices(u.moves)
  {
    hide Goes, Choices, SoloRun, Beats, BeatsOf, Pushes;
    GoesOn(x, s.x.phase, t.moves, x1, s1.x.phase, u.moves, x2, s2.x.phase);
    EventsSplit(lib, s, t.events, s1, u.events);
    BeatsOfSplit(t.moves, u.moves);
    PushesSplit(t.events, u.events);
  }

  lemma StaysStill(lib: Library, x: Session, s: Solo)
    ensures Follows(lib, x, s, STILL, x, s) && Pushes(STILL.events) == [] && Choices(STILL.moves) == []
  {
    NoMoves(x, s.x.phase);
  }

  lemma OneEvent(lib: Library, s: Solo, e: Event)
    requires SoloStep(lib, s, e).Some?
    ensures SoloRun(lib, s, [e]) == SoloStep(lib, s, e) && Beats(lib, s, [e]) == BeatOf(lib, s, e)
    ensures Pushes([e]) == PushOf(e)
  {
    hide SoloStep, BeatOf, PushOf;
    assert [e][1..] == [];
    assert SoloRun(lib, SoloStep(lib, s, e).value, []) == SoloStep(lib, s, e);
    assert BeatOf(lib, s, e) + [] == BeatOf(lib, s, e) && PushOf(e) + [] == PushOf(e);
  }

  lemma OneMoveBeats(move: Move)
    ensures BeatsOf([move]) == MoveBeats(move)
  {
    assert [move][1..] == [];
  }

  /** A choice of the worker is the code's own move. */
  lemma OwnFollows(lib: Library, x: Session, s: Solo, work: Work, choice: L.WorkerChoice, x': Session, s': Solo)
    requires ChoiceOf(lib, s.link, work) == Some(choice) && WorkStep(lib, s, work) == Some(s')
    requires L.WorkerStep(Seen(x, s.x.phase), choice) == Some(Seen(x', s'.x.phase))
    requires x'.sock.script == x.sock.script && x'.stops == x.stops
    ensures var t := Track([Own(choice)], [Mine(work)]);
      && Follows(lib, x, s, t, x', s') && Pushes(t.events) == []
      && Choices(t.moves) == if choice.Go? then [] else [choice]
  {
    hide Goes, Choices, WorkStep, L.WorkerStep, Beats, BeatsOf, SoloRun, Pushes, ChoiceOf;
    OwnGoes(x, s.x.phase, choice, x', s'.x.phase);
    OneEvent(lib, s, Mine(work));
    OneMoveBeats(Own(choice));
    assert work.Push? ==> ChoiceOf(lib, s.link, work) == None by { PushIsNoChoice(lib, s.link, work); }
  }

  lemma PushIsNoChoice(lib: Library, link: Link, work: Work)
    ensures work.Push? || work.Fetch? ==> ChoiceOf(lib, link, work) == None
  {
  }

  /** Sending, and reading the file, are the worker's alone: the code's call of ::send is a move already. */
  lemma SilentFollows(lib: Library, x: Session, s: Solo, work: Work, s': Solo)
    requires (work.Push? || work.Fetch?) && WorkStep(lib, s, work) == Some(s')
    ensures var t := Track([], [Mine(work)]);
      Follows(lib, x, s, t, x, s') && Pushes(t.events) == (if work.Push? then [work.n] else []) && Choices(t.moves) == []
  {
    hide Goes, LinkAfter, Beats, SoloRun, Pushes, ChoiceOf;
    NoMoves(x, s.x.phase);
    OneEvent(lib, s, Mine(work));
    PushIsNoChoice(lib, s.link, work);
  }

  lemma LookFollows(lib: Library, x: Session, s: Solo) returns (t: Track, s': Solo)
    requires !s.x.joined
    ensures Follows(lib, x, s, t, Load(x), s') && Pushes(t.events) == [] && Choices(t.moves) == []
    ensures s' == s.(x := s.x.(active := s.x.active && !LookOf(x).stopped))
  {
    hide Goes, Choices, Beats, BeatsOf, SoloRun, Pushes;
    LookGoes(x, s.x.phase);
    OneMoveBeats(LookOf(x));
    if LookOf(x).stopped {
      var e := Theirs(P.StopAccess(L.Cas));
      OneEvent(lib, s, e);
      t, s' := Track([LookOf(x)], [e]), SoloStep(lib, s, e).value;
    } else {
      NoEvents(lib, s);
      t, s' := Track([LookOf(x)], []), s;
    }
  }

  // ---------------------------------------------------------------- the code's session and the worker

  /** The flags agree, and the bytes sent. */
  predicate Same(x: Session, s: Solo) {
    && s.x.active == x.active && s.x.open == x.sock.open && !s.x.joined
    && s.link.sent == x.sock.sent
    && (s.x.shut ==> x.sock.broken) && (s.link.dead ==> Dead(x.sock))
  }

  /** The worker knows why the connection is broken. */
  predicate Known(x: Session, s: Solo) { x.sock.broken ==> s.x.shut || s.link.dead }

  /** As long as it is not broken, the requests still to be read agree. */
  predicate SameStream(x: Session, s: Solo) { !x.sock.broken ==> s.link.incoming == x.sock.incoming }

  // ---------------------------------------------------------------- what stop() does before a call

  function CutOf(s: Sock): Cut { if s.script == [] then Keep else s.script[0].cut }

  function AfterCut(s: Solo, cut: Cut): Solo {
    match cut
    case Keep => s
    case Shut => s.(x := s.x.(shut := true))
    case CloseIt => s.(x := s.x.(shut := true, open := false))
  }

  lemma CutEvents(lib: Library, s: Solo, cut: Cut) returns (events: seq<Event>)
    requires !s.x.joined
    ensures SoloRun(lib, s, events) == Some(AfterCut(s, cut)) && Beats(lib, s, events) == CutBeats(cut) && Pushes(events) == []
  {
    hide SoloRun, Beats, Pushes;
    var shut, closed := Theirs(P.StopAccess(L.Shutdown)), Theirs(P.StopAccess(L.CloseFd));
    match cut
    case Keep =>
      events := [];
      NoEvents(lib, s);
    case Shut =>
      events := [shut];
      OneEvent(lib, s, shut);
    case CloseIt =>
      OneEvent(lib, s, shut);
      OneEvent(lib, AfterCut(s, Shut), closed);
      EventsSplit(lib, s, [shut], AfterCut(s, Shut), [closed]);
      PushesSplit([shut], [closed]);
      events := [shut] + [closed];
  }

  lemma NoEvents(lib: Library, s: Solo)
    ensures SoloRun(lib, s, []) == Some(s) && Beats(lib, s, []) == [] && Pushes([]) == []
  {
  }

  /** A system call: its turn's cut happens to the worker. */
  lemma CallFollows(lib: Library, x: Session, s: Solo, sock: Sock) returns (t: Track)
    requires !s.x.joined
    requires sock.script == Begin(x.sock).script && sock.open == Begin(x.sock).open && (Begin(x.sock).broken ==> sock.broken)
    requires sock.broken && !Begin(x.sock).broken ==> MayBreak(Met(x.sock))
    ensures Follows(lib, x, s, t, x.(sock := sock), AfterCut(s, CutOf(x.sock)))
    ensures Pushes(t.events) == [] && Choices(t.moves) == []
  {
    hide Goes, Choices, Beats, BeatsOf, SoloRun, Pushes;
    CallGoes(x, s.x.phase, sock);
    OneMoveBeats(CallOf(x.sock, sock));
    var events := CutEvents(lib, s, CutOf(x.sock));
    t := Track([CallOf(x.sock, sock)], events);
  }

  /** A call that sends nothing keeps the two the same. */
  lemma CallKeepsSame(x: Session, s: Solo, sock: Sock)
    requires Same(x, s)
    requires sock.open == Begin(x.sock).open && (Begin(x.sock).broken ==> sock.broken) && sock.sent == x.sock.sent
    ensures Same(x.(sock := sock), AfterCut(s, CutOf(x.sock)))
    ensures Known(x, s) && sock.broken == Begin(x.sock).broken ==> Known(x.(sock := sock), AfterCut(s, CutOf(x.sock)))
  {
  }

  // ---------------------------------------------------------------- sending

  /** What a call of ::send does, as far as the worker sees it. */
  lemma SendIsCall(s: Sock, data: Bytes)
    requires data != []
    ensures var (sock, outcome) := Send(s, data);
      && sock.script == Begin(s).script && sock.open == Begin(s).open && (Begin(s).broken ==> sock.broken)
      && (sock.broken && !Begin(s).broken ==> MayBreak(Met(s)))
      && (outcome.Moved? && outcome.n > 0 ==>
            !sock.broken && sock.open && outcome.n <= |data| && sock.sent == s.sent + data[..outcome.n])
      && (!(outcome.Moved? && outcome.n > 0) ==> sock.sent == s.sent)
      && (outcome.Retry? || (outcome.Moved? && outcome.n > 0) ==> sock.broken == Begin(s).broken && |sock.script| < |s.script|)
  {
  }

  /** The worker is in the middle of this send. */
  predicate Sending(s: Solo, data: Bytes, total: nat) {
    s.x.phase.Answer? && total <= |data| && s.link.pending == data[total..]
  }

  /** One call of the send loop: the cut, and the push if bytes were moved. */
  lemma SendCallFollows(lib: Library, x: Session, s: Solo, data: Bytes, total: nat) returns (t: Track, s1: Solo)
    requires Same(x, s) && !s.link.dead && Sending(s, data, total) && total < |data|
    ensures var (sock, outcome) := Send(x.sock, data[total..]);
      && Follows(lib, x, s, t, x.(sock := sock), s1) && Choices(t.moves) == []
      && Pushes(t.events) == (if outcome.Moved? && outcome.n > 0 then [outcome.n] else [])
      && Same(x.(sock := sock), s1) && (outcome.Moved? ==> total + outcome.n <= |data|)
      && Sending(s1, data, if outcome.Moved? then total + outcome.n else total)
      && s1.x.phase == s.x.phase && s1.link == s.link.(sent := s1.link.sent, pending := s1.link.pending)
      && ((outcome.Retry? || (outcome.Moved? && outcome.n > 0)) && Known(x, s) ==> Known(x.(sock := sock), s1))
  {
    hide Follows, Choices, Pushes, Send;
    var (sock, outcome) := Send(x.sock, data[total..]);
    SendIsCall(x.sock, data[total..]);
    s1 := AfterCut(s, CutOf(x.sock));
    t := CallFollows(lib, x, s, sock);
    if outcome.Moved? && outcome.n > 0 {
      assert data[total..][outcome.n..] == data[total + outcome.n..];
      var cut := s1;
      s1 := cut.(link := cut.link.(sent := cut.link.sent + cut.link.pending[..outcome.n], pending := cut.link.pending[outcome.n..]));
      SilentFollows(lib, x.(sock := sock), cut, Push(outcome.n), s1);
      Joins(lib, x, s, t, x.(sock := sock), cut, Track([], [Mine(Push(outcome.n))]), x.(sock := sock), s1);
      t := Join(t, Track([], [Mine(Push(outcome.n))]));
    } else {
      CallKeepsSame(x, s, sock);
      assert data[total..] == data[total + 0..];
    }
  }

  /** The send has ended, with nothing pending if it succeeded, and else with something. */
  predicate SendEnded(x: Session, s: Solo, x': Session, s': Solo, ok: bool) {
    && Same(x', s') && s'.x.phase == s.x.phase
    && s'.link == s.link.(sent := s'.link.sent, pending := s'.link.pending)
    && (ok <==> s'.link.pending == [])
    && (ok && Known(x, s) ==> Known(x', s'))
  }

  /** One round of the send loop, as to what is moved. */
  lemma CountsRound(s: Sock, data: Bytes, total: nat, s1: Sock, outcome: Outcome)
    requires total < |data| && Send(s, data[total..]) == (s1, outcome)
    ensures Counts(SendCalls(s, data, total)) ==
      if outcome.Retry? then Counts(SendCalls(s1, data, total))
      else if outcome.Moved? && outcome.n > 0 then [outcome.n] + Counts(SendCalls(s1, data, total + outcome.n))
      else []
  {
    hide Send, SendCalls, Counts;
    SendCallsRound(s, data, total, s1, outcome);
    CountsOne(outcome);
    CountsOne(Error);
    if outcome.Retry? {
      CountsSplit([Retry], SendCalls(s1, data, total));
    } else if outcome.Moved? && outcome.n > 0 {
      CountsSplit([outcome], SendCalls(s1, data, total + outcome.n));
    }
  }

  lemma {:induction false} SendLoopFollows(lib: Library, x: Session, s: Solo, data: Bytes, total: nat) returns (t: Track, s': Solo)
    requires Same(x, s) && !s.link.dead && Sending(s, data, total)
    ensures var (sock, ok) := SendLoop(x.sock, data, total);
      && Follows(lib, x, s, t, x.(sock := sock), s') && SendEnded(x, s, x.(sock := sock), s', ok)
      && Choices(t.moves) == [] && Pushes(t.events) == Counts(SendCalls(x.sock, data, total))
    decreases |x.sock.script|
  {
    hide Follows, Choices, Pushes, Send, SendLoop, SendCalls, Same, Known;
    if total == |data| {
      SendDone(x.sock, data);
      SendCallsDone(x.sock, data);
      assert Counts([]) == [];
      t, s' := STILL, s;
      StaysStill(lib, x, s);
    } else {
      var (sock, outcome) := Send(x.sock, data[total..]);
      var x1, end := x.(sock := sock), x.(sock := SendLoop(x.sock, data, total).0);
      var s1: Solo;
      SendRound(x.sock, data, total, sock, outcome);
      CountsRound(x.sock, data, total, sock, outcome);
      t, s1 := SendCallFollows(lib, x, s, data, total);
      s' := s1;
      if outcome.Retry? || (outcome.Moved? && outcome.n > 0) {
        var u: Track;
        u, s' := SendLoopFollows(lib, x1, s1, data, if outcome.Moved? then total + outcome.n else total);
        Joins(lib, x, s, t, x1, s1, u, end, s');
        t := Join(t, u);
      }
    }
  }

  /** On a dead connection nothing is moved, and the send fails. */
  lemma {:induction false} DeadSendFollows(lib: Library, x: Session, s: Solo, data: Bytes, total: nat) returns (t: Track, s': Solo)
    requires Same(x, s) && s.link.dead && total < |data|
    ensures var (sock, ok) := SendLoop(x.sock, data, total);
      && !ok && Follows(lib, x, s, t, x.(sock := sock), s') && Same(x.(sock := sock), s')
      && s'.link == s.link && s'.x.phase == s.x.phase
      && Choices(t.moves) == [] && Pushes(t.events) == [] && Counts(SendCalls(x.sock, data, total)) == []
    decreases |x.sock.script|
  {
    hide Follows, Choices, Pushes, Send, SendLoop, SendCalls;
    var (sock, outcome) := Send(x.sock, data[total..]);
    var x1, end := x.(sock := sock), x.(sock := SendLoop(x.sock, data, total).0);
    SendRound(x.sock, data, total, sock, outcome);
    CountsRound(x.sock, data, total, sock, outcome);
    SendFacts(x.sock, data[total..]);
    SendIsCall(x.sock, data[total..]);
    t := CallFollows(lib, x, s, sock);
    s' := AfterCut(s, CutOf(x.sock));
    CallKeepsSame(x, s, sock);
    if outcome.Retry? {
      var u: Track;
      var s1 := s';
      u, s' := DeadSendFollows(lib, x1, s1, data, total);
      Joins(lib, x, s, t, x1, s1, u, end, s');
      t := Join(t, u);
    }
  }

  /** The worker may send this, or nothing any more. */
  predicate Answering(x: Session, s: Solo, data: Bytes) {
    Same(x, s) && Known(x, s) && s.x.phase.Answer? && (s.link.pending == data || s.link.dead)
  }

  /** One send_all of a handler, however the connection is: it succeeds on a living one only. */
  lemma HandlerSend(lib: Library, x: Session, s: Solo, data: Bytes) returns (t: Track, s': Solo)
    requires Answering(x, s, data) && data != []
    ensures var (sock, ok) := SendAll(x.sock, data);
      && Follows(lib, x, s, t, x.(sock := sock), s') && Same(x.(sock := sock), s')
      && s'.x.phase == s.x.phase && s'.link == s.link.(sent := s'.link.sent, pending := s'.link.pending)
      && Choices(t.moves) == [] && Pushes(t.events) == Counts(SendAllCalls(x.sock, data))
      && (ok ==> Known(x.(sock := sock), s') && s'.link.pending == [] && !s'.link.dead && !Dead(sock))
      && (!ok ==> s'.link.pending != [] || s'.link.dead)
  {
    hide Follows, Choices, Pushes, SendLoop, SendCalls, Known;
    assert data[0..] == data;
    if !x.sock.open {
      t, s' := STILL, s;
      StaysStill(lib, x, s);
    } else if s.link.dead {
      t, s' := DeadSendFollows(lib, x, s, data, 0);
    } else {
      t, s' := SendLoopFollows(lib, x, s, data, 0);
      if SendAll(x.sock, data).1 { SendAllAlive(x.sock, data); }
    }
  }

  // ---------------------------------------------------------------- receiving

  lemma RecvIsCall(s: Sock)
    ensures var (sock, outcome, got) := Recv(s, 1);
      && sock.script == Begin(s).script && sock.open == Begin(s).open && (Begin(s).broken ==> sock.broken)
      && (sock.broken && !Begin(s).broken ==> MayBreak(Met(s))) && sock.sent == s.sent
      && (!outcome.Error? ==> sock.broken == Begin(s).broken)
      && (outcome.Moved? ==> sock.open)
      && (outcome.Retry? || (outcome.Moved? && outcome.n > 0) ==> |sock.script| < |s.script|)
  {
  }

  lemma {:induction false} LineLoopFollows(lib: Library, x: Session, s: Solo, line: Bytes) returns (t: Track, s': Solo)
    requires Same(x, s) && Known(x, s)
    ensures var (sock, r) := LineLoop(x.sock, line);
      && Follows(lib, x, s, t, x.(sock := sock), s') && Choices(t.moves) == [] && Pushes(t.events) == []
      && Same(x.(sock := sock), s') && s'.x.phase == s.x.phase && s'.link == s.link
      && (r.Some? ==> Known(x.(sock := sock), s') && sock.open)
    decreases |x.sock.script|
  {
    hide Follows, Choices, Pushes, LineLoop, Recv;
    if |line| >= MAX_LINE {
      LineTooLong(x.sock, line);
      t, s' := STILL, s;
      StaysStill(lib, x, s);
    } else {
      var (sock, outcome, got) := Recv(x.sock, 1);
      var x1, end := x.(sock := sock), x.(sock := LineLoop(x.sock, line).0);
      LineRound(x.sock, line, sock, outcome, got);
      RecvIsCall(x.sock);
      t := CallFollows(lib, x, s, sock);
      s' := AfterCut(s, CutOf(x.sock));
      CallKeepsSame(x, s, sock);
      if outcome.Retry? || (outcome.Moved? && outcome.n > 0 && got[0] != '\n') {
        var u: Track;
        var s1 := s';
        u, s' := LineLoopFollows(lib, x1, s1, if outcome.Retry? then line else line + got);
        Joins(lib, x, s, t, x1, s1, u, end, s');
        t := Join(t, u);
      }
    }
  }

  /** The line has been received, or not. */
  predicate Received(lib: Library, x: Session, s: Solo, r: Option<Bytes>) {
    && Same(x, s)
    && (match r
        case None => s.x.phase.Leave?
        case Some(line) =>
          var (first, body) := Begins(lib, Parse(line));
          && Known(x, s) && SameStream(x, s) && s.x.phase == L.Answer(CommandOf(lib, Parse(line)))
          && ((s.link.pending == first && s.link.body == body) || s.link.dead))
  }

  /** What the worker does with the line: read it as its next request, or misread one if the connection
      broke. */
  lemma TakeFollows(lib: Library, x: Session, s: Solo, line: Bytes, before: Bytes) returns (t: Track, s': Solo)
    requires Same(x, s) && Known(x, s) && s.x.phase.Receive? && x.sock.open
    requires !x.sock.broken ==> s.link.incoming == before && TakeLine(before) == Some(Line(line, x.sock.incoming))
    ensures Follows(lib, x, s, t, x, s') && Received(lib, x, s', Some(line))
    ensures Choices(t.moves) == [L.Line(CommandOf(lib, Parse(line)))] && Pushes(t.events) == []
  {
    hide Follows, Choices, Pushes, Parse, TakeLine, CommandOf, Begins;
    var command := CommandOf(lib, Parse(line));
    var work := if x.sock.broken then Misread(command) else Read;
    s' := WorkStep(lib, s, work).value;
    OwnFollows(lib, x, s, work, L.Line(command), x, s');
    t := Track([Own(L.Line(command))], [Mine(work)]);
  }

  lemma LostFollows(lib: Library, x: Session, s: Solo) returns (t: Track, s': Solo)
    requires Same(x, s) && s.x.phase.Receive?
    ensures Follows(lib, x, s, t, x, s') && Received(lib, x, s', None)
    ensures Choices(t.moves) == [L.Lost] && Pushes(t.events) == []
  {
    hide Follows, Choices, Pushes;
    s' := WorkStep(lib, s, Other(L.Lost)).value;
    OwnFollows(lib, x, s, Other(L.Lost), L.Lost, x, s');
    t := Track([Own(L.Lost)], [Mine(Other(L.Lost))]);
  }

  lemma ReceiveFollows(lib: Library, x: Session, s: Solo) returns (t: Track, s': Solo)
    requires Same(x, s) && Known(x, s) && SameStream(x, s) && s.x.phase.Receive?
    ensures var (sock, r) := RecvLine(x.sock);
      && Follows(lib, x, s, t, x.(sock := sock), s') && Received(lib, x.(sock := sock), s', r)
      && Choices(t.moves) == [if r.Some? then L.Line(CommandOf(lib, Parse(r.value))) else L.Lost]
      && Pushes(t.events) == []
  {
    hide Follows, Choices, Pushes, LineLoop, Parse, TakeLine, CommandOf, Received, Known;
    var (sock, r) := RecvLine(x.sock);
    var x1, s1 := x.(sock := sock), s;
    RecvLineSound(x.sock);
    if x.sock.open {
      t, s1 := LineLoopFollows(lib, x, s, []);
    } else {
      t := STILL;
      StaysStill(lib, x, s);
    }
    var u: Track;
    if r.Some? {
      u, s' := TakeFollows(lib, x1, s1, r.value, x.sock.incoming);
    } else {
      u, s' := LostFollows(lib, x1, s1);
    }
    Joins(lib, x, s, t, x1, s1, u, x1, s');
    t := Join(t, u);
  }

  // ---------------------------------------------------------------- one request

  /** The handler has returned. */
  predicate HandlerDone(s: Solo, x': Session, s': Solo) {
    Same(x', s') && Known(x', s') && s'.x.phase.Check? && s'.link.incoming == s.link.incoming
  }

  /** The handler ends by Sent if all went well, by Failed if a send failed. */
  lemma FinishFollows(lib: Library, x: Session, s: Solo, ok: bool, x': Session) returns (t: Track, s': Solo)
    requires Same(x, s) && s.x.phase.Answer?
    requires ok ==> s.link.pending == [] && LoopOver(s.link) && (s.link.body.Some? ==> x.active) && !Dead(x.sock) && Known(x, s)
    requires !ok ==> (s.link.pending != [] || s.link.dead) && Dead(x.sock)
    requires x' == x.(active := x.active && if ok then s.x.phase.cmd != L.Quit else s.x.phase.cmd == L.Refuse)
    ensures Follows(lib, x, s, t, x', s') && HandlerDone(s, x', s') && Pushes(t.events) == []
    ensures Choices(t.moves) == [if ok then L.Sent else L.Failed]
  {
    hide Follows, Choices, Pushes, LoopOver;
    var choice := if ok then L.Sent else L.Failed;
    s' := WorkStep(lib, s, Other(choice)).value;
    OwnFollows(lib, x, s, Other(choice), choice, x', s');
    t := Track([Own(choice)], [Mine(Other(choice))]);
  }

  /** A stream ended by a stop. */
  lemma QuietFollows(lib: Library, x: Session, s: Solo) returns (t: Track, s': Solo)
    requires Same(x, s) && Known(x, s) && s.x.phase == L.Answer(L.Stream) && !x.active && s.link.pending == []
    ensures Follows(lib, x, s, t, x, s') && HandlerDone(s, x, s') && Pushes(t.events) == [] && Choices(t.moves) == [L.Quiet]
  {
    hide Follows, Choices, Pushes;
    s' := WorkStep(lib, s, Other(L.Quiet)).value;
    OwnFollows(lib, x, s, Other(L.Quiet), L.Quiet, x, s');
    t := Track([Own(L.Quiet)], [Mine(Other(L.Quiet))]);
  }

  lemma ReplyFollows(lib: Library, x: Session, s: Solo, chunk: nat, request: Request) returns (t: Track, s': Solo)
    requires chunk > 0 && x.active && Streamed(lib, request).None? && Sticky(x.sock.script)
    requires Answering(x, s, Answer(lib, request)) && s.x.phase == L.Answer(CommandOf(lib, request))
    requires s.link.body == None || s.link.dead
    ensures Follows(lib, x, s, t, Serve(x, lib, chunk, request), s') && HandlerDone(s, Serve(x, lib, chunk, request), s')
    ensures Choices(t.moves) == [Ending(x, lib, chunk, request)] && Pushes(t.events) == Counts(ServeCalls(x, lib, chunk, request))
  {
    hide Follows, Choices, Pushes, SendAll, SendAllCalls, Same, Known;
    var answer := Answer(lib, request);
    var (sock, ok) := SendAll(x.sock, answer);
    var x1, end := x.(sock := sock), Serve(x, lib, chunk, request);
    var s1: Solo;
    var u: Track;
    ServeAnswers(x, lib, chunk, request);
    SendAllSound(x.sock, answer);
    t, s1 := HandlerSend(lib, x, s, answer);
    u, s' := FinishFollows(lib, x1, s1, ok, end);
    Joins(lib, x, s, t, x1, s1, u, end, s');
    t := Join(t, u);
  }

  /** The worker reads the chunk that the code reads. */
  lemma FetchFollows(lib: Library, x: Session, s: Solo, b: Body) returns (s': Solo)
    requires Same(x, s) && x.active && s.x.phase == L.Answer(L.Stream) && s.link.pending == [] && s.link.body == Some(b)
    requires InFile(b) && s.link.chunk > 0 && b.total < b.file.size && b.good && NextRead(b.file, s.link.chunk, b.total) > 0
    ensures var got := NextRead(b.file, s.link.chunk, b.total);
      && s' == s.(link := s.link.(
           pending := b.file.contents[b.total..b.total + got],
           body := Some(Body(b.file, b.total + got, got == Min(s.link.chunk, b.file.size - b.total)))))
      && Follows(lib, x, s, Track([], [Mine(Fetch)]), x, s')
      && Pushes([Mine(Fetch)]) == [] && Choices([]) == []
  {
    hide Follows, Choices, Pushes;
    s' := WorkStep(lib, s, Fetch).value;
    SilentFollows(lib, x, s, Fetch, s');
  }

  lemma SameFlagsKnown(x: Session, x': Session, s: Solo, s': Solo)
    requires Known(x, s) && x'.sock.broken == x.sock.broken && s'.x.shut == s.x.shut && s'.link.dead == s.link.dead
    ensures Known(x', s')
  {
  }

  lemma {:induction false} StreamFollows(lib: Library, x: Session, s: Solo, b: Body) returns (t: Track, s': Solo)
    requires s.link.chunk > 0 && InFile(b) && s.link.body == Some(b) && s.link.pending == [] && !s.link.dead
    requires Same(x, s) && Known(x, s) && s.x.phase == L.Answer(L.Stream)
    requires Sticky(x.sock.script) && !Dead(x.sock)
    ensures var end := StreamLoop(x, b.file, s.link.chunk, b.total, b.good);
      && Follows(lib, x, s, t, end, s') && HandlerDone(s, end, s')
      && Choices(t.moves) == [StreamEnding(x, b.file, s.link.chunk, b.total, b.good)]
      && Pushes(t.events) == Counts(StreamCalls(x, b.file, s.link.chunk, b.total, b.good))
    decreases b.file.size - b.total
  {
    hide Follows, Choices, Pushes, SendAll, StreamLoop, SendAllCalls, Known, Sticky, Later;
    var file, chunk := b.file, s.link.chunk;
    var x1, got, end := Load(x), NextRead(file, chunk, b.total), StreamLoop(x, file, chunk, b.total, b.good);
    StreamRound(x, file, chunk, b.total, b.good);
    var s1: Solo;
    var u: Track;
    t, s1 := LookFollows(lib, x, s);
    SameFlagsKnown(x, x1, s, s1);
    if !x1.active {
      u, s' := QuietFollows(lib, x1, s1);
    } else if b.total >= file.size || !b.good || got == 0 {
      assert Chunk(b, chunk) == [];
      u, s' := FinishFollows(lib, x1, s1, true, x1);
    } else {
      u, s' := PieceFollows(lib, x1, s1, b);
    }
    Joins(lib, x, s, t, x1, s1, u, end, s');
    t := Join(t, u);
  }

  /** One chunk read and sent, and the rest of the stream. */
  lemma {:induction false} PieceFollows(lib: Library, x: Session, s: Solo, b: Body) returns (t: Track, s': Solo)
    requires s.link.chunk > 0 && InFile(b) && s.link.body == Some(b) && s.link.pending == [] && !s.link.dead
    requires Same(x, s) && Known(x, s) && s.x.phase == L.Answer(L.Stream)
    requires Sticky(x.sock.script) && !Dead(x.sock)
    requires x.active && b.total < b.file.size && b.good && NextRead(b.file, s.link.chunk, b.total) > 0
    ensures var chunk, got := s.link.chunk, NextRead(b.file, s.link.chunk, b.total);
      var piece, good := b.file.contents[b.total..b.total + got], got == Min(chunk, b.file.size - b.total);
      var (sock, ok) := SendAll(x.sock, piece);
      var x1 := x.(sock := sock);
      var end := if ok then StreamLoop(x1, b.file, chunk, b.total + got, good) else x1.(active := false);
      && Follows(lib, x, s, t, end, s') && HandlerDone(s, end, s')
      && Choices(t.moves) == [if ok then StreamEnding(x1, b.file, chunk, b.total + got, good) else L.Failed]
      && Pushes(t.events) == Counts(SendAllCalls(x.sock, piece)
           + if ok then StreamCalls(x1, b.file, chunk, b.total + got, good) else [])
    decreases b.file.size - b.total, 0
  {
    hide Follows, Choices, Pushes, SendAll, StreamLoop, StreamEnding, StreamCalls, SendAllCalls, Known, Sticky;
    var chunk, got := s.link.chunk, NextRead(b.file, s.link.chunk, b.total);
    var piece := b.file.contents[b.total..b.total + got];
    var next := Body(b.file, b.total + got, got == Min(chunk, b.file.size - b.total));
    var (sock, ok) := SendAll(x.sock, piece);
    var x1 := x.(sock := sock);
    var s1 := FetchFollows(lib, x, s, b);
    var s2: Solo;
    var send, rest: Track;
    SendAllSound(x.sock, piece);
    SameFlagsKnown(x, x, s, s1);
    CountsSplit(SendAllCalls(x.sock, piece), if ok then StreamCalls(x1, b.file, chunk, b.total + got, next.good) else []);
    send, s2 := HandlerSend(lib, x, s1, piece);
    if ok {
      LaterSticky(x.sock, sock);
      rest, s' := StreamFollows(lib, x1, s2, next);
      Joins(lib, x, s1, send, x1, s2, rest, StreamLoop(x1, b.file, chunk, b.total + got, next.good), s');
      Joins(lib, x, s, Track([], [Mine(Fetch)]), x, s1, Join(send, rest), StreamLoop(x1, b.file, chunk, b.total + got, next.good), s');
    } else {
      var end := x1.(active := false);
      rest, s' := FinishFollows(lib, x1, s2, false, end);
      Joins(lib, x, s1, send, x1, s2, rest, end, s');
      Joins(lib, x, s, Track([], [Mine(Fetch)]), x, s1, Join(send, rest), end, s');
    }
    t := Join(Track([], [Mine(Fetch)]), Join(send, rest));
  }

  lemma LaterSticky(s: Sock, s': Sock)
    requires Later(s, s') && Sticky(s.script)
    ensures Sticky(s'.script)
  {
  }

  lemma ServeFollows(lib: Library, x: Session, s: Solo, request: Request) returns (t: Track, s': Solo)
    requires s.link.chunk > 0 && x.active && Sticky(x.sock.script)
    requires Same(x, s) && Known(x, s) && s.x.phase == L.Answer(CommandOf(lib, request))
    requires var (first, body) := Begins(lib, request); (s.link.pending == first && s.link.body == body) || s.link.dead
    ensures var end := Serve(x, lib, s.link.chunk, request);
      && Follows(lib, x, s, t, end, s') && HandlerDone(s, end, s')
      && Choices(t.moves) == [Ending(x, lib, s.link.chunk, request)]
      && Pushes(t.events) == Counts(ServeCalls(x, lib, s.link.chunk, request))
  {
    hide Follows, Choices, Pushes, SendAll, StreamLoop, StreamEnding, StreamCalls, SendAllCalls, Same, Known, Sticky, Later;
    var (first, body) := Begins(lib, request);
    BeginsTheAnswer(lib, request);
    if Streamed(lib, request).None? {
      assert first + [] == first;
      t, s' := ReplyFollows(lib, x, s, s.link.chunk, request);
    } else {
      var file := Streamed(lib, request).value;
      var (sock, ok) := SendAll(x.sock, first);
      var x1, end := x.(sock := sock), Serve(x, lib, s.link.chunk, request);
      var s1: Solo;
      var u: Track;
      SendAllSound(x.sock, first);
      CountsSplit(SendAllCalls(x.sock, first), if ok then StreamCalls(x1, file, s.link.chunk, 0, true) else []);
      t, s1 := HandlerSend(lib, x, s, first);
      if ok {
        LaterSticky(x.sock, sock);
        u, s' := StreamFollows(lib, x1, s1, Body(file, 0, true));
      } else {
        u, s' := FinishFollows(lib, x1, s1, false, x1.(active := false));
      }
      Joins(lib, x, s, t, x1, s1, u, end, s');
      t := Join(t, u);
    }
  }

  // ---------------------------------------------------------------- the whole run

  lemma GoFollows(lib: Library, x: Session, s: Solo, x': Session) returns (t: Track, s': Solo)
    requires !s.x.phase.Receive? && L.WorkerStep(s.x, L.Go).Some?
    requires L.WorkerStep(Seen(x, s.x.phase), L.Go) == Some(Seen(x', L.WorkerStep(s.x, L.Go).value.phase))
    requires x'.sock.script == x.sock.script && x'.stops == x.stops
    ensures s' == s.(x := L.WorkerStep(s.x, L.Go).value)
    ensures Follows(lib, x, s, t, x', s') && Choices(t.moves) == [] && Pushes(t.events) == []
  {
    hide Follows, Choices, Pushes;
    s' := WorkStep(lib, s, Other(L.Go)).value;
    OwnFollows(lib, x, s, Other(L.Go), L.Go, x', s');
    t := Track([Own(L.Go)], [Mine(Other(L.Go))]);
  }

  /** Reading the flag, and acting on it. */
  lemma CheckFollows(lib: Library, x: Session, s: Solo) returns (t: Track, s': Solo)
    requires Same(x, s) && Known(x, s) && SameStream(x, s) && s.x.phase.Check?
    ensures Follows(lib, x, s, t, Load(x), s') && Choices(t.moves) == [] && Pushes(t.events) == []
    ensures Same(Load(x), s') && Known(Load(x), s') && SameStream(Load(x), s') && s'.link.chunk == s.link.chunk
    ensures s'.x.phase == (if Load(x).active then L.Receive else L.Leave) && Load(x).sock == x.sock
  {
    hide Follows, Choices, Pushes;
    var s1: Solo;
    var u: Track;
    t, s1 := LookFollows(lib, x, s);
    u, s' := GoFollows(lib, Load(x), s1, Load(x));
    Joins(lib, x, s, t, Load(x), s1, u, Load(x), s');
    t := Join(t, u);
  }

  lemma StreamStays(x: Session, s: Solo, x': Session, s': Solo)
    requires SameStream(x, s) && Later(x.sock, x'.sock) && x'.sock.incoming == x.sock.incoming
    requires s'.link.incoming == s.link.incoming
    ensures SameStream(x', s')
  {
  }

  lemma ServeLater(x: Session, lib: Library, chunk: nat, request: Request)
    requires chunk > 0
    ensures Later(x.sock, Serve(x, lib, chunk, request).sock)
    ensures Serve(x, lib, chunk, request).sock.incoming == x.sock.incoming
  {
    ServeAnswers(x, lib, chunk, request);
  }

  lemma ChunkOnce(lib: Library, s: Solo, e: Event)
    requires SoloStep(lib, s, e).Some?
    ensures var link := SoloStep(lib, s, e).value.link; link.chunk == s.link.chunk && link.asked == s.link.asked
  {
    hide L.WorkerStep, Begins, Parse, TakeLine;
  }

  /** A session's chunk size and stream stay what they are. */
  lemma {:induction false} ChunkStays(lib: Library, s: Solo, events: seq<Event>, s': Solo)
    requires SoloRun(lib, s, events) == Some(s')
    ensures s'.link.chunk == s.link.chunk && s'.link.asked == s.link.asked
    decreases |events|
  {
    hide SoloStep;
    if events != [] {
      ChunkOnce(lib, s, events[0]);
      ChunkStays(lib, SoloStep(lib, s, events[0]).value, events[1..], s');
    }
  }

  lemma FollowsKeepsChunk(lib: Library, x: Session, s: Solo, t: Track, x': Session, s': Solo)
    requires Follows(lib, x, s, t, x', s')
    ensures s'.link.chunk == s.link.chunk && s'.link.asked == s.link.asked
  {
    ChunkStays(lib, s, t.events, s');
  }

  lemma {:induction false} LoopFollows(lib: Library, x: Session, s: Solo) returns (t: Track, s': Solo)
    requires s.link.chunk > 0 && Sticky(x.sock.script)
    requires Same(x, s) && Known(x, s) && SameStream(x, s) && s.x.phase.Check?
    ensures var end := RunLoop(x, lib, s.link.chunk);
      && Follows(lib, x, s, t, end, s') && Same(end, s') && s'.x.phase.Leave?
      && Choices(t.moves) == Log(x, lib, s.link.chunk) && Pushes(t.events) == Counts(RunCalls(x, lib, s.link.chunk))
    decreases |x.sock.script|
  {
    hide Follows, Choices, Pushes, Serve, ServeCalls, RecvLine, Parse, CommandOf, Load, Ending, Begins, Same, Known, SameStream;
    hide Later, Sticky;
    var chunk := s.link.chunk;
    var x1, end := Load(x), RunLoop(x, lib, chunk);
    t, s' := CheckFollows(lib, x, s);
    if x1.active {
      var s1 := s';
      var u: Track;
      u, s' := RequestFollows(lib, x1, s1);
      var (sock, r) := RecvLine(x1.sock);
      if r.Some? {
        var x3, s3 := Serve(x1.(sock := sock), lib, chunk, Parse(r.value)), s';
        var v: Track;
        FollowsKeepsChunk(lib, x1, s1, u, x3, s3);
        CountsSplit(ServeCalls(x1.(sock := sock), lib, chunk, Parse(r.value)), RunCalls(x3, lib, chunk));
        v, s' := LoopFollows(lib, x3, s3);
        Joins(lib, x1, s1, u, x3, s3, v, end, s');
        u := Join(u, v);
      }
      Joins(lib, x, s, t, x1, s1, u, end, s');
      t := Join(t, u);
    }
  }

  /** Receiving a line and answering it, or leaving because none came. */
  lemma RequestFollows(lib: Library, x: Session, s: Solo) returns (t: Track, s': Solo)
    requires s.link.chunk > 0 && Sticky(x.sock.script) && x.active
    requires Same(x, s) && Known(x, s) && SameStream(x, s) && s.x.phase.Receive?
    ensures var (sock, r) := RecvLine(x.sock);
      var x1 := x.(sock := sock);
      match r
      case None =>
        && Follows(lib, x, s, t, x1, s') && Same(x1, s') && s'.x.phase.Leave?
        && Choices(t.moves) == [L.Lost] && Pushes(t.events) == []
      case Some(line) =>
        var request := Parse(line);
        var end := Serve(x1, lib, s.link.chunk, request);
        && Follows(lib, x, s, t, end, s') && Same(end, s') && Known(end, s') && SameStream(end, s') && s'.x.phase.Check?
        && Sticky(end.sock.script) && |end.sock.script| < |x.sock.script|
        && Choices(t.moves) == [L.Line(CommandOf(lib, request)), Ending(x1, lib, s.link.chunk, request)]
        && Pushes(t.events) == Counts(ServeCalls(x1, lib, s.link.chunk, request))
  {
    hide Follows, Choices, Pushes, Serve, ServeCalls, RecvLine, Parse, CommandOf, Ending, Begins, Same, Known, SameStream;
    hide Later, Sticky;
    var (sock, r) := RecvLine(x.sock);
    var x1 := x.(sock := sock);
    RecvLineSound(x.sock);
    LaterSticky(x.sock, sock);
    t, s' := ReceiveFollows(lib, x, s);
    FollowsKeepsChunk(lib, x, s, t, x1, s');
    if r.Some? {
      var request, s1 := Parse(r.value), s';
      var end := Serve(x1, lib, s.link.chunk, request);
      var u: Track;
      u, s' := ServeFollows(lib, x1, s1, request);
      ServeLater(x1, lib, s.link.chunk, request);
      LaterSticky(sock, end.sock);
      StreamStays(x1, s1, end, s');
      Joins(lib, x, s, t, x1, s1, u, end, s');
      t := Join(t, u);
    }
  }

  /** What a session starts from: its thread started, its client's stream before it. */
  function Spawned(asked: Bytes, chunk: nat): Solo { Solo(L.NEW_SESSION.(phase := L.Spawned), Fresh(asked, chunk)) }

  lemma RunFollows(lib: Library, x: Session, s: Solo) returns (t: Track, end: Solo)
    requires s.link.chunk > 0 && Sticky(x.sock.script) && x.active
    requires Same(x, s) && Known(x, s) && SameStream(x, s) && s.x.phase.Spawned?
    ensures var final := Sessions.Run(x, lib, s.link.chunk);
      && Follows(lib, x, s, t, final, end) && Same(final, end) && end.x.phase.Finished?
      && Choices(t.moves) == Log(x, lib, s.link.chunk) && Pushes(t.events) == Counts(RunCalls(x, lib, s.link.chunk))
  {
    hide Follows, Choices, Pushes, RunLoop, Log, RunCalls;
    var chunk := s.link.chunk;
    var x1, final := RunLoop(x, lib, chunk), Sessions.Run(x, lib, chunk);
    var x2 := x1.(active := false);
    var s1, s2, s3: Solo;
    var loop, leave, close: Track;
    t, s1 := GoFollows(lib, x, s, x);
    loop, s2 := LoopFollows(lib, x, s1);
    leave, s3 := GoFollows(lib, x1, s2, x2);
    close, end := GoFollows(lib, x2, s3, final);
    Joins(lib, x1, s2, leave, x2, s3, close, final, end);
    Joins(lib, x, s1, loop, x1, s2, Join(leave, close), final, end);
    Joins(lib, x, s, t, x, s1, Join(loop, Join(leave, close)), final, end);
    t := Join(t, Join(loop, Join(leave, close)));
  }

  /** Every run of the session code on a fresh connection, under every script whose send failures are
      sticky and every stop, is a run of the whole server's worker. The code's moves are pinned to its
      stops, its script and its log, as in RunRefinesWorker; the worker's events follow them beat by
      beat, and push what the code's calls of ::send move. */
  lemma RunIsAWorkers(lib: Library, chunk: nat, asked: Bytes, stops: seq<bool>, script: seq<Turn>)
      returns (moves: seq<Move>, events: seq<Event>, end: Solo)
    requires chunk > 0 && Sticky(script)
    ensures var x := Session(true, stops, Sock(true, false, asked, [], script));
      var final := Sessions.Run(x, lib, chunk);
      && WorkerRun(Seen(x, L.Spawned), moves) == Some(Seen(final, L.Finished))
      && Turns(moves) == Ahead(script, |Turns(moves)|, END) && final.sock.script == Beyond(script, |Turns(moves)|)
      && Looks(moves) == Ahead(stops, |Looks(moves)|, false) && final.stops == Beyond(stops, |Looks(moves)|)
      && Choices(moves) == Log(x, lib, chunk)
      && SoloRun(lib, Spawned(asked, chunk), events) == Some(end)
      && Beats(lib, Spawned(asked, chunk), events) == BeatsOf(moves)
      && Pushes(events) == Counts(RunCalls(x, lib, chunk))
      && end.x.phase.Finished? && !end.x.active && !end.x.open && end.link.sent == final.sock.sent
  {
    hide RunLoop, Log, RunCalls, Choices, Pushes, WorkerRun, SoloRun, Beats, BeatsOf;
    var x := Session(true, stops, Sock(true, false, asked, [], script));
    var t: Track;
    t, end := RunFollows(lib, x, Spawned(asked, chunk));
    moves, events := t.moves, t.events;
  }

  lemma {:induction false} NoBeatHappens(moves: seq<Move>)
    requires forall i | 0 <= i < |moves| :: MoveBeats(moves[i]) == [] || moves[i].Own?
    ensures forall i | 0 <= i < |BeatsOf(moves)| :: BeatsOf(moves)[i].Chose?
  {
    if moves != [] { NoBeatHappens(moves[1..]); }
  }

  lemma {:induction false} AmongBeats(lib: Library, s: Solo, events: seq<Event>, i: nat)
    requires SoloRun(lib, s, events).Some? && i < |events|
    ensures events[i].Theirs? ==> Happened(events[i].event) in Beats(lib, s, events)
    decreases |events|
  {
    hide SoloStep;
    if i > 0 { AmongBeats(lib, SoloStep(lib, s, events[0]).value, events[1..], i - 1); }
  }

  /** So a session that no other thread touches is a run of its worker alone. */
  lemma LeftAloneIsAWorkers(lib: Library, chunk: nat, asked: Bytes, stops: seq<bool>, script: seq<Turn>)
      returns (events: seq<Event>, end: Solo)
    requires chunk > 0 && Sticky(script)
    requires (forall i | 0 <= i < |stops| :: !stops[i]) && forall i | 0 <= i < |script| :: script[i].cut == Keep
    ensures var x := Session(true, stops, Sock(true, false, asked, [], script));
      && SoloRun(lib, Spawned(asked, chunk), events) == Some(end)
      && end.link.sent == Sessions.Run(x, lib, chunk).sock.sent
      && Pushes(events) == Counts(RunCalls(x, lib, chunk))
      && forall i | 0 <= i < |events| :: events[i].Mine?
  {
    hide Sessions.Run, Log, RunCalls, Pushes, SoloRun, WorkerRun;
    var moves: seq<Move>;
    moves, events, end := RunIsAWorkers(lib, chunk, asked, stops, script);
    forall i | 0 <= i < |moves| ensures MoveBeats(moves[i]) == [] || moves[i].Own? {
      AmongMoves(moves, i);
    }
    NoBeatHappens(moves);
    forall i | 0 <= i < |events| ensures events[i].Mine? {
      AmongBeats(lib, Spawned(asked, chunk), events, i);
    }
  }
}
