/** The session code refines the worker of the server machine. Module Lifecycle speaks of a worker
thread as a phase and three flags; here every run of `ClientSession::run`, on any requests, under any
script and any stops, is shown to be a run of that worker in which nothing else moves a flag than the
stops and the turns of the script, one by one and in order. */
module WorkerRefinement {
  import opened Wrappers
  import opened Text
  import opened Protocol
  import opened Sockets
  import opened SocketTheorems
  import Lifecycle
  import opened Sessions
  import opened SessionTheorems

  /** A step of the machine's worker; a look at is_active_, with another thread's stop() just before
      it or not; a system call on the socket, with its turn of the script and whether the connection
      broke in it. */
  datatype Move = Own(choice: Lifecycle.WorkerChoice) | Look(stopped: bool) | Call(turn: Turn, broke: bool)

  predicate MayBreak(io: Io) { io.HangUp? || io.Reset? || io.TimedOut? }

  /** `shut`: nothing can be sent any more. */
  function After(w: Lifecycle.Session, move: Move): Option<Lifecycle.Session> {
    match move
    case Own(choice) => Lifecycle.WorkerStep(w, choice)
    case Look(stopped) => Some(w.(active := w.active && !stopped))
    case Call(turn, broke) =>
      if broke && !MayBreak(turn.io) then None
      else Some(w.(open := w.open && turn.cut != CloseIt, shut := w.shut || turn.cut != Keep || broke))
  }

  function WorkerRun(w: Lifecycle.Session, moves: seq<Move>): Option<Lifecycle.Session>
    decreases |moves|
  {
    if moves == [] then Some(w)
    else match After(w, moves[0])
         case None => None
         case Some(w') => WorkerRun(w', moves[1..])
  }

  /** The machine's view of a session whose thread is in the given phase. */
  function Seen(x: Session, phase: Lifecycle.Phase): Lifecycle.Session {
    Lifecycle.Session(x.active, x.sock.open, x.sock.broken, phase, false)
  }

  /** Server::stop's three accesses to an active session are, together, a stop before a look and a
      socket closed before a call. */
  lemma StopIsMoves(w: Lifecycle.Session, io: Io)
    ensures var stopped := Lifecycle.Stopped(Lifecycle.Stopped(Lifecycle.Stopped(w, Lifecycle.Cas), Lifecycle.Shutdown), Lifecycle.CloseFd);
      WorkerRun(w, [Look(true), Call(Turn(CloseIt, io), false)]) == Some(stopped)
  {
    RunInTwo(w, [Look(true)], [Call(Turn(CloseIt, io), false)]);
    OneMove(w, Look(true));
    OneMove(WorkerRun(w, [Look(true)]).value, Call(Turn(CloseIt, io), false));
    assert [Look(true)] + [Call(Turn(CloseIt, io), false)] == [Look(true), Call(Turn(CloseIt, io), false)];
  }

  // ---------------------------------------------------------------- what the moves consist of

  function TurnOf(move: Move): seq<Turn> { if move.Call? then [move.turn] else [] }

  function LookAt(move: Move): seq<bool> { if move.Look? then [move.stopped] else [] }

  function OwnChoice(move: Move): seq<Lifecycle.WorkerChoice> {
    if move.Own? && !move.choice.Go? then [move.choice] else []
  }

  function Turns(moves: seq<Move>): seq<Turn> { if moves == [] then [] else TurnOf(moves[0]) + Turns(moves[1..]) }

  function Looks(moves: seq<Move>): seq<bool> { if moves == [] then [] else LookAt(moves[0]) + Looks(moves[1..]) }

  /** What the worker itself chose; a `Go` is no choice. */
  function Choices(moves: seq<Move>): seq<Lifecycle.WorkerChoice> {
    if moves == [] then [] else OwnChoice(moves[0]) + Choices(moves[1..])
  }

  lemma {:induction false} Splits(a: seq<Move>, b: seq<Move>)
    ensures Turns(a + b) == Turns(a) + Turns(b)
    ensures Looks(a + b) == Looks(a) + Looks(b)
    ensures Choices(a + b) == Choices(a) + Choices(b)
  {
    hide TurnOf, LookAt, OwnChoice;
    if a == [] {
      assert a + b == b;
    } else {
      var more := a[1..];
      assert (a + b)[1..] == more + b && (a + b)[0] == a[0];
      Splits(more, b);
      Regroup(TurnOf(a[0]), Turns(more), Turns(b));
      Regroup(LookAt(a[0]), Looks(more), Looks(b));
      Regroup(OwnChoice(a[0]), Choices(more), Choices(b));
    }
  }

  lemma Regroup<T>(a: seq<T>, b: seq<T>, c: seq<T>)
    ensures a + (b + c) == a + b + c
  {
  }

  /** The first n elements, `past` standing for those beyond the end. */
  function Ahead<T>(s: seq<T>, n: nat, past: T): (r: seq<T>)
    ensures |r| == n && forall i | 0 <= i < n :: r[i] == if i < |s| then s[i] else past
  {
    seq(n, i requires 0 <= i < n => if i < |s| then s[i] else past)
  }

  function Beyond<T>(s: seq<T>, n: nat): seq<T> { if n <= |s| then s[n..] else [] }

  lemma AheadAgain<T>(s: seq<T>, m: nat, n: nat, past: T)
    ensures Ahead(s, m + n, past) == Ahead(s, m, past) + Ahead(Beyond(s, m), n, past)
    ensures Beyond(s, m + n) == Beyond(Beyond(s, m), n)
  {
  }

  /** Past the end of the script every call fails like this one. */
  const END := Turn(Keep, Reset)

  /** The moves take the worker from the one session to the other, and their looks and calls are the
      session's own stops and turns, from the first on, up to those the other session has left. */
  ghost predicate Goes(x: Session, phase: Lifecycle.Phase, moves: seq<Move>, x': Session, phase': Lifecycle.Phase) {
    && WorkerRun(Seen(x, phase), moves) == Some(Seen(x', phase'))
    && Turns(moves) == Ahead(x.sock.script, |Turns(moves)|, END)
    && x'.sock.script == Beyond(x.sock.script, |Turns(moves)|)
    && Looks(moves) == Ahead(x.stops, |Looks(moves)|, false)
    && x'.stops == Beyond(x.stops, |Looks(moves)|)
  }

  lemma {:induction false} RunInTwo(w: Lifecycle.Session, first: seq<Move>, second: seq<Move>)
    requires WorkerRun(w, first).Some?
    ensures WorkerRun(w, first + second) == WorkerRun(WorkerRun(w, first).value, second)
    decreases |first|
  {
    if first == [] {
      assert first + second == second;
    } else {
      assert (first + second)[1..] == first[1..] + second;
      RunInTwo(After(w, first[0]).value, first[1..], second);
    }
  }

  lemma GoesOn(x: Session, p: Lifecycle.Phase, a: seq<Move>, y: Session, q: Lifecycle.Phase,
               b: seq<Move>, z: Session, r: Lifecycle.Phase)
    requires Goes(x, p, a, y, q) && Goes(y, q, b, z, r)
    ensures Goes(x, p, a + b, z, r) && Choices(a + b) == Choices(a) + Choices(b)
  {
    hide WorkerRun, Turns, Looks, Choices, Beyond;
    RunInTwo(Seen(x, p), a, b);
    Splits(a, b);
    AheadAgain(x.sock.script, |Turns(a)|, |Turns(b)|, END);
    AheadAgain(x.stops, |Looks(a)|, |Looks(b)|, false);
  }

  lemma NoMoves(x: Session, phase: Lifecycle.Phase)
    ensures Goes(x, phase, [], x, phase)
  {
  }

  // ---------------------------------------------------------------- single moves

  lemma OneMove(w: Lifecycle.Session, move: Move)
    ensures WorkerRun(w, [move]) == After(w, move)
    ensures Turns([move]) == if move.Call? then [move.turn] else []
    ensures Looks([move]) == if move.Look? then [move.stopped] else []
    ensures Choices([move]) == if move.Own? && !move.choice.Go? then [move.choice] else []
  {
    assert [move][1..] == [];
    assert After(w, move).Some? ==> WorkerRun(After(w, move).value, []) == After(w, move);
  }

  lemma OwnGoes(x: Session, p: Lifecycle.Phase, choice: Lifecycle.WorkerChoice, x': Session, q: Lifecycle.Phase)
    requires Lifecycle.WorkerStep(Seen(x, p), choice) == Some(Seen(x', q))
    requires x'.sock.script == x.sock.script && x'.stops == x.stops
    ensures Goes(x, p, [Own(choice)], x', q) && Choices([Own(choice)]) == if choice.Go? then [] else [choice]
  {
    OneMove(Seen(x, p), Own(choice));
  }

  function LookOf(x: Session): Move { Look(if x.stops == [] then false else x.stops[0]) }

  lemma LookGoes(x: Session, p: Lifecycle.Phase)
    ensures Goes(x, p, [LookOf(x)], Load(x), p) && Choices([LookOf(x)]) == []
  {
    OneMove(Seen(x, p), LookOf(x));
    assert Ahead(x.sock.script, 0, END) == [];
    assert Ahead(x.stops, 1, false) == [if x.stops == [] then false else x.stops[0]];
  }

  /** The call that took the socket from s to s'. */
  function CallOf(s: Sock, s': Sock): Move {
    Call(if s.script == [] then END else s.script[0], s'.broken && !Begin(s).broken)
  }

  lemma CallGoes(x: Session, p: Lifecycle.Phase, s': Sock)
    requires s'.script == Begin(x.sock).script && s'.open == Begin(x.sock).open && (Begin(x.sock).broken ==> s'.broken)
    requires s'.broken && !Begin(x.sock).broken ==> MayBreak(Met(x.sock))
    ensures Goes(x, p, [CallOf(x.sock, s')], x.(sock := s'), p) && Choices([CallOf(x.sock, s')]) == []
  {
    var move := CallOf(x.sock, s');
    OneMove(Seen(x, p), move);
    assert After(Seen(x, p), move) == Some(Seen(x.(sock := s'), p));
    assert Ahead(x.sock.script, 1, END) == [move.turn];
    assert Ahead(x.stops, 0, false) == [];
  }

  lemma SendGoes(x: Session, p: Lifecycle.Phase, data: Bytes)
    requires data != []
    ensures var s' := Send(x.sock, data).0;
      Goes(x, p, [CallOf(x.sock, s')], x.(sock := s'), p) && Choices([CallOf(x.sock, s')]) == []
  {
    hide Goes, Choices, CallOf;
    CallGoes(x, p, Send(x.sock, data).0);
  }

  lemma RecvGoes(x: Session, p: Lifecycle.Phase, room: nat)
    requires room > 0
    ensures var s' := Recv(x.sock, room).0;
      Goes(x, p, [CallOf(x.sock, s')], x.(sock := s'), p) && Choices([CallOf(x.sock, s')]) == []
  {
    hide Goes, Choices, CallOf;
    CallGoes(x, p, Recv(x.sock, room).0);
  }

  // ---------------------------------------------------------------- the socket's loops

  lemma {:induction false} SendLoopGoes(x: Session, p: Lifecycle.Phase, data: Bytes, total: nat) returns (moves: seq<Move>)
    requires total <= |data|
    ensures Goes(x, p, moves, x.(sock := SendLoop(x.sock, data, total).0), p) && Choices(moves) == []
    decreases |x.sock.script|
  {
    hide Goes, Choices, Send, CallOf;
    if total == |data| {
      SendDone(x.sock, data);
      moves := [];
      NoMoves(x, p);
      NoChoices();
    } else {
      var (s1, outcome) := Send(x.sock, data[total..]);
      var x1 := x.(sock := s1);
      SendGoes(x, p, data[total..]);
      SendRound(x.sock, data, total, s1, outcome);
      moves := [CallOf(x.sock, s1)];
      if outcome.Retry? || (outcome.Moved? && outcome.n > 0) {
        var more := SendLoopGoes(x1, p, data, if outcome.Moved? then total + outcome.n else total);
        GoesOn(x, p, moves, x1, p, more, x.(sock := SendLoop(x.sock, data, total).0), p);
        moves := moves + more;
      }
    }
  }

  lemma NoChoices()
    ensures Choices([]) == []
  {
  }

  lemma SendAllGoes(x: Session, p: Lifecycle.Phase, data: Bytes) returns (moves: seq<Move>)
    ensures Goes(x, p, moves, x.(sock := SendAll(x.sock, data).0), p) && Choices(moves) == []
  {
    hide Goes, SendLoop, Choices;
    if x.sock.open {
      moves := SendLoopGoes(x, p, data, 0);
    } else {
      moves := [];
      NoMoves(x, p);
      NoChoices();
    }
  }

  lemma {:induction false} LineLoopGoes(x: Session, p: Lifecycle.Phase, line: Bytes) returns (moves: seq<Move>)
    ensures var (s', r) := LineLoop(x.sock, line);
      Goes(x, p, moves, x.(sock := s'), p) && Choices(moves) == [] && (r.Some? ==> s'.open)
    decreases |x.sock.script|
  {
    hide Goes, Choices, Recv, CallOf;
    if |line| >= MAX_LINE {
      moves := [];
      NoMoves(x, p);
      NoChoices();
    } else {
      var (s1, outcome, got) := Recv(x.sock, 1);
      var x1 := x.(sock := s1);
      RecvGoes(x, p, 1);
      LineRound(x.sock, line, s1, outcome, got);
      OpenAfterRecv(x.sock);
      moves := [CallOf(x.sock, s1)];
      if outcome.Retry? || (outcome.Moved? && outcome.n > 0 && got[0] != '\n') {
        var more := LineLoopGoes(x1, p, if outcome.Retry? then line else line + got);
        GoesOn(x, p, moves, x1, p, more, x.(sock := LineLoop(x.sock, line).0), p);
        moves := moves + more;
      }
    }
  }

  lemma OpenAfterRecv(s: Sock)
    ensures Recv(s, 1).1.Moved? ==> Recv(s, 1).0.open
    ensures Recv(s, 1).1.Retry? || (Recv(s, 1).1.Moved? && Recv(s, 1).1.n > 0) ==> |Recv(s, 1).0.script| < |s.script|
  {
  }

  lemma RecvLineGoes(x: Session, p: Lifecycle.Phase) returns (moves: seq<Move>)
    ensures var (s', r) := RecvLine(x.sock);
      Goes(x, p, moves, x.(sock := s'), p) && Choices(moves) == [] && (r.Some? ==> s'.open)
  {
    hide Goes, LineLoop, Choices;
    if x.sock.open {
      moves := LineLoopGoes(x, p, []);
    } else {
      moves := [];
      NoMoves(x, p);
      NoChoices();
    }
  }

  // ---------------------------------------------------------------- success needs a live socket

  lemma {:induction false} SendLoopAlive(s: Sock, data: Bytes, total: nat)
    requires total < |data| && SendLoop(s, data, total).1
    ensures !Dead(SendLoop(s, data, total).0)
    decreases |s.script|
  {
    var (s1, outcome) := Send(s, data[total..]);
    SendRound(s, data, total, s1, outcome);
    if outcome.Retry? {
      SendLoopAlive(s1, data, total);
    } else if total + outcome.n < |data| {
      SendLoopAlive(s1, data, total + outcome.n);
    } else {
      SendDone(s1, data);
    }
  }

  lemma SendAllAlive(s: Sock, data: Bytes)
    requires data != [] && SendAll(s, data).1
    ensures !Dead(SendAll(s, data).0)
  {
    SendLoopAlive(s, data, 0);
  }

  // ---------------------------------------------------------------- one request

  function CommandOf(lib: Library, request: Request): Lifecycle.Command {
    if Refused(lib, request) then Lifecycle.Refuse
    else if request.kind == LIST then Lifecycle.List
    else if request.kind == QUIT then Lifecycle.Quit
    else Lifecycle.Stream
  }

  /** How the chunk loop ends: all the file supplies was sent, a send failed, or a stop was seen. */
  function StreamEnding(x: Session, file: MediaFile, chunk: nat, total: nat, good: bool): Lifecycle.WorkerChoice
    requires chunk > 0 && total <= file.size && total <= |file.contents|
    decreases file.size - total
  {
    var x1, got := Load(x), NextRead(file, chunk, total);
    if !x1.active then Lifecycle.Quiet
    else if total >= file.size || !good || got == 0 then Lifecycle.Sent
    else
      var (s, ok) := SendAll(x1.sock, file.contents[total..total + got]);
      if ok then StreamEnding(x1.(sock := s), file, chunk, total + got, got == Min(chunk, file.size - total))
      else Lifecycle.Failed
  }

  /** How a handler ends. */
  function Ending(x: Session, lib: Library, chunk: nat, request: Request): Lifecycle.WorkerChoice
    requires chunk > 0
  {
    match Streamed(lib, request)
    case None => if SendAll(x.sock, Answer(lib, request)).1 then Lifecycle.Sent else Lifecycle.Failed
    case Some(file) =>
      var (s, ok) := SendAll(x.sock, GetHeader(file.size));
      if ok then StreamEnding(x.(sock := s), file, chunk, 0, true) else Lifecycle.Failed
  }

  lemma {:induction false} StreamGoes(x: Session, file: MediaFile, chunk: nat, total: nat, good: bool) returns (moves: seq<Move>)
    requires chunk > 0 && total <= file.size && total <= |file.contents| && !Dead(x.sock)
    ensures Goes(x, Lifecycle.Answer(Lifecycle.Stream), moves, StreamLoop(x, file, chunk, total, good), Lifecycle.Check)
    ensures Choices(moves) == [StreamEnding(x, file, chunk, total, good)]
    decreases file.size - total
  {
    hide Goes, Choices, SendAll, StreamLoop, LookOf;
    var phase := Lifecycle.Answer(Lifecycle.Stream);
    var x1, got := Load(x), NextRead(file, chunk, total);
    var end := StreamLoop(x, file, chunk, total, good);
    var last: seq<Move>;
    StreamRound(x, file, chunk, total, good);
    LookGoes(x, phase);
    if !x1.active {
      last := [Own(Lifecycle.Quiet)];
      OwnGoes(x1, phase, Lifecycle.Quiet, end, Lifecycle.Check);
    } else if total >= file.size || !good || got == 0 {
      last := [Own(Lifecycle.Sent)];
      OwnGoes(x1, phase, Lifecycle.Sent, end, Lifecycle.Check);
    } else {
      var piece := file.contents[total..total + got];
      var (s, ok) := SendAll(x1.sock, piece);
      var x2 := x1.(sock := s);
      var sends := SendAllGoes(x1, phase, piece);
      var rest: seq<Move>;
      if ok {
        SendAllAlive(x1.sock, piece);
        rest := StreamGoes(x2, file, chunk, total + got, got == Min(chunk, file.size - total));
      } else {
        rest := [Own(Lifecycle.Failed)];
        OwnGoes(x2, phase, Lifecycle.Failed, end, Lifecycle.Check);
      }
      GoesOn(x1, phase, sends, x2, phase, rest, end, Lifecycle.Check);
      last := sends + rest;
    }
    GoesOn(x, phase, [LookOf(x)], x1, phase, last, end, Lifecycle.Check);
    moves := [LookOf(x)] + last;
  }

  lemma ReplyGoes(x: Session, lib: Library, chunk: nat, request: Request) returns (moves: seq<Move>)
    requires chunk > 0 && x.active && Streamed(lib, request).None?
    ensures Goes(x, Lifecycle.Answer(CommandOf(lib, request)), moves, Serve(x, lib, chunk, request), Lifecycle.Check)
    ensures Choices(moves) == [Ending(x, lib, chunk, request)]
  {
    hide Goes, Choices, SendAll;
    var phase := Lifecycle.Answer(CommandOf(lib, request));
    var answer := Answer(lib, request);
    var x1 := x.(sock := SendAll(x.sock, answer).0);
    var end := Serve(x, lib, chunk, request);
    var choice := Ending(x, lib, chunk, request);
    ServeAnswers(x, lib, chunk, request);
    var sends := SendAllGoes(x, phase, answer);
    if choice.Sent? { SendAllAlive(x.sock, answer); }
    OwnGoes(x1, phase, choice, end, Lifecycle.Check);
    GoesOn(x, phase, sends, x1, phase, [Own(choice)], end, Lifecycle.Check);
    moves := sends + [Own(choice)];
  }

  lemma ServeGoes(x: Session, lib: Library, chunk: nat, request: Request) returns (moves: seq<Move>)
    requires chunk > 0 && x.active
    ensures Goes(x, Lifecycle.Answer(CommandOf(lib, request)), moves, Serve(x, lib, chunk, request), Lifecycle.Check)
    ensures Choices(moves) == [Ending(x, lib, chunk, request)]
  {
    hide Goes, Choices, SendAll, StreamLoop, StreamEnding;
    if Streamed(lib, request).None? {
      moves := ReplyGoes(x, lib, chunk, request);
    } else {
      var phase := Lifecycle.Answer(Lifecycle.Stream);
      var file := Streamed(lib, request).value;
      var (s, ok) := SendAll(x.sock, GetHeader(file.size));
      var x1, end := x.(sock := s), Serve(x, lib, chunk, request);
      var sends := SendAllGoes(x, phase, GetHeader(file.size));
      var rest: seq<Move>;
      if ok {
        SendAllAlive(x.sock, GetHeader(file.size));
        rest := StreamGoes(x1, file, chunk, 0, true);
      } else {
        rest := [Own(Lifecycle.Failed)];
        OwnGoes(x1, phase, Lifecycle.Failed, end, Lifecycle.Check);
      }
      GoesOn(x, phase, sends, x1, phase, rest, end, Lifecycle.Check);
      moves := sends + rest;
    }
  }

  // ---------------------------------------------------------------- what the endings mean

  lemma {:induction false} StreamEndingTells(x: Session, file: MediaFile, chunk: nat, total: nat, good: bool)
    requires chunk > 0 && total <= |Supplied(file)| && (!good ==> total == |file.contents|)
    ensures var end, choice := StreamLoop(x, file, chunk, total, good), StreamEnding(x, file, chunk, total, good);
      && (choice.Sent? || choice.Failed? || choice.Quiet?)
      && (choice.Sent? ==> end.sock.sent == x.sock.sent + Supplied(file)[total..] && (x.active ==> end.active))
      && (choice.Failed? ==> end.sock.sent != x.sock.sent + Supplied(file)[total..])
      && (choice.Sent? || !end.active)
    decreases file.size - total
  {
    hide SendAll, StreamLoop, Later, Sticky, Dead, Supplied, NextRead, Min;
    NextPiece(file, chunk, total, good);
    var x1, got := Load(x), NextRead(file, chunk, total);
    StreamRound(x, file, chunk, total, good);
    var body := Supplied(file)[total..];
    if x1.active && total < file.size && good && got > 0 {
      var piece := file.contents[total..total + got];
      var (s, ok) := SendAll(x1.sock, piece);
      SendAllSound(x1.sock, piece);
      if ok {
        StreamEndingTells(x1.(sock := s), file, chunk, total + got, got == Min(chunk, file.size - total));
        assert s.sent + Supplied(file)[total + got..] == x.sock.sent + body;
      } else {
        ShortOf(x.sock.sent, s.sent, piece, Supplied(file)[total + got..]);
      }
    }
  }

  lemma ShortOf(before: Bytes, after: Bytes, piece: Bytes, more: Bytes)
    requires after <= before + piece && after != before + piece
    ensures after != before + (piece + more)
  {
    assert |after| < |before + piece|;
  }

  /** A handler that ends with `Sent` has sent all of the answer, one that ends with `Failed` has not;
      and `Quiet` is a stream that another thread's stop() ended. */
  lemma EndingTells(x: Session, lib: Library, chunk: nat, request: Request)
    requires chunk > 0
    ensures var end, choice := Serve(x, lib, chunk, request), Ending(x, lib, chunk, request);
      && (choice.Sent? ==> end.sock.sent == x.sock.sent + Answer(lib, request))
      && (choice.Failed? ==> end.sock.sent != x.sock.sent + Answer(lib, request))
      && (choice.Quiet? ==> Streamed(lib, request).Some? && !end.active)
      && (choice.Sent? || choice.Failed? || choice.Quiet?)
  {
    hide SendAll, StreamLoop, StreamEnding, Later, Dead, Sticky;
    if Streamed(lib, request).None? {
      ServeAnswers(x, lib, chunk, request);
      SendAllSound(x.sock, Answer(lib, request));
    } else {
      StreamedEndingTells(x, lib, chunk, request, Streamed(lib, request).value);
    }
  }

  lemma StreamedEndingTells(x: Session, lib: Library, chunk: nat, request: Request, file: MediaFile)
    requires chunk > 0 && Streamed(lib, request) == Some(file)
    ensures var end, choice := Serve(x, lib, chunk, request), Ending(x, lib, chunk, request);
      && (choice.Sent? ==> end.sock.sent == x.sock.sent + Answer(lib, request))
      && (choice.Failed? ==> end.sock.sent != x.sock.sent + Answer(lib, request))
      && (choice.Quiet? ==> !end.active)
      && (choice.Sent? || choice.Failed? || choice.Quiet?)
  {
    hide SendAll, StreamLoop, StreamEnding, Later, Dead, Sticky, Supplied, ListResponse, Print;
    var header, body := GetHeader(file.size), Supplied(file);
    var (s, ok) := SendAll(x.sock, header);
    SendAllSound(x.sock, header);
    assert Answer(lib, request) == header + body && body[0..] == body;
    if ok {
      StreamEndingTells(x.(sock := s), file, chunk, 0, true);
      Regroup(x.sock.sent, header, body);
    } else {
      ShortOf(x.sock.sent, s.sent, header, body);
    }
  }

  // ---------------------------------------------------------------- the whole run

  /** What a run receives and how each of its handlers ends: for every line received the command it
      asks and the ending, and `Lost` if at last recv_line fails. */
  function Log(x: Session, lib: Library, chunk: nat): seq<Lifecycle.WorkerChoice>
    requires chunk > 0
    decreases |x.sock.script|
  {
    var x1 := Load(x);
    if !x1.active then []
    else
      match RecvLine(x1.sock)
      case (s, None) => [Lifecycle.Lost]
      case (s, Some(line)) =>
        var x2, request := x1.(sock := s), Parse(line);
        [Lifecycle.Line(CommandOf(lib, request)), Ending(x2, lib, chunk, request)]
          + Log(Serve(x2, lib, chunk, request), lib, chunk)
  }

  /** Reading the flag, and acting on it. */
  lemma CheckGoes(x: Session) returns (moves: seq<Move>)
    ensures Goes(x, Lifecycle.Check, moves, Load(x), if Load(x).active then Lifecycle.Receive else Lifecycle.Leave)
    ensures Choices(moves) == [] && Load(x).sock == x.sock
  {
    hide Goes, Choices, LookOf;
    var x1 := Load(x);
    var next := if x1.active then Lifecycle.Receive else Lifecycle.Leave;
    LookGoes(x, Lifecycle.Check);
    OwnGoes(x1, Lifecycle.Check, Lifecycle.Go, x1, next);
    GoesOn(x, Lifecycle.Check, [LookOf(x)], x1, Lifecycle.Check, [Own(Lifecycle.Go)], x1, next);
    moves := [LookOf(x)] + [Own(Lifecycle.Go)];
  }

  /** Receiving a line, or not. */
  lemma ReceiveGoes(x: Session, lib: Library) returns (moves: seq<Move>)
    ensures var (s, r) := RecvLine(x.sock);
      var choice := if r.Some? then Lifecycle.Line(CommandOf(lib, Parse(r.value))) else Lifecycle.Lost;
      && Goes(x, Lifecycle.Receive, moves, x.(sock := s),
              if r.Some? then Lifecycle.Answer(CommandOf(lib, Parse(r.value))) else Lifecycle.Leave)
      && Choices(moves) == [choice]
  {
    hide Goes, Choices, RecvLine, Parse, CommandOf;
    var (s, r) := RecvLine(x.sock);
    var x1 := x.(sock := s);
    var calls := RecvLineGoes(x, Lifecycle.Receive);
    var choice := if r.Some? then Lifecycle.Line(CommandOf(lib, Parse(r.value))) else Lifecycle.Lost;
    var next := if r.Some? then Lifecycle.Answer(CommandOf(lib, Parse(r.value))) else Lifecycle.Leave;
    OwnGoes(x1, Lifecycle.Receive, choice, x1, next);
    GoesOn(x, Lifecycle.Receive, calls, x1, Lifecycle.Receive, [Own(choice)], x1, next);
    moves := calls + [Own(choice)];
  }

  lemma {:induction false} LoopGoes(x: Session, lib: Library, chunk: nat) returns (moves: seq<Move>)
    requires chunk > 0
    ensures Goes(x, Lifecycle.Check, moves, RunLoop(x, lib, chunk), Lifecycle.Leave)
    ensures Choices(moves) == Log(x, lib, chunk)
    decreases |x.sock.script|
  {
    hide Goes, Choices, Serve, RecvLine, Parse, CommandOf, Load, Ending;
    var x1, end := Load(x), RunLoop(x, lib, chunk);
    moves := CheckGoes(x);
    if x1.active {
      var (s, r) := RecvLine(x1.sock);
      var x2 := x1.(sock := s);
      var more := ReceiveGoes(x1, lib);
      if r.Some? {
        var request := Parse(r.value);
        var phase := Lifecycle.Answer(CommandOf(lib, request));
        var x3 := Serve(x2, lib, chunk, request);
        var serves := ServeGoes(x2, lib, chunk, request);
        var rest := LoopGoes(x3, lib, chunk);
        GoesOn(x2, phase, serves, x3, Lifecycle.Check, rest, end, Lifecycle.Leave);
        GoesOn(x1, Lifecycle.Receive, more, x2, phase, serves + rest, end, Lifecycle.Leave);
        more := more + (serves + rest);
      }
      GoesOn(x, Lifecycle.Check, moves, x1, Lifecycle.Receive, more, end, Lifecycle.Leave);
      moves := moves + more;
    }
  }

  /** Every run of the session code, from its first statement to its last, is a run of the worker that
      the server machine schedules. The worker's choices are the commands received and how each was
      answered, in order; between them only the session's own stops lower its flag, and only its own
      script's turns close or break its socket, in order. */
  lemma RunRefinesWorker(x: Session, lib: Library, chunk: nat) returns (moves: seq<Move>)
    requires chunk > 0
    ensures WorkerRun(Seen(x, Lifecycle.Spawned), moves) == Some(Seen(Run(x, lib, chunk), Lifecycle.Finished))
    ensures Choices(moves) == Log(x.(active := true), lib, chunk)
    ensures Turns(moves) == Ahead(x.sock.script, |Turns(moves)|, END)
    ensures Run(x, lib, chunk).sock.script == Beyond(x.sock.script, |Turns(moves)|)
    ensures Looks(moves) == Ahead(x.stops, |Looks(moves)|, false)
    ensures Run(x, lib, chunk).stops == Beyond(x.stops, |Looks(moves)|)
  {
    moves := RunGoes(x, lib, chunk);
  }

  lemma RunGoes(x: Session, lib: Library, chunk: nat) returns (moves: seq<Move>)
    requires chunk > 0
    ensures Goes(x, Lifecycle.Spawned, moves, Run(x, lib, chunk), Lifecycle.Finished)
    ensures Choices(moves) == Log(x.(active := true), lib, chunk)
  {
    hide Goes, Choices, RunLoop, Log;
    var begun, end := x.(active := true), Run(x, lib, chunk);
    var x1 := RunLoop(begun, lib, chunk);
    var x2 := x1.(active := false);
    var go := [Own(Lifecycle.Go)];
    OwnGoes(x, Lifecycle.Spawned, Lifecycle.Go, begun, Lifecycle.Check);
    var middle := LoopGoes(begun, lib, chunk);
    OwnGoes(x1, Lifecycle.Leave, Lifecycle.Go, x2, Lifecycle.Close);
    OwnGoes(x2, Lifecycle.Close, Lifecycle.Go, end, Lifecycle.Finished);
    GoesOn(x1, Lifecycle.Leave, go, x2, Lifecycle.Close, go, end, Lifecycle.Finished);
    GoesOn(begun, Lifecycle.Check, middle, x1, Lifecycle.Leave, go + go, end, Lifecycle.Finished);
    GoesOn(x, Lifecycle.Spawned, go, begun, Lifecycle.Check, middle + (go + go), end, Lifecycle.Finished);
    moves := go + (middle + (go + go));
    assert [] + (Log(begun, lib, chunk) + ([] + [])) == Log(begun, lib, chunk);
  }

  lemma {:induction false} AmongMoves(moves: seq<Move>, i: nat)
    requires i < |moves|
    ensures moves[i].Call? ==> moves[i].turn in Turns(moves)
    ensures moves[i].Look? ==> moves[i].stopped in Looks(moves)
    decreases |moves|
  {
    if i > 0 { AmongMoves(moves[1..], i - 1); }
  }

  /** So a session that no other thread touches has its flag lowered and its socket closed by nothing
      but its own steps. */
  lemma LeftAloneRefines(x: Session, lib: Library, chunk: nat) returns (moves: seq<Move>)
    requires chunk > 0
    requires (forall i | 0 <= i < |x.stops| :: !x.stops[i]) && forall i | 0 <= i < |x.sock.script| :: x.sock.script[i].cut == Keep
    ensures WorkerRun(Seen(x, Lifecycle.Spawned), moves) == Some(Seen(Run(x, lib, chunk), Lifecycle.Finished))
    ensures Choices(moves) == Log(x.(active := true), lib, chunk)
    ensures forall i, w | 0 <= i < |moves| && !moves[i].Own? && After(w, moves[i]).Some? ::
      After(w, moves[i]).value.active == w.active && After(w, moves[i]).value.open == w.open
  {
    moves := RunRefinesWorker(x, lib, chunk);
    forall i, w | 0 <= i < |moves| && !moves[i].Own? && After(w, moves[i]).Some?
      ensures After(w, moves[i]).value.active == w.active && After(w, moves[i]).value.open == w.open
    {
      AmongMoves(moves, i);
    }
  }
}
