/** The step machine of module Transfer does what the code does: every run of it, cut at the one end
and at the other, is a script under which `handle_get` sends, and `do_get` writes, the same bytes. */
module TransferCode {
  import opened Wrappers
  import opened Text
  import opened Replies
  import opened Sockets
  import opened Sessions
  import opened Clients
  import opened Transfer
  import opened TransferTheorems

  // ---------------------------------------------------------------- the server's end

  /** The turns a run gives the server's sends. */
  function ServerScript(actions: seq<Action>): seq<Turn> {
    if actions == [] then []
    else
      (match actions[0]
       case ServerSend(k) => [Turn(Keep, Move(k))]
       case ServerInterrupted => [Turn(Keep, Interrupted)]
       case ServerFail => [Turn(Keep, Reset)]
       case _ => []) + ServerScript(actions[1..])
  }

  /** Whether a stop is seen where the chunk loop looks at is_active_. */
  function ServerStops(p: Setup, s: State, actions: seq<Action>): seq<bool>
    requires ValidSetup(p) && Transfer.Run(p, s, actions).Some?
    decreases |actions|
  {
    if actions == [] then []
    else
      (if actions[0].ServerStop? then [true] else if actions[0].ServerNext? && s.server.ChunkLoop? then [false] else [])
        + ServerStops(p, Step(p, s, actions[0]).value, actions[1..])
  }

  /** All the server has put on the wire. */
  function OnWire(s: State): Bytes { s.taken + s.channel }

  function ServerAt(s: State, script: seq<Turn>, stops: seq<bool>): Session {
    Session(true, stops, Sock(true, false, [], OnWire(s), script))
  }

  /** The handler from the middle of a send on: if it succeeds, the chunk loop. */
  function SendThenStream(x: Session, pending: Bytes, file: MediaFile, chunk: nat, total: nat, good: bool): Bytes
    requires chunk > 0 && total <= file.size && total <= |file.contents|
  {
    var (s, ok) := SendLoop(x.sock, pending, 0);
    if ok then StreamLoop(x.(sock := s), file, chunk, total, good).sock.sent else s.sent
  }

  /** What the rest of handle_get leaves on the wire, from where the machine's server is. */
  function ServerRest(p: Setup, s: State, script: seq<Turn>, stops: seq<bool>): Bytes
    requires ValidSetup(p) && InRange(p, s)
  {
    var x := ServerAt(s, script, stops);
    match s.server
    case SendHeader(pending) => SendThenStream(x, pending, p.file, p.chunk, 0, true)
    case ChunkLoop(good) => StreamLoop(x, p.file, p.chunk, s.total, good).sock.sent
    case SendChunk(pending, read, good) => SendThenStream(x, pending, p.file, p.chunk, s.total + read, good)
    case _ => OnWire(s)
  }

  lemma {:induction false} SendShift(s: Sock, data: Bytes, k: nat, total: nat)
    requires k + total <= |data|
    ensures SendLoop(s, data, k + total) == SendLoop(s, data[k..], total)
    decreases |s.script|
  {
    hide Send, SendLoop;
    var rest := data[k..];
    if total == |rest| {
      SendDone(s, data);
      SendDone(s, rest);
    } else {
      assert data[k + total..] == rest[total..];
      var (s1, outcome) := Send(s, rest[total..]);
      SendRound(s, data, k + total, s1, outcome);
      SendRound(s, rest, total, s1, outcome);
      if outcome.Retry? {
        SendShift(s1, data, k, total);
      } else if outcome.Moved? && outcome.n > 0 {
        SendShift(s1, data, k, total + outcome.n);
      }
    }
  }

  /** One turn of the send in progress. */
  lemma SendTurn(x: Session, pending: Bytes, turn: Turn, rest: seq<Turn>, file: MediaFile, chunk: nat, total: nat, good: bool)
    requires chunk > 0 && total <= file.size && total <= |file.contents|
    requires pending != [] && x.sock.open && !x.sock.broken && x.sock.script == [turn] + rest && turn.cut == Keep
    ensures var result := SendThenStream(x, pending, file, chunk, total, good);
      && (turn.io.Interrupted? ==>
            result == SendThenStream(x.(sock := x.sock.(script := rest)), pending, file, chunk, total, good))
      && (turn.io.Reset? ==> result == x.sock.sent)
      && (turn.io.Move? && 1 <= turn.io.n <= |pending| ==>
            result == SendThenStream(x.(sock := x.sock.(script := rest, sent := x.sock.sent + pending[..turn.io.n])),
                                     pending[turn.io.n..], file, chunk, total, good))
  {
    hide SendLoop, StreamLoop;
    assert pending[0..] == pending;
    var (s1, outcome) := Send(x.sock, pending);
    SendRound(x.sock, pending, 0, s1, outcome);
    if turn.io.Move? && 1 <= turn.io.n <= |pending| {
      assert outcome == Moved(turn.io.n) && s1 == x.sock.(script := rest, sent := x.sock.sent + pending[..turn.io.n]);
      SendShift(s1, pending, turn.io.n, 0);
    }
  }

  lemma SendNothing(x: Session, file: MediaFile, chunk: nat, total: nat, good: bool)
    requires chunk > 0 && total <= file.size && total <= |file.contents|
    ensures SendThenStream(x, [], file, chunk, total, good) == StreamLoop(x, file, chunk, total, good).sock.sent
  {
    SendDone(x.sock, []);
  }

  /** Once the script has ended nothing more is sent. */
  lemma SendDry(s: Sock, data: Bytes)
    requires s.script == []
    ensures SendLoop(s, data, 0).0.sent == s.sent && (data != [] ==> !SendLoop(s, data, 0).1)
  {
    if data == [] {
      SendDone(s, []);
    } else {
      var (s1, outcome) := Send(s, data[0..]);
      SendRound(s, data, 0, s1, outcome);
    }
  }

  lemma StreamDry(x: Session, file: MediaFile, chunk: nat, total: nat, good: bool)
    requires chunk > 0 && total <= file.size && total <= |file.contents| && x.sock.script == []
    ensures StreamLoop(x, file, chunk, total, good).sock.sent == x.sock.sent
  {
    hide SendLoop, StreamLoop;
    StreamRound(x, file, chunk, total, good);
    var got := NextRead(file, chunk, total);
    if got > 0 && total < file.size { SendDry(x.sock, file.contents[total..total + got]); }
  }

  lemma ServerDry(p: Setup, s: State)
    requires ValidSetup(p) && InRange(p, s)
    ensures ServerRest(p, s, [], []) == OnWire(s)
  {
    hide SendLoop, StreamLoop;
    var x := ServerAt(s, [], []);
    match s.server
    case SendHeader(pending) =>
      SendDry(x.sock, pending);
      SendNothing(x, p.file, p.chunk, 0, true);
      StreamDry(x, p.file, p.chunk, 0, true);
    case ChunkLoop(good) => StreamDry(x, p.file, p.chunk, s.total, good);
    case SendChunk(pending, read, good) =>
      SendDry(x.sock, pending);
      SendNothing(x, p.file, p.chunk, s.total + read, good);
      StreamDry(x, p.file, p.chunk, s.total + read, good);
    case _ =>
  }

  /** The bookkeeping between sends: the look at is_active_ and the next read. */
  lemma ServerNextRest(p: Setup, s: State, s': State, script: seq<Turn>, stops: seq<bool>)
    requires ValidSetup(p) && InRange(p, s) && ServerStep(p, s) == Some(s') && InRange(p, s')
    ensures ServerRest(p, s, script, (if s.server.ChunkLoop? then [false] else []) + stops) == ServerRest(p, s', script, stops)
  {
    hide SendLoop, StreamLoop;
    var x := ServerAt(s, script, stops);
    match s.server
    case SendHeader(pending) =>
      assert [] + stops == stops;
      SendNothing(x, p.file, p.chunk, 0, true);
    case SendChunk(pending, read, good) =>
      assert [] + stops == stops;
      SendNothing(x, p.file, p.chunk, s.total + read, good);
    case ChunkLoop(good) =>
      var looked := ServerAt(s, script, [false] + stops);
      assert ([false] + stops)[1..] == stops;
      assert Load(looked) == x;
      StreamRound(looked, p.file, p.chunk, s.total, good);
    case _ =>
  }

  lemma StopRest(p: Setup, s: State, script: seq<Turn>, stops: seq<bool>)
    requires ValidSetup(p) && InRange(p, s) && s.server.ChunkLoop?
    ensures ServerRest(p, s, script, [true] + stops) == OnWire(s)
  {
    hide SendLoop, StreamLoop;
    StreamRound(ServerAt(s, script, [true] + stops), p.file, p.chunk, s.total, s.server.good);
  }

  lemma SendRest(p: Setup, s: State, turn: Turn, s': State, script: seq<Turn>, stops: seq<bool>)
    requires ValidSetup(p) && InRange(p, s) && InRange(p, s') && Pending(s.server) != [] && turn.cut == Keep
    requires (turn.io.Interrupted? && s' == s)
      || (turn.io.Reset? && s'.server.Aborted? && OnWire(s') == OnWire(s))
      || (turn.io.Move? && Step(p, s, ServerSend(turn.io.n)) == Some(s'))
    ensures ServerRest(p, s, [turn] + script, stops) == ServerRest(p, s', script, stops)
  {
    hide SendLoop, StreamLoop, SendThenStream;
    var x := ServerAt(s, [turn] + script, stops);
    if turn.io.Move? { assert OnWire(s') == OnWire(s) + Pending(s.server)[..turn.io.n]; }
    match s.server
    case SendHeader(pending) => SendTurn(x, pending, turn, script, p.file, p.chunk, 0, true);
    case SendChunk(pending, read, good) => SendTurn(x, pending, turn, script, p.file, p.chunk, s.total + read, good);
    case _ =>
  }

  lemma ClientLeavesServer(p: Setup, s: State, a: Action, s': State, script: seq<Turn>, stops: seq<bool>)
    requires ValidSetup(p) && InRange(p, s) && InRange(p, s') && Step(p, s, a) == Some(s')
    requires a.ClientRecv? || a.ClientNext? || a.ClientInterrupted? || a.ClientEnd? || a.ClientFail?
    ensures ServerRest(p, s, script, stops) == ServerRest(p, s', script, stops)
  {
    hide SendThenStream, StreamLoop, AfterHeader;
    ClientStepKeeps(s);
    if a.ClientRecv? { assert s.channel == s.channel[..a.k] + s.channel[a.k..]; }
    assert OnWire(s') == OnWire(s) && s'.server == s.server && s'.total == s.total;
  }

  /** The first action, as a look or a turn. */
  lemma ServerFirst(p: Setup, s: State, actions: seq<Action>)
    requires ValidSetup(p) && Inv(p, s) && actions != [] && Transfer.Run(p, s, actions).Some?
    ensures Inv(p, Step(p, s, actions[0]).value)
    ensures var next := Step(p, s, actions[0]).value;
      ServerRest(p, s, ServerScript(actions), ServerStops(p, s, actions))
        == ServerRest(p, next, ServerScript(actions[1..]), ServerStops(p, next, actions[1..]))
  {
    hide ServerRest, Conserved, ClientBooks, ServerStep, Transfer.Receive, EndOfStream;
    var a, next := actions[0], Step(p, s, actions[0]).value;
    var script, stops := ServerScript(actions[1..]), ServerStops(p, next, actions[1..]);
    StepKeeps(p, s, a, next);
    assert [] + script == script && [] + stops == stops;
    match a
    case ServerSend(k) => SendRest(p, s, Turn(Keep, Move(k)), next, script, stops);
    case ServerInterrupted => SendRest(p, s, Turn(Keep, Interrupted), next, script, stops);
    case ServerFail => SendRest(p, s, Turn(Keep, Reset), next, script, stops);
    case ServerNext => ServerNextRest(p, s, next, script, stops);
    case ServerStop =>
      StopRest(p, s, script, stops);
      AbortedRests(p, next, script, stops);
    case _ => ClientLeavesServer(p, s, a, next, script, stops);
  }

  lemma AbortedRests(p: Setup, s: State, script: seq<Turn>, stops: seq<bool>)
    requires ValidSetup(p) && InRange(p, s) && s.server.Aborted?
    ensures ServerRest(p, s, script, stops) == OnWire(s)
  {
  }

  lemma {:induction false} ServerRefines(p: Setup, s: State, actions: seq<Action>, s': State)
    requires ValidSetup(p) && Inv(p, s) && Transfer.Run(p, s, actions) == Some(s')
    ensures ServerRest(p, s, ServerScript(actions), ServerStops(p, s, actions)) == OnWire(s')
    decreases |actions|
  {
    hide ServerRest, Inv, Step;
    if actions == [] {
      InvInRange(p, s);
      ServerDry(p, s);
    } else {
      ServerFirst(p, s, actions);
      ServerRefines(p, Step(p, s, actions[0]).value, actions[1..], s');
    }
  }

  lemma InvInRange(p: Setup, s: State)
    requires Inv(p, s)
    ensures InRange(p, s) && ClientBooks(p, s)
  {
  }

  /** Every run is a script and stops under which handle_get has sent just what is on the wire. */
  lemma ServerRunsTheCode(p: Setup, lib: Library, name: Bytes, actions: seq<Action>, s: State)
    requires ValidSetup(p) && Transfer.Run(p, Initial(p), actions) == Some(s)
    requires name != [] && name in lib.files && lib.files[name] == p.file && p.file.opens
    ensures var x := Session(true, ServerStops(p, Initial(p), actions), Sock(true, false, [], [], ServerScript(actions)));
      HandleGet(x, lib, p.chunk, name).sock.sent == s.taken + s.channel
  {
    hide SendLoop, StreamLoop, ServerStops, ServerScript, Inv;
    InitialInv(p);
    InvInRange(p, Initial(p));
    ServerRefines(p, Initial(p), actions, s);
    assert OnWire(Initial(p)) == [];
  }

  // ---------------------------------------------------------------- the client's end

  /** The turns a run gives the client's receives. */
  function ClientScript(actions: seq<Action>): seq<Turn> {
    if actions == [] then []
    else
      (match actions[0]
       case ClientRecv(k) => [Turn(Keep, Move(k))]
       case ClientInterrupted => [Turn(Keep, Interrupted)]
       case ClientEnd => [Turn(Keep, HangUp)]
       case ClientFail => [Turn(Keep, Reset)]
       case _ => []) + ClientScript(actions[1..])
  }

  /** do_get has returned. */
  predicate Returned(s: State) { s.client.Saved? || s.client.NotSaved? }

  /** The verdict is the same, and the output file has what the machine's client has written. */
  predicate Matches(result: Download, s: State) {
    && (result.verdict == Succeeded <==> s.client.Saved?)
    && (match result.file case None => s.out == [] case Some(bytes) => bytes == s.out)
  }

  /** do_get from the receive loop on. */
  function GetRest(s: Sock, size: nat, out: Bytes): Download
    requires |out| <= size
  {
    var (_, ok, all) := GetLoop(s, size, out);
    Download(if ok then Succeeded else GaveUp, Some(all))
  }

  /** do_get from the status line on. */
  function LineRest(s: Sock, line: Option<Bytes>): Download {
    match line
    case None => Download(GaveUp, None)
    case Some(header) =>
      match ParseStatus(header)
      case NotOk => Download(GaveUp, None)
      case Throws => Download(Threw, None)
      case Detail(text) =>
        var size := ExtractU64(text);
        if size.ok then GetRest(s, size.value, []) else Download(GaveUp, None)
  }

  function PieceRest(s: Sock, size: nat, out: Bytes, want: nat, got: Bytes): Download
    requires |got| <= want && |out| + want <= size
  {
    var (s1, code, data) := FillLoop(s, want, got);
    if code == 1 then GetRest(s1, size, out + data) else Download(GaveUp, Some(out))
  }

  predicate ClientReady(s: State) {
    match s.client
    case ReadHeader(line) => s.out == []
    case PieceLoop => |s.out| <= s.size
    case ReadPiece(want, got) => |s.out| < s.size && want == Piece(s.size, |s.out|) && |got| <= want
    case _ => true
  }

  lemma BooksAreReady(p: Setup, s: State)
    requires Inv(p, s)
    ensures ClientReady(s)
  {
  }

  function ClientAt(bytes: Bytes, script: seq<Turn>): Sock { Sock(true, false, bytes, [], script) }

  /** What the rest of do_get comes to, from where the machine's client is. */
  function ClientRest(s: State, bytes: Bytes, script: seq<Turn>): Download
    requires ClientReady(s) && !Returned(s)
  {
    var sock := ClientAt(bytes, script);
    match s.client
    case ReadHeader(line) => var (s1, r) := LineLoop(sock, line); LineRest(s1, r)
    case PieceLoop => GetRest(sock, s.size, s.out)
    case ReadPiece(want, got) => PieceRest(sock, s.size, s.out, want, got)
  }

  /** The code's result is settled, or is that of going on from the machine's next state. */
  predicate Follows(result: Download, s': State, bytes: Bytes, script: seq<Turn>)
    requires ClientReady(s')
  {
    if Returned(s') then Matches(result, s') else result == ClientRest(s', bytes, script)
  }

  lemma HeaderFollows(s: State, line: Bytes, bytes: Bytes, script: seq<Turn>)
    requires s.out == []
    ensures ClientReady(AfterHeader(s, line))
    ensures Follows(LineRest(ClientAt(bytes, script), Some(line)), AfterHeader(s, line), bytes, script)
  {
    hide GetLoop, LineLoop, FillLoop, ExtractU64;
  }

  lemma LineRecvFollows(s: State, k: nat, bytes: Bytes, script: seq<Turn>)
    requires s.client.ReadHeader? && s.out == [] && 1 <= k <= Room(s.client) && bytes != []
    ensures ClientReady(Transfer.Receive(s, bytes[..1]))
    ensures Follows(ClientRest(s, bytes, [Turn(Keep, Move(k))] + script), Transfer.Receive(s, bytes[..1]), bytes[1..], script)
  {
    hide LineLoop, LineRest, AfterHeader;
    var line := s.client.line;
    var sock, s1 := ClientAt(bytes, [Turn(Keep, Move(k))] + script), ClientAt(bytes[1..], script);
    assert Recv(sock, 1) == (s1, Moved(1), bytes[..1]);
    LineRound(sock, line, s1, Moved(1), bytes[..1]);
    if bytes[0] == '\n' {
      HeaderFollows(s.(taken := s.taken + bytes[..1]), StripCr(line), bytes[1..], script);
    }
  }

  lemma PieceRecvFollows(s: State, k: nat, bytes: Bytes, script: seq<Turn>)
    requires s.client.ReadPiece? && ClientReady(s) && 1 <= k <= Room(s.client) && k <= |bytes|
    ensures ClientReady(Transfer.Receive(s, bytes[..k]))
    ensures ClientRest(s, bytes, [Turn(Keep, Move(k))] + script) == ClientRest(Transfer.Receive(s, bytes[..k]), bytes[k..], script)
  {
    hide FillLoop, GetRest;
    var want, got := s.client.want, s.client.got;
    var sock, s1 := ClientAt(bytes, [Turn(Keep, Move(k))] + script), ClientAt(bytes[k..], script);
    assert Recv(sock, want - |got|) == (s1, Moved(k), bytes[..k]);
    FillRound(sock, want, got, s1, Moved(k), bytes[..k]);
  }

  /** A turn that brings no bytes. */
  lemma QuietTurnFollows(s: State, turn: Turn, bytes: Bytes, script: seq<Turn>)
    requires ClientReady(s) && !Returned(s) && !s.client.PieceLoop? && turn.cut == Keep
    ensures turn.io.Interrupted? && Room(s.client) > 0 ==>
      ClientRest(s, bytes, [turn] + script) == ClientRest(s, bytes, script)
    ensures turn.io.Reset? && (Room(s.client) > 0 || s.client.ReadHeader?) ==>
      Matches(ClientRest(s, bytes, [turn] + script), s.(client := NotSaved))
    ensures ClientReady(EndOfStream(s))
    ensures turn.io.HangUp? && Room(s.client) > 0 && bytes == [] ==>
      Follows(ClientRest(s, bytes, [turn] + script), EndOfStream(s), [], script)
  {
    hide LineLoop, FillLoop, LineRest, GetRest, AfterHeader;
    var sock := ClientAt(bytes, [turn] + script);
    assert ([turn] + script)[1..] == script;
    match s.client
    case ReadHeader(line) =>
      HeaderFollows(s, line, [], script);
      GivingUp(sock);
      if |line| < MAX_LINE {
        var (s1, outcome, got) := Recv(sock, 1);
        LineRound(sock, line, s1, outcome, got);
        GivingUp(s1);
      } else {
        LineTooLong(sock, line);
      }
    case ReadPiece(want, got) =>
      if |got| < want {
        var (s1, outcome, more) := Recv(sock, want - |got|);
        FillRound(sock, want, got, s1, outcome, more);
      }
  }

  lemma GivingUp(s: Sock)
    ensures LineRest(s, None) == Download(GaveUp, None)
  {
  }

  /** The bookkeeping between receives. */
  lemma ClientNextFollows(s: State, s': State, bytes: Bytes, script: seq<Turn>)
    requires ClientReady(s) && ClientStep(s) == Some(s')
    ensures ClientReady(s') && Follows(ClientRest(s, bytes, script), s', bytes, script)
  {
    hide FillLoop;
    var sock := ClientAt(bytes, script);
    match s.client
    case PieceLoop =>
    case ReadPiece(want, got) => FillDone(sock, got);
    case _ =>
  }

  // ---------------------------------------------------------------- how much the client takes

  lemma {:induction false} TakenGrows(p: Setup, s: State, actions: seq<Action>, s': State)
    requires ValidSetup(p) && Transfer.Run(p, s, actions) == Some(s')
    ensures s.taken <= s'.taken
    ensures s.channel == [] && s.server.Aborted? ==> s'.taken == s.taken
    ensures Returned(s) ==> s'.client == s.client && s'.out == s.out
    decreases |actions|
  {
    hide Step, Returned;
    if actions != [] {
      var next := Step(p, s, actions[0]).value;
      TakenStep(p, s, actions[0], next);
      TakenGrows(p, next, actions[1..], s');
    }
  }

  lemma TakenStep(p: Setup, s: State, a: Action, s': State)
    requires ValidSetup(p) && Step(p, s, a) == Some(s')
    ensures s'.taken == s.taken + if a.ClientRecv? then s.channel[..a.k] else []
    ensures s.channel == [] && s.server.Aborted? ==> s'.channel == [] && s'.server.Aborted? && s'.taken == s.taken
    ensures Returned(s) ==> Returned(s') && s'.client == s.client && s'.out == s.out
  {
    hide AfterHeader;
    ClientStepKeeps(s);
  }

  /** The first action, when `bytes` are all the client takes from here on. */
  lemma ClientFirst(p: Setup, s: State, actions: seq<Action>, s': State, bytes: Bytes) returns (left: Bytes)
    requires ValidSetup(p) && Inv(p, s) && actions != [] && Transfer.Run(p, s, actions) == Some(s')
    requires !Returned(s) && ClientReady(s) && s'.taken == s.taken + bytes
    ensures var next := Step(p, s, actions[0]).value;
      && Inv(p, next) && ClientReady(next) && s'.taken == next.taken + left
      && Follows(ClientRest(s, bytes, ClientScript(actions)), next, left, ClientScript(actions[1..]))
  {
    hide Conserved, InRange, ClientBooks, ServerStep, Follows, ClientRest, Transfer.Receive, EndOfStream, ClientStep;
    var a, next := actions[0], Step(p, s, actions[0]).value;
    var script := ClientScript(actions[1..]);
    StepKeeps(p, s, a, next);
    BooksAreReady(p, next);
    TakenStep(p, s, a, next);
    TakenGrows(p, next, actions[1..], s');
    left := bytes;
    assert [] + script == script;
    match a
    case ClientRecv(k) =>
      left := bytes[k..];
      TakenFirst(s.taken, s.channel[..k], bytes, s'.taken);
      RecvFollows(s, k, bytes, script);
    case ClientNext => ClientNextFollows(s, next, bytes, script);
    case ClientInterrupted =>
      QuietTurnFollows(s, Turn(Keep, Interrupted), bytes, script);
      GoesOnFollows(s, next, bytes, [Turn(Keep, Interrupted)] + script, script);
    case ClientEnd =>
      TakenGrows(p, s, actions, s');
      QuietTurnFollows(s, Turn(Keep, HangUp), bytes, script);
    case ClientFail =>
      QuietTurnFollows(s, Turn(Keep, Reset), bytes, script);
      SettledFollows(ClientRest(s, bytes, [Turn(Keep, Reset)] + script), next, bytes, script);
    case _ =>
      SameClient(p, s, a, next);
      GoesOnFollows(s, next, bytes, script, script);
  }

  lemma TakenFirst(before: Bytes, first: Bytes, bytes: Bytes, all: Bytes)
    requires all == before + bytes && before + first <= all
    ensures first <= bytes && all == before + first + bytes[|first|..]
  {
    assert all[|before|..] == bytes;
    assert bytes[..|first|] == (before + first)[|before|..];
  }

  lemma RecvFollows(s: State, k: nat, bytes: Bytes, script: seq<Turn>)
    requires ClientReady(s) && !Returned(s) && 1 <= k <= Room(s.client) && k <= |s.channel| && s.channel[..k] <= bytes
    ensures var next := Transfer.Receive(s.(channel := s.channel[k..]), s.channel[..k]);
      ClientReady(next) && Follows(ClientRest(s, bytes, [Turn(Keep, Move(k))] + script), next, bytes[k..], script)
  {
    hide LineLoop, PieceRest, AfterHeader, LineRest;
    var s1 := s.(channel := s.channel[k..]);
    assert s.channel[..k] == bytes[..k];
    if s.client.ReadHeader? {
      LineRecvFollows(s1, k, bytes, script);
    } else {
      PieceRecvFollows(s1, k, bytes, script);
    }
  }

  lemma SameClient(p: Setup, s: State, a: Action, s': State)
    requires ValidSetup(p) && Step(p, s, a) == Some(s')
    requires a.ServerSend? || a.ServerNext? || a.ServerInterrupted? || a.ServerFail? || a.ServerStop?
    ensures s'.client == s.client && s'.out == s.out && s'.size == s.size && s'.taken == s.taken
  {
  }

  lemma GoesOnFollows(s: State, s': State, bytes: Bytes, script: seq<Turn>, script': seq<Turn>)
    requires ClientReady(s) && !Returned(s) && s'.client == s.client && s'.out == s.out && s'.size == s.size
    requires ClientRest(s, bytes, script) == ClientRest(s, bytes, script')
    ensures ClientReady(s') && Follows(ClientRest(s, bytes, script), s', bytes, script')
  {
    hide LineLoop, PieceRest, GetRest;
  }

  lemma SettledFollows(result: Download, s': State, bytes: Bytes, script: seq<Turn>)
    requires Returned(s') && Matches(result, s')
    ensures Follows(result, s', bytes, script)
  {
  }

  lemma {:induction false} ClientRefines(p: Setup, s: State, actions: seq<Action>, s': State, bytes: Bytes)
    requires ValidSetup(p) && Inv(p, s) && Transfer.Run(p, s, actions) == Some(s') && Returned(s')
    requires !Returned(s) && ClientReady(s) && s'.taken == s.taken + bytes
    ensures Matches(ClientRest(s, bytes, ClientScript(actions)), s')
    decreases |actions|
  {
    hide Inv, Step, ClientReady, ClientRest, Matches, Returned;
    if actions != [] {
      var next := Step(p, s, actions[0]).value;
      var left := ClientFirst(p, s, actions, s', bytes);
      if Returned(next) {
        TakenGrows(p, next, actions[1..], s');
        SameMatches(ClientRest(s, bytes, ClientScript(actions)), next, s');
      } else {
        ClientRefines(p, next, actions[1..], s', left);
      }
    }
  }

  lemma SameMatches(result: Download, s: State, s': State)
    requires Matches(result, s) && s'.client == s.client && s'.out == s.out
    ensures Matches(result, s')
  {
  }

  /** Every run in which do_get returns is a script under which it returns just so: with this verdict,
      having written just these bytes. */
  lemma ClientRunsTheCode(p: Setup, actions: seq<Action>, s: State)
    requires ValidSetup(p) && Transfer.Run(p, Initial(p), actions) == Some(s) && Returned(s)
    ensures Matches(ReceiveFile(ClientAt(s.taken, ClientScript(actions)), true).1, s)
  {
    hide LineLoop, GetLoop, Inv, ClientScript, ParseStatus, ExtractU64;
    InitialInv(p);
    BooksAreReady(p, Initial(p));
    assert [] + s.taken == s.taken;
    ClientRefines(p, Initial(p), actions, s, s.taken);
  }

  /** Both ends at once: the code of the server sends what is on the wire, the client's code reads as
      much of it as the machine's client did, and comes to the same verdict and the same file. */
  lemma TransferRunsTheCode(p: Setup, lib: Library, name: Bytes, actions: seq<Action>, s: State)
      returns (serverScript: seq<Turn>, stops: seq<bool>, clientScript: seq<Turn>)
    requires ValidSetup(p) && Transfer.Run(p, Initial(p), actions) == Some(s) && Returned(s)
    requires name != [] && name in lib.files && lib.files[name] == p.file && p.file.opens
    ensures var wire := HandleGet(Session(true, stops, Sock(true, false, [], [], serverScript)), lib, p.chunk, name).sock.sent;
      && s.taken <= wire == s.taken + s.channel
      && Matches(ReceiveFile(Sock(true, false, s.taken, [], clientScript), true).1, s)
  {
    hide HandleGet, ReceiveFile, Matches, Inv;
    serverScript, stops, clientScript := ServerScript(actions), ServerStops(p, Initial(p), actions), ClientScript(actions);
    ServerRunsTheCode(p, lib, name, actions, s);
    ClientRunsTheCode(p, actions, s);
  }
}
