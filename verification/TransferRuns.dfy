/** And the code does what the step machine of module Transfer can do: whatever the two scripts, the calls
of both ends, one by one and with their results, are the steps of one run of the machine. So what is
proved of every step of its runs holds at every call of the code. */
module TransferRuns {
  import opened Wrappers
  import opened Text
  import opened Protocol
  import opened Replies
  import opened Sockets
  import opened Sessions
  import opened Clients
  import opened ClientTheorems
  import opened Calls
  import opened Transfer
  import opened TransferTheorems
  import opened TransferProgress
  import opened TransferCode
  import W = WorkerRefinement

  // ---------------------------------------------------------------- the calls that the steps are

  function ServerCall(a: Action): seq<Outcome> {
    match a
    case ServerSend(k) => [Moved(k)]
    case ServerInterrupted => [Retry]
    case ServerFail => [Error]
    case _ => []
  }

  function ServerCalls(actions: seq<Action>): seq<Outcome> {
    if actions == [] then [] else ServerCall(actions[0]) + ServerCalls(actions[1..])
  }

  function ClientCall(a: Action): seq<Outcome> {
    match a
    case ClientRecv(k) => [Moved(k)]
    case ClientInterrupted => [Retry]
    case ClientEnd => [Moved(0)]
    case ClientFail => [Error]
    case _ => []
  }

  function ClientCalls(actions: seq<Action>): seq<Outcome> {
    if actions == [] then [] else ClientCall(actions[0]) + ClientCalls(actions[1..])
  }

  lemma Regroup<T>(a: seq<T>, b: seq<T>, c: seq<T>)
    ensures a + (b + c) == a + b + c
  {
  }

  lemma {:induction false} CallsSplit(a: seq<Action>, b: seq<Action>)
    ensures ServerCalls(a + b) == ServerCalls(a) + ServerCalls(b)
    ensures ClientCalls(a + b) == ClientCalls(a) + ClientCalls(b)
  {
    hide ServerCall, ClientCall;
    if a == [] {
      assert a + b == b;
    } else {
      assert (a + b)[1..] == a[1..] + b && (a + b)[0] == a[0];
      CallsSplit(a[1..], b);
      Regroup(ServerCall(a[0]), ServerCalls(a[1..]), ServerCalls(b));
      Regroup(ClientCall(a[0]), ClientCalls(a[1..]), ClientCalls(b));
    }
  }

  lemma OneCall(a: Action)
    ensures ServerCalls([a]) == ServerCall(a) && ClientCalls([a]) == ClientCall(a)
  {
    assert [a][1..] == [];
  }

  lemma {:induction false} RunOn(p: Setup, s: State, a: seq<Action>, s1: State, b: seq<Action>)
    requires ValidSetup(p) && Transfer.Run(p, s, a) == Some(s1)
    ensures Transfer.Run(p, s, a + b) == Transfer.Run(p, s1, b)
    decreases |a|
  {
    hide Step;
    if a == [] {
      assert a + b == b;
    } else {
      assert (a + b)[1..] == a[1..] + b && (a + b)[0] == a[0];
      RunOn(p, Step(p, s, a[0]).value, a[1..], s1, b);
    }
  }

  lemma {:induction false} StopsOn(p: Setup, s: State, a: seq<Action>, s1: State, b: seq<Action>)
    requires ValidSetup(p) && Transfer.Run(p, s, a) == Some(s1) && Transfer.Run(p, s1, b).Some?
    ensures Transfer.Run(p, s, a + b).Some?
    ensures ServerStops(p, s, a + b) == ServerStops(p, s, a) + ServerStops(p, s1, b)
    decreases |a|
  {
    hide Step;
    RunOn(p, s, a, s1, b);
    if a == [] {
      assert a + b == b;
    } else {
      var next, rest := Step(p, s, a[0]).value, a[1..];
      assert (a + b)[1..] == rest + b && (a + b)[0] == a[0];
      StopsOn(p, next, rest, s1, b);
      var look := if a[0].ServerStop? then [true] else if a[0].ServerNext? && s.server.ChunkLoop? then [false] else [];
      Regroup(look, ServerStops(p, next, rest), ServerStops(p, s1, b));
    }
  }

  // ---------------------------------------------------------------- stretches of a run

  predicate OfServer(a: Action) { a.ServerSend? || a.ServerNext? || a.ServerInterrupted? || a.ServerFail? || a.ServerStop? }

  predicate AllOf(server: bool, actions: seq<Action>) { forall i | 0 <= i < |actions| :: OfServer(actions[i]) == server }

  /** The machine gets from s to s' by these actions. */
  ghost predicate Leads(p: Setup, s: State, actions: seq<Action>, s': State)
    requires ValidSetup(p)
  {
    Inv(p, s) && Transfer.Run(p, s, actions) == Some(s') && Inv(p, s')
  }

  /** By the server's steps alone, making these calls, and looking at these stops up to those. */
  ghost predicate Serves(p: Setup, s: State, actions: seq<Action>, s': State,
                         stops: seq<bool>, stops': seq<bool>, calls: seq<Outcome>)
    requires ValidSetup(p)
  {
    && Leads(p, s, actions, s') && AllOf(true, actions)
    && ServerCalls(actions) == calls && ClientCalls(actions) == []
    && var looks := ServerStops(p, s, actions);
    && looks == W.Ahead(stops, |looks|, false) && stops' == W.Beyond(stops, |looks|)
  }

  /** By the client's steps alone, making these calls. */
  ghost predicate Fetches(p: Setup, s: State, actions: seq<Action>, s': State, calls: seq<Outcome>)
    requires ValidSetup(p)
  {
    && Leads(p, s, actions, s') && AllOf(false, actions)
    && ServerCalls(actions) == [] && ClientCalls(actions) == calls && ServerStops(p, s, actions) == []
  }

  lemma ServesOn(p: Setup, s: State, a: seq<Action>, s1: State, b: seq<Action>, s2: State,
                 stops: seq<bool>, stops1: seq<bool>, stops2: seq<bool>, calls: seq<Outcome>, calls1: seq<Outcome>)
    requires ValidSetup(p) && Serves(p, s, a, s1, stops, stops1, calls) && Serves(p, s1, b, s2, stops1, stops2, calls1)
    ensures Serves(p, s, a + b, s2, stops, stops2, calls + calls1)
  {
    hide Inv, Transfer.Run, ServerCalls, ClientCalls, ServerStops, W.Beyond;
    StopsOn(p, s, a, s1, b);
    RunOn(p, s, a, s1, b);
    CallsSplit(a, b);
    W.AheadAgain(stops, |ServerStops(p, s, a)|, |ServerStops(p, s1, b)|, false);
  }

  lemma FetchesOn(p: Setup, s: State, a: seq<Action>, s1: State, b: seq<Action>, s2: State,
                  calls: seq<Outcome>, calls1: seq<Outcome>)
    requires ValidSetup(p) && Fetches(p, s, a, s1, calls) && Fetches(p, s1, b, s2, calls1)
    ensures Fetches(p, s, a + b, s2, calls + calls1)
  {
    hide Inv, Transfer.Run, ServerCalls, ClientCalls, ServerStops;
    StopsOn(p, s, a, s1, b);
    RunOn(p, s, a, s1, b);
    CallsSplit(a, b);
  }

  lemma OneLead(p: Setup, s: State, a: Action, s': State)
    requires ValidSetup(p) && Inv(p, s) && Step(p, s, a) == Some(s')
    ensures Leads(p, s, [a], s')
    ensures ServerStops(p, s, [a]) ==
      if a.ServerStop? then [true] else if a.ServerNext? && s.server.ChunkLoop? then [false] else []
  {
    hide Inv, Step;
    StepKeeps(p, s, a, s');
    assert [a][1..] == [] && Transfer.Run(p, s', []) == Some(s') && ServerStops(p, s', []) == [];
  }

  /** A step of the server that is no look. */
  lemma ServeStep(p: Setup, s: State, a: Action, s': State, stops: seq<bool>)
    requires ValidSetup(p) && Inv(p, s) && Step(p, s, a) == Some(s')
    requires a.ServerSend? || a.ServerInterrupted? || a.ServerFail? || (a.ServerNext? && !s.server.ChunkLoop?)
    ensures Serves(p, s, [a], s', stops, stops, ServerCall(a))
  {
    hide Inv, Transfer.Run, ServerCalls, ClientCalls, ServerStops, Step;
    OneLead(p, s, a, s');
    OneCall(a);
    assert W.Ahead(stops, 0, false) == [];
  }

  /** A look at is_active_ at the head of the chunk loop. */
  lemma LookStep(p: Setup, s: State, x: Session, s': State)
    requires ValidSetup(p) && Inv(p, s) && s.server.ChunkLoop? && x.active
    requires Step(p, s, if Load(x).active then ServerNext else ServerStop) == Some(s')
    ensures Serves(p, s, [if Load(x).active then ServerNext else ServerStop], s', x.stops, Load(x).stops, [])
  {
    hide Inv, Transfer.Run, ServerCalls, ClientCalls, ServerStops, Step;
    var a := if Load(x).active then ServerNext else ServerStop;
    OneLead(p, s, a, s');
    OneCall(a);
    assert W.Ahead(x.stops, 1, false) == [!Load(x).active];
  }

  lemma NoServe(p: Setup, s: State, stops: seq<bool>)
    requires ValidSetup(p) && Inv(p, s)
    ensures Serves(p, s, [], s, stops, stops, [])
  {
    assert W.Ahead(stops, 0, false) == [];
  }

  lemma FetchStep(p: Setup, s: State, a: Action, s': State)
    requires ValidSetup(p) && Inv(p, s) && Step(p, s, a) == Some(s')
    requires a.ClientRecv? || a.ClientInterrupted? || a.ClientEnd? || a.ClientFail? || a.ClientNext?
    ensures Fetches(p, s, [a], s', ClientCall(a))
  {
    hide Inv, Transfer.Run, ServerCalls, ClientCalls, ServerStops, Step;
    OneLead(p, s, a, s');
    OneCall(a);
  }

  lemma NoFetch(p: Setup, s: State)
    requires ValidSetup(p) && Inv(p, s)
    ensures Fetches(p, s, [], s, [])
  {
  }

  // ---------------------------------------------------------------- the server's end

  /** The channel holds the whole reply. */
  predicate Wide(p: Setup) { ValidSetup(p) && p.capacity >= |Whole(p)| }

  /** Nothing has been received yet. */
  predicate Untouched(s: State) { s.taken == [] && s.client == ReadHeader([]) }

  predicate ServerGone(s: State) { s.server.Served? || s.server.Aborted? }

  /** There is room for all that is still to be sent. */
  lemma RoomForAll(p: Setup, s: State)
    requires Wide(p) && Inv(p, s) && s.taken == []
    ensures |s.channel| + |Pending(s.server)| <= p.capacity
  {
    hide Whole, Ahead;
    assert |s.channel| + |Unsent(p, s)| == |Whole(p)|;
  }

  /** One call of the send in progress, as a step. */
  lemma SendStep(p: Setup, s: State, sock: Sock, stops: seq<bool>) returns (a: Action, s': State)
    requires Wide(p) && Inv(p, s) && Untouched(s) && Pending(s.server) != [] && s.channel == sock.sent
    ensures var (sock', outcome) := Send(sock, Pending(s.server));
      && Untouched(s') && s'.channel == sock'.sent && s'.total == s.total
      && (if outcome.Retry? then s' == s && Serves(p, s, [a], s', stops, stops, [Retry])
          else if outcome.Moved? && outcome.n > 0
          then outcome.n <= |Pending(s.server)| && s'.server == Transfer.Sent(s.server, outcome.n)
            && Serves(p, s, [a], s', stops, stops, [outcome])
          else s'.server.Aborted? && Serves(p, s, [a], s', stops, stops, [Error]))
  {
    hide Inv, Serves, Unsent, Whole;
    var (sock', outcome) := Send(sock, Pending(s.server));
    RoomForAll(p, s);
    a := if outcome.Retry? then ServerInterrupted
         else if outcome.Moved? && outcome.n > 0 then ServerSend(outcome.n) else ServerFail;
    s' := Step(p, s, a).value;
    ServeStep(p, s, a, s', stops);
  }

  lemma SentPending(pc: ServerPc, k: nat)
    requires k <= |Pending(pc)|
    ensures Pending(Transfer.Sent(pc, k)) == Pending(pc)[k..]
  {
  }

  lemma {:induction false} CallsShift(s: Sock, data: Bytes, k: nat, total: nat)
    requires k + total <= |data|
    ensures SendCalls(s, data, k + total) == SendCalls(s, data[k..], total)
    decreases |s.script|
  {
    hide Send, SendCalls;
    var rest := data[k..];
    if total == |rest| {
      SendCallsDone(s, data);
      SendCallsDone(s, rest);
    } else {
      assert data[k + total..] == rest[total..];
      var (s1, outcome) := Send(s, rest[total..]);
      SendCallsRound(s, data, k + total, s1, outcome);
      SendCallsRound(s, rest, total, s1, outcome);
      SendRound(s, rest, total, s1, outcome);
      if outcome.Retry? {
        CallsShift(s1, data, k, total);
      } else if outcome.Moved? && outcome.n > 0 {
        CallsShift(s1, data, k, total + outcome.n);
      }
    }
  }

  /** The same send, with nothing left of it. */
  predicate SameButSent(pc: ServerPc, pc': ServerPc) {
    match pc
    case SendHeader(_) => pc' == SendHeader([])
    case SendChunk(_, read, good) => pc' == SendChunk([], read, good)
    case _ => false
  }

  /** The send in progress, to its end. */
  lemma {:induction false} SendRuns(p: Setup, s: State, sock: Sock, stops: seq<bool>) returns (actions: seq<Action>, s': State)
    requires Wide(p) && Inv(p, s) && Untouched(s) && s.channel == sock.sent
    requires s.server.SendHeader? || s.server.SendChunk?
    ensures var (sock', ok) := SendLoop(sock, Pending(s.server), 0);
      && Serves(p, s, actions, s', stops, stops, SendCalls(sock, Pending(s.server), 0))
      && Inv(p, s') && Untouched(s') && s'.channel == sock'.sent && s'.total == s.total
      && (if ok then SameButSent(s.server, s'.server) else s'.server.Aborted?)
    decreases |sock.script|
  {
    hide Inv, Serves, SendLoop, SendCalls, Send, Whole;
    var pending := Pending(s.server);
    if pending == [] {
      SendDone(sock, pending);
      SendCallsDone(sock, pending);
      actions, s' := [], s;
      NoServe(p, s, stops);
    } else {
      assert pending[0..] == pending;
      var (sock1, outcome) := Send(sock, pending);
      var a: Action;
      SendRound(sock, pending, 0, sock1, outcome);
      SendCallsRound(sock, pending, 0, sock1, outcome);
      a, s' := SendStep(p, s, sock, stops);
      actions := [a];
      ServedInv(p, s, [a], s', stops, stops, if outcome.Retry? then [Retry] else if outcome.Moved? && outcome.n > 0 then [outcome] else [Error]);
      if outcome.Retry? || (outcome.Moved? && outcome.n > 0) {
        var s1, more := s', [];
        var call := if outcome.Retry? then Retry else outcome;
        if outcome.Moved? {
          SentPending(s.server, outcome.n);
          SendShift(sock1, pending, outcome.n, 0);
          CallsShift(sock1, pending, outcome.n, 0);
        }
        more, s' := SendRuns(p, s1, sock1, stops);
        ServesOn(p, s, [a], s1, more, s', stops, stops, stops, [call], SendCalls(sock1, Pending(s1.server), 0));
        actions := [a] + more;
      }
    }
  }

  lemma ServedInv(p: Setup, s: State, actions: seq<Action>, s': State, stops: seq<bool>, stops': seq<bool>, calls: seq<Outcome>)
    requires ValidSetup(p) && Serves(p, s, actions, s', stops, stops', calls)
    ensures Inv(p, s')
  {
  }

  /** A whole send_all: the code may not even begin it if the socket has been closed. */
  lemma SendAllRuns(p: Setup, s: State, sock: Sock, stops: seq<bool>) returns (actions: seq<Action>, s': State)
    requires Wide(p) && Inv(p, s) && Untouched(s) && s.channel == sock.sent
    requires (s.server.SendHeader? || s.server.SendChunk?) && Pending(s.server) != []
    ensures var (sock', ok) := SendAll(sock, Pending(s.server));
      && Serves(p, s, actions, s', stops, stops, SendAllCalls(sock, Pending(s.server)))
      && Inv(p, s') && Untouched(s') && s'.channel == sock'.sent && s'.total == s.total
      && (if ok then SameButSent(s.server, s'.server) else s'.server.Aborted?)
  {
    hide Inv, Serves, SendLoop, SendCalls, Unsent, Whole;
    if sock.open {
      actions, s' := SendRuns(p, s, sock, stops);
    } else {
      s' := Step(p, s, ServerFail).value;
      actions := [ServerFail];
      ServeStep(p, s, ServerFail, s', stops);
      ServedInv(p, s, actions, s', stops, stops, [Error]);
    }
  }

  /** The machine's server at the head of the chunk loop, and the code's there too. */
  lemma {:induction false} StreamRuns(p: Setup, s: State, x: Session) returns (actions: seq<Action>, s': State)
    requires Wide(p) && Inv(p, s) && Untouched(s) && s.channel == x.sock.sent && s.server.ChunkLoop? && s.total <= p.file.size
    requires x.active && s.total <= |p.file.contents|
    ensures var end := StreamLoop(x, p.file, p.chunk, s.total, s.server.good);
      && Serves(p, s, actions, s', x.stops, end.stops, StreamCalls(x, p.file, p.chunk, s.total, s.server.good))
      && Inv(p, s') && Untouched(s') && s'.channel == end.sock.sent && ServerGone(s')
    decreases p.file.size - s.total, 1
  {
    hide Inv, Serves, SendAll, SendAllCalls, StreamLoop, Unsent, Whole;
    var x1, got, end := Load(x), NextRead(p.file, p.chunk, s.total), StreamLoop(x, p.file, p.chunk, s.total, s.server.good);
    StreamRound(x, p.file, p.chunk, s.total, s.server.good);
    var a := if x1.active then ServerNext else ServerStop;
    s' := Step(p, s, a).value;
    actions := [a];
    LookStep(p, s, x, s');
    ServedInv(p, s, actions, s', x.stops, x1.stops, []);
    if x1.active && s.total < p.file.size && s.server.good && got > 0 {
      var s1, more := s', [];
      more, s' := PieceRuns(p, s1, x1, s.total);
      var calls := StreamCalls(x, p.file, p.chunk, s.total, s.server.good);
      assert [] + calls == calls;
      ServesOn(p, s, [a], s1, more, s', x.stops, x1.stops, end.stops, [], calls);
      actions := [a] + more;
    }
  }

  /** One chunk, and the rest of the stream. */
  lemma {:induction false} PieceRuns(p: Setup, s: State, x: Session, total: nat) returns (actions: seq<Action>, s': State)
    requires Wide(p) && Inv(p, s) && Untouched(s) && s.channel == x.sock.sent && s.total == total < p.file.size
    requires x.active && total < |p.file.contents|
    requires var got := NextRead(p.file, p.chunk, total);
      && 0 < got && total + got <= |p.file.contents| && total + got <= p.file.size
      && s.server == SendChunk(p.file.contents[total..total + got], got, got == Min(p.chunk, p.file.size - total))
    ensures var got := NextRead(p.file, p.chunk, total);
      var piece, good := p.file.contents[total..total + got], got == Min(p.chunk, p.file.size - total);
      var (sock, ok) := SendAll(x.sock, piece);
      var x1 := x.(sock := sock);
      var end := if ok then StreamLoop(x1, p.file, p.chunk, total + got, good) else x1.(active := false);
      && Serves(p, s, actions, s', x.stops, end.stops,
           SendAllCalls(x.sock, piece) + if ok then StreamCalls(x1, p.file, p.chunk, total + got, good) else [])
      && Inv(p, s') && Untouched(s') && ServerGone(s') && s'.channel == end.sock.sent
    decreases p.file.size - total, 0
  {
    hide Inv, Serves, SendAll, SendAllCalls, StreamLoop, StreamCalls, Unsent, Whole;
    var got := NextRead(p.file, p.chunk, total);
    var piece, good := p.file.contents[total..total + got], got == Min(p.chunk, p.file.size - total);
    var (sock, ok) := SendAll(x.sock, piece);
    var x1 := x.(sock := sock);
    var calls := SendAllCalls(x.sock, piece);
    actions, s' := SendAllRuns(p, s, x.sock, x.stops);
    if ok {
      var s1, s2, more := s', Step(p, s', ServerNext).value, [];
      var end, rest := StreamLoop(x1, p.file, p.chunk, total + got, good), StreamCalls(x1, p.file, p.chunk, total + got, good);
      ServeStep(p, s1, ServerNext, s2, x.stops);
      ServedInv(p, s1, [ServerNext], s2, x.stops, x.stops, []);
      more, s' := StreamRuns(p, s2, x1);
      ServesOn(p, s1, [ServerNext], s2, more, s', x.stops, x.stops, end.stops, [], rest);
      assert [] + rest == rest;
      ServesOn(p, s, actions, s1, [ServerNext] + more, s', x.stops, x.stops, end.stops, calls, rest);
      actions := actions + ([ServerNext] + more);
    } else {
      assert calls + [] == calls;
    }
  }

  /** Whatever the script and the stops, handle_get is a run of the machine's server: its calls of
      ::send, with their results, are the machine's, and its looks at is_active_ too. */
  lemma ServerCodeRuns(p: Setup, lib: Library, name: Bytes, stops: seq<bool>, script: seq<Turn>)
      returns (actions: seq<Action>, s: State)
    requires Wide(p) && name != [] && name in lib.files && lib.files[name] == p.file && p.file.opens
    ensures var x := Session(true, stops, Sock(true, false, [], [], script));
      var end := HandleGet(x, lib, p.chunk, name);
      && Serves(p, Initial(p), actions, s, stops, end.stops, ServeCalls(x, lib, p.chunk, Request(GET, name)))
      && Inv(p, s) && Untouched(s) && ServerGone(s) && s.channel == end.sock.sent
  {
    hide Inv, Serves, SendAll, SendAllCalls, StreamLoop, StreamCalls, Whole;
    var x := Session(true, stops, Sock(true, false, [], [], script));
    var start, header := Initial(p), GetHeader(p.file.size);
    var (sock, ok) := SendAll(x.sock, header);
    var calls := SendAllCalls(x.sock, header);
    InitialInv(p);
    actions, s := SendAllRuns(p, start, x.sock, stops);
    if ok {
      var s1, s2, more := s, Step(p, s, ServerNext).value, [];
      var x1 := x.(sock := sock);
      var end, rest := StreamLoop(x1, p.file, p.chunk, 0, true), StreamCalls(x1, p.file, p.chunk, 0, true);
      ServeStep(p, s1, ServerNext, s2, stops);
      ServedInv(p, s1, [ServerNext], s2, stops, stops, []);
      more, s := StreamRuns(p, s2, x1);
      ServesOn(p, s1, [ServerNext], s2, more, s, stops, stops, end.stops, [], rest);
      assert [] + rest == rest;
      ServesOn(p, start, actions, s1, [ServerNext] + more, s, stops, stops, end.stops, calls, rest);
      actions := actions + ([ServerNext] + more);
    } else {
      assert calls + [] == calls;
    }
  }

  // ---------------------------------------------------------------- the client's end

  /** The file supplies what is announced. */
  predicate Supplies(p: Setup) { ValidSetup(p) && |p.file.contents| >= p.file.size }

  /** The server has done with it, and the client's code has before it what is in the channel. */
  predicate Facing(s: State, sock: Sock) { ServerGone(s) && Undisturbed(sock) && sock.incoming == s.channel }

  /** What a call of ::recv on an undisturbed socket can do. */
  lemma RecvOutcomes(s: Sock, room: nat)
    requires Undisturbed(s) && room > 0
    ensures var (s', outcome, got) := Recv(s, room);
      && (outcome.Moved? && outcome.n > 0 ==>
            Undisturbed(s') && outcome.n <= room && outcome.n <= |s.incoming|
            && got == s.incoming[..outcome.n] && s'.incoming == s.incoming[outcome.n..])
      && (outcome.Retry? ==> Undisturbed(s') && s'.incoming == s.incoming)
      && (outcome == Moved(0) ==> Undisturbed(s') && s'.incoming == s.incoming == [])
      && (outcome.Retry? || (outcome.Moved? && outcome.n > 0) ==> |s'.script| < |s.script|)
  {
  }

  /** The end of the stream is met only after the server has failed: until then there is more to come. */
  lemma EndMeansAborted(p: Setup, s: State)
    requires Supplies(p) && Inv(p, s) && ServerGone(s) && s.channel == [] && Room(s.client) > 0
    ensures s.server.Aborted?
  {
    if s.server.Served? {
      AllSent(p, s);
      MoreToTake(p, s);
    }
  }

  lemma MoreToTake(p: Setup, s: State)
    requires Supplies(p) && Inv(p, s) && s.server.Served? && Room(s.client) > 0
    ensures s.taken != Whole(p)
  {
    hide Whole;
    if s.client.ReadHeader? {
      HeaderHasRoom(p, s);
    } else {
      InvParts(p, s);
      BodyNotAllTaken(p, s);
    }
  }

  /** One call of ::recv, as a step. */
  lemma RecvStep(p: Setup, s: State, sock: Sock) returns (a: Action, s': State)
    requires Supplies(p) && Inv(p, s) && Facing(s, sock) && Room(s.client) > 0
    ensures var (sock', outcome, got) := Recv(sock, Room(s.client));
      && Fetches(p, s, [a], s', [outcome]) && Inv(p, s') && ServerGone(s')
      && (match outcome
          case Retry => s' == s && Facing(s', sock')
          case Error => s' == s.(client := NotSaved)
          case Moved(n) =>
            if n == 0 then s' == EndOfStream(s) && Facing(s', sock')
            else got != [] && s' == Transfer.Receive(s.(channel := s.channel[n..]), got) && Facing(s', sock'))
  {
    hide Inv, Fetches, Undisturbed, Recv;
    var (sock', outcome, got) := Recv(sock, Room(s.client));
    RecvOutcomes(sock, Room(s.client));
    if outcome == Moved(0) { EndMeansAborted(p, s); }
    a := match outcome
      case Retry => ClientInterrupted
      case Error => ClientFail
      case Moved(n) => if n == 0 then ClientEnd else ClientRecv(n);
    s' := Step(p, s, a).value;
    FetchStep(p, s, a, s');
    FetchedInv(p, s, [a], s', [outcome]);
  }

  lemma FetchedInv(p: Setup, s: State, actions: seq<Action>, s': State, calls: seq<Outcome>)
    requires ValidSetup(p) && Fetches(p, s, actions, s', calls)
    ensures Inv(p, s')
  {
  }

  /** The line has been received, or the client has given up. */
  predicate LineTaken(s: State, sock': Sock, r: Option<Bytes>, s': State) {
    match r
    case None => s'.client == NotSaved && s'.out == s.out && ServerGone(s')
    case Some(line) =>
      var after := AfterHeader(s, line);
      Facing(s', sock') && s'.client == after.client && s'.size == after.size && s'.out == s.out
  }

  lemma {:induction false} LineRuns(p: Setup, s: State, sock: Sock, line: Bytes) returns (actions: seq<Action>, s': State)
    requires Supplies(p) && Inv(p, s) && Facing(s, sock) && s.client == ReadHeader(line)
    ensures Fetches(p, s, actions, s', LineCalls(sock, line)) && Inv(p, s')
    ensures LineTaken(s, LineLoop(sock, line).0, LineLoop(sock, line).1, s')
    decreases |sock.script|
  {
    hide Inv, Fetches, Undisturbed, LineLoop, LineCalls, Recv, ParseStatus, ExtractU64;
    if |line| >= MAX_LINE {
      LineTooLong(sock, line);
      LineCallsTooLong(sock, line);
      s' := Step(p, s, ClientFail).value;
      actions := [ClientFail];
      FetchStep(p, s, ClientFail, s');
      FetchedInv(p, s, actions, s', [Error]);
    } else {
      var (sock1, outcome, got) := Recv(sock, 1);
      LineRound(sock, line, sock1, outcome, got);
      LineCallsRound(sock, line, sock1, outcome, got);
      RecvOutcomes(sock, 1);
      var a: Action;
      a, s' := RecvStep(p, s, sock);
      actions := [a];
      if outcome.Retry? || (outcome.Moved? && outcome.n > 0 && got[0] != '\n') {
        var s1, more, next := s', [], if outcome.Retry? then line else line + got;
        more, s' := LineRuns(p, s1, sock1, next);
        FetchesOn(p, s, [a], s1, more, s', [outcome], LineCalls(sock1, next));
        actions := [a] + more;
      }
    }
  }

  lemma {:induction false} FillRuns(p: Setup, s: State, sock: Sock, want: nat, got: Bytes) returns (actions: seq<Action>, s': State)
    requires Supplies(p) && Inv(p, s) && Facing(s, sock) && s.client == ReadPiece(want, got) && |got| <= want
    ensures var (sock', code, data) := FillLoop(sock, want, got);
      && Fetches(p, s, actions, s', FillCalls(sock, want, got)) && Inv(p, s') && s'.size == s.size && s'.out == s.out
      && (if code == 1 then Facing(s', sock') && s'.client == ReadPiece(want, data)
          else s'.client == NotSaved && ServerGone(s'))
    decreases |sock.script|
  {
    hide Inv, Fetches, Undisturbed, FillLoop, FillCalls, Recv;
    if |got| == want {
      FillDone(sock, got);
      FillCallsDone(sock, got);
      actions, s' := [], s;
      NoFetch(p, s);
    } else {
      var (sock1, outcome, more) := Recv(sock, want - |got|);
      FillRound(sock, want, got, sock1, outcome, more);
      FillCallsRound(sock, want, got, sock1, outcome, more);
      RecvOutcomes(sock, want - |got|);
      var a: Action;
      a, s' := RecvStep(p, s, sock);
      actions := [a];
      if outcome.Retry? || (outcome.Moved? && outcome.n > 0) {
        var s1, rest, next := s', [], if outcome.Retry? then got else got + more;
        rest, s' := FillRuns(p, s1, sock1, want, next);
        FetchesOn(p, s, [a], s1, rest, s', [outcome], FillCalls(sock1, want, next));
        actions := [a] + rest;
      }
    }
  }

  lemma {:induction false} GetRuns(p: Setup, s: State, sock: Sock) returns (actions: seq<Action>, s': State)
    requires Supplies(p) && Inv(p, s) && Facing(s, sock) && s.client == PieceLoop && |s.out| <= s.size
    ensures var (_, ok, all) := GetLoop(sock, s.size, s.out);
      && Fetches(p, s, actions, s', GetCalls(sock, s.size, s.out)) && Inv(p, s') && ServerGone(s')
      && s'.out == all && s'.client == if ok then Saved else NotSaved
    decreases s.size - |s.out|
  {
    hide Inv, Fetches, Undisturbed, FillLoop, FillCalls;
    UndisturbedIsOpen(sock);
    s' := Step(p, s, ClientNext).value;
    actions := [ClientNext];
    FetchStep(p, s, ClientNext, s');
    FetchedInv(p, s, actions, s', []);
    if |s.out| < s.size {
      var want, s1, more := Piece(s.size, |s.out|), s', [];
      var (sock1, code, data) := FillLoop(sock, want, []);
      var calls := FillCalls(sock, want, []);
      more, s' := FillRuns(p, s1, sock, want, []);
      FetchesOn(p, s, [ClientNext], s1, more, s', [], calls);
      assert [] + calls == calls;
      actions := actions + more;
      if code == 1 {
        var s2, s3, rest := s', Step(p, s', ClientNext).value, [];
        FetchStep(p, s2, ClientNext, s3);
        FetchedInv(p, s2, [ClientNext], s3, []);
        rest, s' := GetRuns(p, s3, sock1);
        var calls1 := GetCalls(sock1, s.size, s.out + data);
        FetchesOn(p, s2, [ClientNext], s3, rest, s', [], calls1);
        assert [] + calls1 == calls1;
        FetchesOn(p, s, actions, s2, [ClientNext] + rest, s', calls, calls1);
        actions := actions + ([ClientNext] + rest);
      } else {
        assert calls + [] == calls;
      }
    }
  }

  /** Whatever the script of a client whose socket no other thread touches, reading the reply is a run of
      the machine's client: its calls of ::recv, with their results, are the machine's. */
  lemma ClientCodeRuns(p: Setup, s: State, sock: Sock) returns (actions: seq<Action>, s': State)
    requires Supplies(p) && Inv(p, s) && Facing(s, sock) && s.client == ReadHeader([]) && s.out == []
    ensures Fetches(p, s, actions, s', ReplyCalls(sock)) && Inv(p, s') && ServerGone(s')
    ensures Returned(s') && Matches(ReceiveFile(sock, true).1, s')
  {
    hide Inv, Fetches, Undisturbed, LineLoop, LineCalls, GetLoop, GetCalls, ExtractU64;
    UndisturbedIsOpen(sock);
    var (sock1, r) := LineLoop(sock, []);
    var calls := LineCalls(sock, []);
    actions, s' := LineRuns(p, s, sock, []);
    assert calls + [] == calls;
    if s'.client == PieceLoop {
      var s1, more := s', [];
      more, s' := GetRuns(p, s1, sock1);
      FetchesOn(p, s, actions, s1, more, s', calls, GetCalls(sock1, s1.size, []));
      actions := actions + more;
    }
  }

  // ---------------------------------------------------------------- both ends, one after the other

  /** The server's code first, and the client's code on all that it has sent: over a channel that holds
      the reply every pair of scripts is one run of the machine, call by call and look by look. */
  lemma TheCodeRunsInTurn(p: Setup, lib: Library, name: Bytes, stops: seq<bool>,
                          serverScript: seq<Turn>, clientScript: seq<Turn>)
      returns (serving: seq<Action>, middle: State, fetching: seq<Action>, s: State)
    requires Wide(p) && Supplies(p) && name != [] && name in lib.files && lib.files[name] == p.file && p.file.opens
    requires NoCuts(clientScript)
    ensures var x := Session(true, stops, Sock(true, false, [], [], serverScript));
      var end := HandleGet(x, lib, p.chunk, name);
      var client := Sock(true, false, end.sock.sent, [], clientScript);
      && Serves(p, Initial(p), serving, middle, stops, end.stops, ServeCalls(x, lib, p.chunk, Request(GET, name)))
      && Fetches(p, middle, fetching, s, ReplyCalls(client))
      && middle.taken == [] && middle.channel == end.sock.sent && ServerGone(middle) && middle.client == ReadHeader([])
      && Returned(s) && Matches(ReceiveFile(client, true).1, s)
  {
    hide HandleGet, ReceiveFile, Matches, Inv, Serves, Fetches, ServeCalls, ReplyCalls, Whole;
    serving, middle := ServerCodeRuns(p, lib, name, stops, serverScript);
    OutIsEmpty(p, middle);
    fetching, s := ClientCodeRuns(p, middle, Sock(true, false, middle.channel, [], clientScript));
  }

  lemma OutIsEmpty(p: Setup, s: State)
    requires Inv(p, s) && s.client.ReadHeader?
    ensures s.out == []
  {
  }
}
