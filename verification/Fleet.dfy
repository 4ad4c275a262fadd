/** The whole server at work: the threads of module Lifecycle, every session answering its own client's
request stream out of one library, all steps interleaved.

A send that fails is followed by failing sends only here; module SessionFragility says what happens
otherwise. */
module Fleet {
  import opened Wrappers
  import opened Text
  import opened Protocol
  import opened Sockets
  import opened Sessions
  import opened Clients
  import opened ClientTheorems
  import opened Downloads
  import opened Asking
  import opened WorkerRefinement
  import L = Lifecycle
  import I = LifecycleInvariant
  import P = Projection

  /** The chunk loop of a GET: its file, total_sent once the piece in hand is sent, the stream's state. */
  datatype Body = Body(file: MediaFile, total: nat, good: bool)

  /** A session's connection and what its handler holds: its chunk size, all its client ever sends, how
      much of that is still to be read, what the current send_all has still to send, the file being
      streamed, what was sent, and whether a send has failed. */
  datatype Link = Link(
    chunk: nat, asked: Bytes, incoming: Bytes, pending: Bytes, body: Option<Body>, sent: Bytes, dead: bool)

  /** One session: its part of the server's state and its connection. */
  datatype Solo = Solo(x: L.Session, link: Link)

  datatype State = State(server: L.State, links: seq<Link>)

  /** A worker's step: reading a request, mistaking the end of a broken connection for the end of one,
      sending some of the pending bytes, reading the next chunk of the file, or one of the machine's
      other choices. */
  datatype Work = Read | Misread(cmd: L.Command) | Push(n: nat) | Fetch | Other(choice: L.WorkerChoice)

  datatype Action = Server(a: L.Action) | Admit(stream: Bytes, chunkSize: nat) | Worker(w: nat, work: Work)

  const IDLE := State(L.INITIAL, [])

  function Fresh(stream: Bytes, chunkSize: nat): Link {
    Link(if chunkSize > 0 then chunkSize else DEFAULT_CHUNK_SIZE, stream, stream, [], None, [], false)
  }

  /** What a handler sends first, and the file it streams after that: the decisions of handle_list and
      handle_get, in their order. */
  function Begins(lib: Library, request: Request): (Bytes, Option<Body>) {
    match request.kind
    case LIST => (ListResponse(lib.catalogue), None)
    case QUIT => (OkResponse("BYE"), None)
    case UNKNOWN => (ErrorResponse("INVALID_REQUEST"), None)
    case GET =>
      if request.argument == [] then (ErrorResponse("EMPTY_FILENAME"), None)
      else if request.argument !in lib.files then (ErrorResponse("FILE_NOT_FOUND"), None)
      else
        var file := lib.files[request.argument];
        if !file.opens then (ErrorResponse("FILE_OPEN_FAILED"), None)
        else (GetHeader(file.size), Some(Body(file, 0, true)))
  }

  /** total_sent does not run past the file, nor past the announced size. */
  predicate InFile(b: Body) { b.total <= b.file.size && b.total <= |b.file.contents| }

  /** What the chunk loop reads next; nothing when the loop is over. */
  function Chunk(b: Body, chunk: nat): Bytes
    requires InFile(b)
  {
    if b.good then b.file.contents[b.total..b.total + NextRead(b.file, chunk, b.total)] else []
  }

  /** The chunk loop would end if it looked at its other conditions now. */
  predicate LoopOver(link: Link) {
    link.body.Some? ==> InFile(link.body.value) && Chunk(link.body.value, link.chunk) == []
  }

  /** The worker's step as the machine of module Lifecycle sees it; sending and reading the file are none. */
  function ChoiceOf(lib: Library, link: Link, work: Work): Option<L.WorkerChoice> {
    match work
    case Push(_) => None
    case Fetch => None
    case Misread(cmd) => Some(L.Line(cmd))
    case Other(choice) => Some(choice)
    case Read =>
      match TakeLine(link.incoming)
      case None => None
      case Some(line) => Some(L.Line(CommandOf(lib, Parse(line.text))))
  }

  /** The connection after the step; None if the connection does not allow it. */
  function LinkAfter(lib: Library, s: Solo, work: Work): Option<Link> {
    var link := s.link;
    match work
    case Read =>
      (match TakeLine(link.incoming)
       case None => None
       case Some(line) => 
         var (first, body) := Begins(lib, Parse(line.text));
         Some(link.(incoming := line.rest, pending := first, body := body)))
    case Misread(_) => if s.x.shut || link.dead then Some(link.(dead := true)) else None
    case Push(n) =>
      if s.x.phase.Answer? && s.x.open && !s.x.shut && !link.dead && 0 < n <= |link.pending|
      then Some(link.(sent := link.sent + link.pending[..n], pending := link.pending[n..]))
      else None
    case Fetch =>
      if s.x.phase == L.Answer(L.Stream) && s.x.active && link.pending == [] && link.body.Some? && InFile(link.body.value) then
        var b := link.body.value;
        var piece := Chunk(b, link.chunk);
        if piece == [] then None
        else
          var asked := Min(link.chunk, b.file.size - b.total);
          Some(link.(pending := piece, body := Some(Body(b.file, b.total + |piece|, |piece| == asked))))
      else None
    case Other(choice) =>
      match choice
      case Line(_) => None
      case Sent =>
        if link.pending == [] && LoopOver(link) && (link.body.Some? ==> s.x.active) then Some(link.(body := None)) else None
      case Failed =>
        if link.pending != [] || link.dead || s.x.shut || !s.x.open
        then Some(link.(pending := [], body := None, dead := true)) else None
      case Quiet => if link.pending == [] then Some(link.(body := None)) else None
      case _ => Some(link)
  }

  function WorkStep(lib: Library, s: Solo, work: Work): Option<Solo> {
    match LinkAfter(lib, s, work)
    case None => None
    case Some(link) =>
      if work.Push? || work.Fetch? then Some(s.(link := link))
      else
        match L.WorkerStep(s.x, ChoiceOf(lib, s.link, work).value)
        case None => None
        case Some(x) => Some(Solo(x, link))
  }

  predicate Builds(s: L.State, a: L.Action) { s.accept.Accepted? && a == L.Accept(L.Proceed) }

  function Step(lib: Library, f: State, action: Action): Option<State> {
    match action
    case Server(a) =>
      if a.Work? || Builds(f.server, a) then None
      else (match L.Step(f.server, a) case None => None case Some(server) => Some(f.(server := server)))
    case Admit(stream, chunkSize) =>
      if !Builds(f.server, L.Accept(L.Proceed)) then None
      else
        (match L.Step(f.server, L.Accept(L.Proceed))
         case None => None
         case Some(server) => Some(State(server, f.links + [Fresh(stream, chunkSize)])))
    case Worker(w, work) =>
      if w < |f.links| && w < |f.server.sessions| then
        match WorkStep(lib, Solo(f.server.sessions[w], f.links[w]), work)
        case None => None
        case Some(s) =>
          Some(State(f.server.(sessions := f.server.sessions[w := s.x]), f.links[w := s.link]))
      else None
  }

  function Run(lib: Library, f: State, actions: seq<Action>): Option<State>
    decreases |actions|
  {
    if actions == [] then Some(f)
    else match Step(lib, f, actions[0])
         case None => None
         case Some(f') => Run(lib, f', actions[1..])
  }

  // ---------------------------------------------------------------- the server's threads underneath

  /** What the action is to the server's threads. */
  function Underneath(lib: Library, f: State, action: Action): Option<L.Action> {
    match action
    case Server(a) => Some(a)
    case Admit(_, _) => Some(L.Accept(L.Proceed))
    case Worker(w, work) =>
      if w < |f.links| && ChoiceOf(lib, f.links[w], work).Some?
      then Some(L.Work(w, ChoiceOf(lib, f.links[w], work).value))
      else None
  }

  lemma StepUnderneath(lib: Library, f: State, action: Action, f': State)
    requires Step(lib, f, action) == Some(f')
    ensures match Underneath(lib, f, action)
      case None => f'.server == f.server
      case Some(a) => L.Step(f.server, a) == Some(f'.server)
  {
    hide L.AcceptStep, L.StopStep, L.WorkerStep, Begins, Parse, TakeLine;
    match action
    case Worker(w, work) =>
      if work.Push? || work.Fetch? { assert f.server.sessions[w := f.server.sessions[w]] == f.server.sessions; }
    case _ =>
  }

  /** Each session has its connection, and the server's invariant holds. */
  ghost predicate Sound(f: State) { I.Inv(f.server) && |f.links| == |f.server.sessions| }

  lemma BuildsOne(s: L.State, a: L.Action, s': L.State)
    requires L.Step(s, a) == Some(s')
    ensures |s'.sessions| == |s.sessions| + if Builds(s, a) then 1 else 0
  {
    hide L.HoldingStep, L.StopStep, L.WorkerStep;
    match a
    case Accept(_) => if s.accept.Holding? { P.HoldingBuildsNone(s, s'); }
    case Stop(t) => P.StopBuildsNone(s, t, s');
    case _ =>
  }

  lemma StepKeepsSound(lib: Library, f: State, action: Action, f': State)
    requires Sound(f) && Step(lib, f, action) == Some(f')
    ensures Sound(f')
  {
    hide I.Inv, L.Step, WorkStep, ChoiceOf;
    StepUnderneath(lib, f, action, f');
    if Underneath(lib, f, action).Some? {
      var a := Underneath(lib, f, action).value;
      I.StepKeeps(f.server, a, f'.server);
      BuildsOne(f.server, a, f'.server);
    }
  }

  // ---------------------------------------------------------------- one session's part

  /** What happens to a session: its own work, or what the server's other threads do to it. */
  datatype Event = Mine(work: Work) | Theirs(event: P.Event)

  function SoloStep(lib: Library, s: Solo, e: Event): Option<Solo> {
    match e
    case Mine(work) => WorkStep(lib, s, work)
    case Theirs(event) =>
      if event.Own? then None
      else match P.Apply(s.x, event) case None => None case Some(x) => Some(s.(x := x))
  }

  function SoloRun(lib: Library, s: Solo, events: seq<Event>): Option<Solo>
    decreases |events|
  {
    if events == [] then Some(s)
    else match SoloStep(lib, s, events[0])
         case None => None
         case Some(s') => SoloRun(lib, s', events[1..])
  }

  function EventOf(f: State, action: Action, sid: nat): Option<Event> {
    match action
    case Worker(w, work) => if w == sid then Some(Mine(work)) else None
    case Admit(_, _) => None
    case Server(a) => match P.EventOf(f.server, a, sid) case None => None case Some(e) => Some(Theirs(e))
  }

  function Events(lib: Library, f: State, actions: seq<Action>, sid: nat): seq<Event>
    requires Run(lib, f, actions).Some?
    decreases |actions|
  {
    if actions == [] then []
    else
      var rest := Events(lib, Step(lib, f, actions[0]).value, actions[1..], sid);
      if sid < |f.links| && EventOf(f, actions[0], sid).Some? then [EventOf(f, actions[0], sid).value] + rest else rest
  }

  function Part(f: State, sid: nat): Solo
    requires sid < |f.links| && sid < |f.server.sessions|
  {
    Solo(f.server.sessions[sid], f.links[sid])
  }

  lemma StepProjects(lib: Library, f: State, action: Action, f': State, sid: nat)
    requires Sound(f) && Sound(f') && Step(lib, f, action) == Some(f') && sid < |f.links|
    ensures sid < |f'.links|
    ensures match EventOf(f, action, sid)
      case None => Part(f', sid) == Part(f, sid)
      case Some(e) => SoloStep(lib, Part(f, sid), e) == Some(Part(f', sid))
  {
    hide I.Inv, WorkStep, P.Apply;
    match action
    case Server(a) =>
      hide L.Step;
      P.StepProjects(f.server, a, f'.server, sid);
      NoWork(f.server, a, sid);
    case Admit(_, _) =>
      P.StepProjects(f.server, L.Accept(L.Proceed), f'.server, sid);
      BuildingTouchesNone(f.server, sid);
    case Worker(w, work) =>
  }

  lemma NoWork(s: L.State, a: L.Action, sid: nat)
    requires !a.Work?
    ensures P.EventOf(s, a, sid).Some? ==> !P.EventOf(s, a, sid).value.Own?
  {
  }

  lemma BuildingTouchesNone(s: L.State, sid: nat)
    requires s.accept.Accepted?
    ensures P.EventOf(s, L.Accept(L.Proceed), sid) == None
  {
  }

  lemma NewPart(lib: Library, f: State, action: Action, f': State, sid: nat)
    requires Sound(f) && Sound(f') && Step(lib, f, action) == Some(f') && |f.links| <= sid < |f'.links|
    ensures action.Admit? && Part(f', sid) == Solo(L.NEW_SESSION, Fresh(action.stream, action.chunkSize))
  {
    hide I.Inv, WorkStep, L.AcceptStep, L.StopStep;
    if action.Admit? { P.Built(f.server, L.Accept(L.Proceed), f'.server, sid); }
  }

  lemma AskedStays(lib: Library, f: State, action: Action, f': State, sid: nat)
    requires Step(lib, f, action) == Some(f') && sid < |f.links|
    ensures sid < |f'.links| && f'.links[sid].asked == f.links[sid].asked && f'.links[sid].chunk == f.links[sid].chunk
  {
    hide L.Step, L.WorkerStep, ChoiceOf, Begins, Parse, TakeLine;
  }

  lemma {:induction false} AskedForGood(lib: Library, f: State, actions: seq<Action>, f': State, sid: nat)
    requires Run(lib, f, actions) == Some(f') && sid < |f.links|
    ensures sid < |f'.links| && f'.links[sid].asked == f.links[sid].asked && f'.links[sid].chunk == f.links[sid].chunk
    decreases |actions|
  {
    hide Step;
    if actions != [] {
      var next := Step(lib, f, actions[0]).value;
      AskedStays(lib, f, actions[0], next, sid);
      AskedForGood(lib, next, actions[1..], f', sid);
    }
  }

  /** A session's state and connection, or what they will be once it is built for this stream and chunk size. */
  function PartOr(f: State, sid: nat, stream: Bytes, chunk: nat): Solo {
    if sid < |f.links| && sid < |f.server.sessions| then Part(f, sid) else Solo(L.NEW_SESSION, Fresh(stream, chunk))
  }

  /** Non-interference: in any run of the whole server, with any number of sessions and stops, what one
      session does is a run of that session alone, on its own request stream, from the library and
      what the accept thread and the winning stop() do to it. */
  lemma {:induction false} SessionsDoNotInterfere(lib: Library, f: State, actions: seq<Action>, f': State, sid: nat)
    requires Sound(f) && Run(lib, f, actions) == Some(f')
    ensures Sound(f')
    ensures sid < |f'.links| ==>
      SoloRun(lib, PartOr(f, sid, f'.links[sid].asked, f'.links[sid].chunk), Events(lib, f, actions, sid)) == Some(Part(f', sid))
    decreases |actions|
  {
    hide I.Inv, Step, SoloStep, EventOf;
    if actions != [] {
      var next := Step(lib, f, actions[0]).value;
      StepKeepsSound(lib, f, actions[0], next);
      SessionsDoNotInterfere(lib, next, actions[1..], f', sid);
      if sid < |f.links| {
        StepProjects(lib, f, actions[0], next, sid);
        if EventOf(f, actions[0], sid).Some? {
          var e := EventOf(f, actions[0], sid).value;
          assert ([e] + Events(lib, next, actions[1..], sid))[1..] == Events(lib, next, actions[1..], sid);
        }
      } else if sid < |next.links| {
        NewPart(lib, f, actions[0], next, sid);
        AskedForGood(lib, next, actions[1..], f', sid);
      }
    }
  }

  // ---------------------------------------------------------------- one session alone

  function Meant(lib: Library, link: Link): Bytes { Answers(lib, Requests(link.asked)) }

  function ToCome(lib: Library, link: Link): Bytes { Answers(lib, Requests(link.incoming)) }

  /** The session may still read a request. */
  predicate Reading(x: L.Session) {
    x.phase.Unstarted? || x.phase.Spawned? || x.phase.Receive? || (x.phase.Check? && x.active)
  }

  /** What the chunk loop has still to read. */
  function Unread(body: Option<Body>): Bytes {
    match body
    case None => []
    case Some(b) => if b.total <= |Supplied(b.file)| then Supplied(b.file)[b.total..] else []
  }

  /** The chunk loop's books: no further than the file, and short of a full chunk only at its end. */
  predicate Booked(body: Option<Body>) {
    body.Some? ==> body.value.total <= |Supplied(body.value.file)| && (!body.value.good ==> Unread(body) == [])
  }

  /** What the current handler has still to send, by its own decisions. */
  function Owed(link: Link): Bytes { link.pending + Unread(link.body) }

  /** Sent so far is right; and as long as the connection lives, what was sent, what the handler has
      still to send and the answers to the requests still to be read make up all the answers. */
  predicate Framed(lib: Library, s: Solo) {
    && s.link.chunk > 0 && s.link.sent <= Meant(lib, s.link)
    && Booked(s.link.body) && (s.link.body.Some? ==> s.x.phase == L.Answer(L.Stream))
    && (Reading(s.x) && !s.link.dead ==> s.link.sent + ToCome(lib, s.link) == Meant(lib, s.link))
    && (s.x.phase.Answer? && !s.link.dead ==>
          s.link.sent + Owed(s.link) + (if s.x.phase.cmd.Quit? then [] else ToCome(lib, s.link)) == Meant(lib, s.link))
  }

  lemma FreshIsFramed(lib: Library, stream: Bytes, chunkSize: nat)
    ensures Framed(lib, Solo(L.NEW_SESSION, Fresh(stream, chunkSize)))
  {
    assert [] + Answers(lib, Requests(stream)) == Answers(lib, Requests(stream));
  }

  /** What the handler sends first, and then reads from the file, is the answer. */
  lemma BeginsTheAnswer(lib: Library, request: Request)
    ensures var (first, body) := Begins(lib, request);
      && first != [] && first + Unread(body) == Answer(lib, request) && Booked(body)
      && (body.Some? <==> Streamed(lib, request).Some?) && (body.Some? ==> CommandOf(lib, request) == L.Stream)
  {
    var (first, body) := Begins(lib, request);
    assert first + [] == first;
  }

  lemma ReadKeeps(lib: Library, s: Solo, s': Solo)
    requires Framed(lib, s) && WorkStep(lib, s, Read) == Some(s')
    ensures Framed(lib, s')
  {
    hide Answer, Answers, Requests, Parse, TakeLine, Begins, Unread, CommandOf;
    var line := TakeLine(s.link.incoming).value;
    var request := Parse(line.text);
    assert s.x.phase.Receive? && s'.x.phase == L.Answer(CommandOf(lib, request));
    AnswersUnfold(lib, s.link.incoming);
    CommandIsQuit(lib, request);
    BeginsTheAnswer(lib, request);
    Regroup(s.link.sent, Answer(lib, request), if request.kind == QUIT then [] else ToCome(lib, s'.link));
  }

  lemma AnswersUnfold(lib: Library, stream: Bytes)
    requires TakeLine(stream).Some?
    ensures var line := TakeLine(stream).value;
      Answers(lib, Requests(stream)) == Answer(lib, Parse(line.text))
        + if Parse(line.text).kind == QUIT then [] else Answers(lib, Requests(line.rest))
  {
    hide Answer, Parse, TakeLine;
    var line := TakeLine(stream).value;
    var request := Parse(line.text);
    var rest := if request.kind == QUIT then [] else Requests(line.rest);
    assert ([request] + rest)[1..] == rest;
  }

  lemma CommandIsQuit(lib: Library, request: Request)
    ensures CommandOf(lib, request).Quit? <==> request.kind == QUIT
  {
  }

  lemma PushKeeps(lib: Library, s: Solo, n: nat, s': Solo)
    requires Framed(lib, s) && WorkStep(lib, s, Push(n)) == Some(s')
    ensures Framed(lib, s')
  {
    hide Answers, Requests, Unread;
    var link := s.link;
    var rest := if s.x.phase.cmd.Quit? then [] else ToCome(lib, link);
    assert link.sent + Owed(link) == s'.link.sent + Owed(s'.link);
    assert s'.link.sent + (Owed(s'.link) + rest) == s'.link.sent + Owed(s'.link) + rest;
  }

  /** The chunk read and what is left of the file make up what was left before. */
  lemma FetchKeeps(lib: Library, s: Solo, s': Solo)
    requires Framed(lib, s) && WorkStep(lib, s, Fetch) == Some(s')
    ensures Framed(lib, s')
  {
    hide Answers, Requests;
    var b := s.link.body.value;
    var piece := Chunk(b, s.link.chunk);
    assert Supplied(b.file)[b.total..] == piece + Supplied(b.file)[b.total + |piece|..];
    assert Owed(s'.link) == Owed(s.link);
  }

  lemma OverIsAll(link: Link)
    requires Booked(link.body) && LoopOver(link) && link.chunk > 0
    ensures Unread(link.body) == []
  {
  }

  lemma MisreadKeeps(lib: Library, s: Solo, cmd: L.Command, s': Solo)
    requires Framed(lib, s) && WorkStep(lib, s, Misread(cmd)) == Some(s')
    ensures Framed(lib, s')
  {
    hide Answers, Requests, Unread;
  }

  lemma OtherKeeps(lib: Library, s: Solo, choice: L.WorkerChoice, s': Solo)
    requires Framed(lib, s) && WorkStep(lib, s, Other(choice)) == Some(s')
    ensures Framed(lib, s')
  {
    hide Answers, Requests, LoopOver, Unread;
    if choice.Sent? {
      OverIsAll(s.link);
      assert s.link.sent + ([] + []) == s.link.sent;
    }
    NothingUnread();
  }

  lemma NothingUnread()
    ensures Unread(None) == []
  {
  }

  /** A worker that has been started and has not ended is never stuck. */
  lemma WorkerCanGoOn(lib: Library, s: Solo) returns (work: Work)
    requires Framed(lib, s) && !s.x.phase.Unstarted? && !s.x.phase.Finished?
    ensures WorkStep(lib, s, work).Some?
  {
    hide Answers, Requests, Chunk;
    match s.x.phase
    case Receive => work := Other(L.Lost);
    case Answer(_) =>
      if s.link.pending != [] || s.x.shut || !s.x.open {
        work := Other(L.Failed);
      } else if s.link.body.Some? && !s.x.active {
        work := Other(L.Quiet);
      } else if LoopOver(s.link) {
        work := Other(L.Sent);
      } else {
        work := Fetch;
      }
    case _ => work := Other(L.Go);
  }

  lemma SoloStepKeeps(lib: Library, s: Solo, e: Event, s': Solo)
    requires Framed(lib, s) && SoloStep(lib, s, e) == Some(s')
    ensures Framed(lib, s')
  {
    hide Answers, Requests, WorkStep;
    match e
    case Mine(Read) => ReadKeeps(lib, s, s');
    case Mine(Misread(cmd)) => MisreadKeeps(lib, s, cmd, s');
    case Mine(Push(n)) => PushKeeps(lib, s, n, s');
    case Mine(Fetch) => FetchKeeps(lib, s, s');
    case Mine(Other(choice)) => OtherKeeps(lib, s, choice, s');
    case Theirs(_) =>
  }

  lemma {:induction false} SoloRunKeeps(lib: Library, s: Solo, events: seq<Event>, s': Solo)
    requires Framed(lib, s) && SoloRun(lib, s, events) == Some(s')
    ensures Framed(lib, s')
    decreases |events|
  {
    hide Framed, SoloStep;
    if events != [] {
      var next := SoloStep(lib, s, events[0]).value;
      SoloStepKeeps(lib, s, events[0], next);
      SoloRunKeeps(lib, next, events[1..], s');
    }
  }

  // ---------------------------------------------------------------- every session of the whole server

  lemma IdleIsSound()
    ensures Sound(IDLE)
  {
    assert L.Run(L.INITIAL, []) == Some(L.INITIAL);
    I.ReachableInv(L.INITIAL);
  }

  /** In every state of the whole server every session has sent a prefix of the answers to its own
      client's requests, in order; and when a live session waits for a request that its client never
      completes, it has sent all of them. */
  lemma EverySessionIsFramed(lib: Library, actions: seq<Action>, f: State, sid: nat)
    requires Run(lib, IDLE, actions) == Some(f) && sid < |f.links|
    ensures |f.links| == |f.server.sessions|
    ensures f.links[sid].sent <= Answers(lib, Requests(f.links[sid].asked))
    ensures f.server.sessions[sid].phase.Receive? && !f.links[sid].dead && TakeLine(f.links[sid].incoming) == None ==>
      f.links[sid].sent == Answers(lib, Requests(f.links[sid].asked))
  {
    hide SoloRun, Step, TakeLine, Parse, I.Inv;
    IdleIsSound();
    SessionsDoNotInterfere(lib, IDLE, actions, f, sid);
    var asked, chunk := f.links[sid].asked, f.links[sid].chunk;
    FreshIsFramed(lib, asked, chunk);
    SoloRunKeeps(lib, PartOr(IDLE, sid, asked, chunk), Events(lib, IDLE, actions, sid), Part(f, sid));
  }

  /** So every client that first asks for a file, among any number of others, and is delivered any part
      of what its session has sent so far, gets that file or knows that it has not. */
  lemma EveryClientIsServed(lib: Library, actions: seq<Action>, f: State, sid: nat, c: Sock, name: Bytes, more: Bytes,
                            dirCreated: bool, fileCreated: bool)
    requires Run(lib, IDLE, actions) == Some(f) && sid < |f.links|
    requires Requestable(name) && |name| <= 4091 && f.links[sid].asked == "GET " + name + "\n" + more
    requires Undisturbed(c) && c.incoming <= f.links[sid].sent
    ensures var result := DoGet(c, name, dirCreated, fileCreated).1;
      match Streamed(lib, Request(GET, name))
      case Some(file) => |file.contents| >= file.size ==> Faithful(result, c.incoming, file.contents[..file.size])
      case None => result == Download(GaveUp, None)
  {
    hide Step, Requests, Answers, DoGet, Faithful, Streamed;
    EverySessionIsFramed(lib, actions, f, sid);
    AnswersAreFaithful(lib, c, name, more, dirCreated, fileCreated);
  }

  /** And with the stream that the client's own do_get sends: whatever else happens on the server, each
      client that runs do_get gets its file or knows that it has not. */
  lemma EveryDoGetIsServed(lib: Library, actions: seq<Action>, f: State, sid: nat, c: Sock, name: Bytes,
                           dirCreated: bool, fileCreated: bool)
    requires Run(lib, IDLE, actions) == Some(f) && sid < |f.links|
    requires Requestable(name) && |name| <= 4091
    requires c.sent == [] && f.links[sid].asked == DoGet(c, name, dirCreated, fileCreated).0.sent
    requires Undisturbed(c) && c.incoming <= f.links[sid].sent
    ensures var result := DoGet(c, name, dirCreated, fileCreated).1;
      match Streamed(lib, Request(GET, name))
      case Some(file) => |file.contents| >= file.size ==> Faithful(result, c.incoming, file.contents[..file.size])
      case None => result == Download(GaveUp, None)
  {
    hide Step, Requests, Answers, DoGet, Faithful, Streamed, Undisturbed;
    var line, asked := "GET " + name + "\n", f.links[sid].asked;
    DoGetAsks(c, name, dirCreated, fileCreated);
    NoFileIsFaithful(c.incoming);
    if DoGet(c, name, dirCreated, fileCreated).1 != Download(GaveUp, None) {
      assert [] + line == line;
      assert asked == line + asked[|line|..];
      EveryClientIsServed(lib, actions, f, sid, c, name, asked[|line|..], dirCreated, fileCreated);
    }
  }
}
