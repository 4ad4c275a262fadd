/** A transfer cannot get stuck and cannot go on for ever. */
module TransferProgress {
  import opened Wrappers
  import opened Text
  import opened Protocol
  import opened Replies
  import opened Sessions
  import opened ClientTheorems
  import opened Transfer
  import opened TransferTheorems

  predicate Complete(s: State) { s.server.Served? && s.client.Saved? }

  /** A step that moves bytes or bookkeeping forward: no interruption, failure or stop. */
  predicate Productive(a: Action) { a.ServerSend? || a.ServerNext? || a.ClientRecv? || a.ClientNext? }

  // ---------------------------------------------------------------- some step is enabled

  lemma HeaderHasRoom(p: Setup, s: State)
    requires Inv(p, s) && s.client.ReadHeader?
    ensures Room(s.client) == 1 && s.taken != Whole(p)
  {
    StatusSplits(p);
    StatusText(p.file.size);
    TakenIsHead(p, s);
    LineIsUnique(s.client.line, StatusOf(p), Supplied(p.file));
    assert Whole(p)[|StatusOf(p)|] == '\n';
  }

  /** While the client is in its receive loop some of the reply is still to come. */
  lemma BodyNotAllTaken(p: Setup, s: State)
    requires Inv(p, s) && s.client.ReadPiece? && HeaderRead(p, s) && |s.client.got| < s.client.want
    requires |p.file.contents| >= p.file.size
    ensures s.taken != Whole(p)
  {
    assert |s.taken| < |GetHeader(p.file.size)| + |Supplied(p.file)|;
  }

  lemma AllSent(p: Setup, s: State)
    requires Inv(p, s) && s.channel == [] && s.server.Served?
    ensures s.taken == Whole(p)
  {
    assert s.taken + [] + [] == s.taken;
  }

  lemma AllTaken(p: Setup, s: State)
    requires Inv(p, s) && s.taken == Whole(p)
    ensures s.channel == [] && Unsent(p, s) == []
  {
    assert |Whole(p)| == |s.taken| + |s.channel| + |Unsent(p, s)|;
  }

  /** With a channel of any positive capacity and a file that supplies its size, every state without
      failure that is not complete has a productive step: nobody waits for ever. */
  lemma SomeStepEnabled(p: Setup, s: State) returns (a: Action)
    requires ValidSetup(p) && |p.file.contents| >= p.file.size
    requires Inv(p, s) && !Failed(s) && !Complete(s)
    ensures Productive(a) && Step(p, s, a).Some?
  {
    hide Inv, Conserved, ParseStatus, ExtractU64, GetHeader, Supplied;
    assert ClientBooks(p, s) by { InvParts(p, s); }
    if s.client.PieceLoop? || (s.client.ReadPiece? && |s.client.got| >= s.client.want) {
      a := ClientNext;
    } else if s.channel != [] && !s.client.Saved? {
      if s.client.ReadHeader? { HeaderHasRoom(p, s); }
      a := ClientRecv(1);
    } else {
      if s.client.Saved? {
        AllTaken(p, s);
      } else if s.server.Served? {
        AllSent(p, s);
        if s.client.ReadHeader? { HeaderHasRoom(p, s); } else { BodyNotAllTaken(p, s); }
      }
      a := if Pending(s.server) != [] then ServerSend(1) else ServerNext;
    }
  }

  lemma InvParts(p: Setup, s: State)
    requires Inv(p, s)
    ensures ClientBooks(p, s)
  {
  }

  // ---------------------------------------------------------------- the measure

  function ServerRank(pc: ServerPc): nat {
    match pc
    case SendHeader(pending) => if pending == [] then 3 else 1
    case SendChunk(pending, _, _) => if pending == [] then 3 else 1
    case ChunkLoop(_) => 2
    case _ => 0
  }

  function ClientRank(pc: ClientPc): nat {
    match pc
    case ReadHeader(_) => 3
    case PieceLoop => 2
    case ReadPiece(want, got) => if |got| >= want then 3 else 1
    case _ => 0
  }

  /** Unsent and in-flight bytes, and the bookkeeping between them. */
  function Measure(p: Setup, s: State): nat {
    6 * |Unsent(p, s)| + 3 * |s.channel| + ServerRank(s.server) + ClientRank(s.client)
  }

  lemma ReceiveRank(s: State, bytes: Bytes)
    requires bytes != [] && Room(s.client) > 0
    ensures ClientRank(Receive(s, bytes).client) <= ClientRank(s.client) + 2
  {
    hide ParseStatus, ExtractU64;
  }

  lemma ClientFalls(s: State)
    requires ClientStep(s).Some?
    ensures ClientRank(ClientStep(s).value.client) < ClientRank(s.client)
  {
  }

  lemma EndFalls(s: State)
    requires Room(s.client) > 0
    ensures ClientRank(EndOfStream(s).client) < ClientRank(s.client)
  {
    hide ParseStatus, ExtractU64;
  }

  lemma ServerFalls(p: Setup, s: State)
    requires ValidSetup(p) && InRange(p, s) && ServerStep(p, s).Some?
    ensures ServerRank(ServerStep(p, s).value.server) < ServerRank(s.server)
  {
  }

  lemma SendRank(pc: ServerPc, k: nat)
    requires 1 <= k <= |Pending(pc)|
    ensures ServerRank(Sent(pc, k)) <= ServerRank(pc) + 2
  {
  }

  /** Every step but an interruption lowers the measure, an interruption changes nothing: so the send
      loop, the chunk loop and the client's loops all end. */
  lemma MeasureFalls(p: Setup, s: State, a: Action, s': State)
    requires ValidSetup(p) && Inv(p, s) && Step(p, s, a) == Some(s')
    ensures if a.ServerInterrupted? || a.ClientInterrupted? then s' == s else Measure(p, s') < Measure(p, s)
  {
    hide Receive, EndOfStream, ClientStep, ServerStep, ClientRank, ServerRank, Sent;
    match a
    case ServerSend(k) => SendFalls(p, s, k, s');
    case ServerNext =>
      ServerKeeps(p, s, s');
      ServerFalls(p, s);
    case ServerInterrupted =>
    case ServerFail => AbortRank(s.server, Unsent(p, s));
    case ServerStop => AbortRank(s.server, Unsent(p, s));
    case ClientRecv(k) => RecvFalls(p, s, k, s');
    case ClientNext =>
      ClientStepKeeps(s);
      ClientFalls(s);
    case ClientInterrupted =>
    case ClientEnd => EndFalls(s);
    case ClientFail => FailRank(s.client);
  }

  lemma SendFalls(p: Setup, s: State, k: nat, s': State)
    requires ValidSetup(p) && Inv(p, s) && Step(p, s, ServerSend(k)) == Some(s')
    ensures Measure(p, s') < Measure(p, s)
  {
    hide ClientRank, ServerRank, Sent, ClientBooks, InRange, Unsent;
    SendKeeps(p, s, k, s');
    SendRank(s.server, k);
  }

  lemma RecvFalls(p: Setup, s: State, k: nat, s': State)
    requires ValidSetup(p) && Inv(p, s) && Step(p, s, ClientRecv(k)) == Some(s')
    ensures Measure(p, s') < Measure(p, s)
  {
    hide Receive, ClientRank, ServerRank, ClientBooks, InRange, Unsent;
    RecvKeeps(p, s, k, s');
    assert Unsent(p, s') == Unsent(p, s) by { ServerFrame(p, s, s'); }
    ReceiveRank(s.(channel := s.channel[k..]), s.channel[..k]);
  }

  lemma AbortRank(pc: ServerPc, unsent: Bytes)
    requires Pending(pc) != [] || pc.ChunkLoop?
    ensures ServerRank(Aborted(unsent)) < ServerRank(pc)
  {
  }

  lemma FailRank(pc: ClientPc)
    requires Room(pc) > 0 || pc.ReadHeader?
    ensures ClientRank(NotSaved) < ClientRank(pc)
  {
  }

  /** The steps of a run that are not interruptions. */
  function Effective(actions: seq<Action>): nat {
    if actions == [] then 0
    else (if actions[0].ServerInterrupted? || actions[0].ClientInterrupted? then 0 else 1) + Effective(actions[1..])
  }

  lemma {:induction false} RunIsBounded(p: Setup, s: State, actions: seq<Action>, s': State)
    requires ValidSetup(p) && Inv(p, s) && Transfer.Run(p, s, actions) == Some(s')
    ensures Effective(actions) + Measure(p, s') <= Measure(p, s)
    decreases |actions|
  {
    hide Measure, Inv, Step;
    if actions != [] {
      var next := Step(p, s, actions[0]).value;
      MeasureFalls(p, s, actions[0], next);
      StepKeeps(p, s, actions[0], next);
      RunIsBounded(p, next, actions[1..], s');
    }
  }

  /** Every run of a transfer takes boundedly many effective steps; and as long as it meets no failure
      it either has delivered the whole file or can go on. */
  lemma TransferEnds(p: Setup, actions: seq<Action>, s: State)
    requires ValidSetup(p) && |p.file.contents| >= p.file.size && Transfer.Run(p, Initial(p), actions) == Some(s)
    ensures Effective(actions) <= Measure(p, Initial(p))
    ensures Failed(s) || (Complete(s) && s.out == p.file.contents[..p.file.size])
         || exists a :: Productive(a) && Step(p, s, a).Some?
  {
    InitialInv(p);
    RunIsBounded(p, Initial(p), actions, s);
    RunKeeps(p, Initial(p), actions, s);
    TransferIsSafe(p, actions, s);
    if !Failed(s) && !Complete(s) {
      var a := SomeStepEnabled(p, s);
    }
  }
}
