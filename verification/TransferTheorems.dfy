/** Conservation, the client's verdict, and progress, over every schedule of a GET. */
module TransferTheorems {
  import opened Wrappers
  import opened Text
  import opened Protocol
  import opened Replies
  import opened Sessions
  import opened Clients
  import opened ClientTheorems
  import opened Transfer

  // ---------------------------------------------------------------- conservation

  /** The whole reply. */
  function Whole(p: Setup): Bytes { GetHeader(p.file.size) + Supplied(p.file) }

  /** The server's bookkeeping is in range. */
  predicate InRange(p: Setup, s: State) {
    match s.server
    case SendHeader(_) => s.total == 0
    case ChunkLoop(good) => s.total <= |Supplied(p.file)| && (!good ==> s.total == |Supplied(p.file)|)
    case SendChunk(pending, read, good) =>
      && s.total + read <= |Supplied(p.file)| && (!good ==> s.total + read == |Supplied(p.file)|)
      && |pending| <= read
    case Served => true
    case Aborted(_) => true
  }

  /** Bytes taken, bytes in flight and bytes still to be sent make up the reply. */
  predicate Conserved(p: Setup, s: State) { s.taken + s.channel + Unsent(p, s) == Whole(p) }

  lemma ServerKeeps(p: Setup, s: State, s': State)
    requires ValidSetup(p) && InRange(p, s) && ServerStep(p, s) == Some(s')
    ensures InRange(p, s') && Unsent(p, s') == Unsent(p, s)
    ensures s'.taken == s.taken && s'.channel == s.channel && s'.client == s.client && s'.out == s.out && s'.size == s.size
  {
    hide InRange, Unsent;
    if s.server.ChunkLoop? {
      ChunkLoopKeeps(p, s, s');
    } else {
      SentKeeps(p, s, s');
    }
  }

  lemma SentKeeps(p: Setup, s: State, s': State)
    requires ValidSetup(p) && InRange(p, s) && !s.server.ChunkLoop? && ServerStep(p, s) == Some(s')
    ensures InRange(p, s') && Unsent(p, s') == Unsent(p, s)
  {
    hide Supplied;
    assert Pending(s.server) == [] && Pending(s'.server) == [];
    assert Ahead(p, s') == Ahead(p, s);
  }

  lemma ChunkLoopKeeps(p: Setup, s: State, s': State)
    requires ValidSetup(p) && InRange(p, s) && s.server.ChunkLoop? && ServerStep(p, s) == Some(s')
    ensures InRange(p, s') && Unsent(p, s') == Unsent(p, s)
  {
    if s'.server.SendChunk? {
      ReadKeeps(p, s.total, s'.server.read);
    } else {
      assert Supplied(p.file)[s.total..] == [];
    }
  }

  /** The next chunk and what the file supplies beyond it. */
  lemma ReadKeeps(p: Setup, total: nat, got: nat)
    requires total + got <= |Supplied(p.file)|
    ensures Supplied(p.file)[total..] == p.file.contents[total..total + got] + Supplied(p.file)[total + got..]
  {
  }

  /** Moving bytes from one stretch of a concatenation to its neighbour. */
  lemma Moved(a: Bytes, b: Bytes, x: Bytes, y: Bytes, c: Bytes)
    ensures a + (b + x) + (y + c) == a + b + ((x + y) + c)
    ensures (a + x) + y + c == a + (x + y) + c
  {
  }

  lemma SendKeeps(p: Setup, s: State, k: nat, s': State)
    requires ValidSetup(p) && InRange(p, s) && Conserved(p, s) && Step(p, s, ServerSend(k)) == Some(s')
    ensures InRange(p, s') && Conserved(p, s')
    ensures |Unsent(p, s')| + k == |Unsent(p, s)| && |s'.channel| == |s.channel| + k
  {
    hide GetHeader, Supplied;
    var pending := Pending(s.server);
    assert pending == pending[..k] + pending[k..];
    assert Ahead(p, s') == Ahead(p, s) && Pending(s'.server) == pending[k..];
    Moved(s.taken, s.channel, pending[..k], pending[k..], Ahead(p, s));
  }

  lemma ServerFrame(p: Setup, s: State, s': State)
    requires s'.server == s.server && s'.total == s.total
    ensures Unsent(p, s') == Unsent(p, s) && InRange(p, s') == InRange(p, s)
  {
  }

  lemma RecvKeeps(p: Setup, s: State, k: nat, s': State)
    requires ValidSetup(p) && InRange(p, s) && Conserved(p, s) && Step(p, s, ClientRecv(k)) == Some(s')
    ensures InRange(p, s') && Conserved(p, s')
    ensures s'.taken == s.taken + s.channel[..k] && s'.channel == s.channel[k..] && s'.server == s.server && s'.total == s.total
  {
    hide Receive, Unsent, InRange, Whole;
    assert Unsent(p, s') == Unsent(p, s) && InRange(p, s') by { ServerFrame(p, s, s'); }
    assert s.channel == s.channel[..k] + s.channel[k..];
    Moved(s.taken, [], s.channel[..k], s.channel[k..], Unsent(p, s));
  }

  lemma ClientStepKeeps(s: State)
    ensures var r := ClientStep(s);
      r.Some? ==>
        && r.value.server == s.server && r.value.total == s.total
        && r.value.channel == s.channel && r.value.taken == s.taken
  {
  }

  lemma StepConserves(p: Setup, s: State, a: Action, s': State)
    requires ValidSetup(p) && InRange(p, s) && Conserved(p, s) && Step(p, s, a) == Some(s')
    ensures InRange(p, s') && Conserved(p, s')
  {
    hide Receive, EndOfStream, ClientStep, ServerStep, Unsent, InRange, Whole;
    match a
    case ServerNext => ServerKeeps(p, s, s');
    case ServerSend(k) => SendKeeps(p, s, k, s');
    case ClientRecv(k) => RecvKeeps(p, s, k, s');
    case ServerFail => AbortKeeps(p, s, s');
    case ServerStop => AbortKeeps(p, s, s');
    case _ =>
      ClientStepKeeps(s);
      ServerFrame(p, s, s');
  }

  lemma AbortKeeps(p: Setup, s: State, s': State)
    requires s' == s.(server := Aborted(Unsent(p, s)))
    ensures Unsent(p, s') == Unsent(p, s) && InRange(p, s')
  {
  }

  // ---------------------------------------------------------------- the client's bookkeeping

  function StatusOf(p: Setup): Bytes { "OK " + Print(p.file.size) }

  /** The status line has been read to its newline. */
  predicate HeaderRead(p: Setup, s: State) {
    && s.size == p.file.size && |s.out| <= s.size
    && s.taken == GetHeader(p.file.size) + s.out + (if s.client.ReadPiece? then s.client.got else [])
  }

  /** The connection ended inside the status line: nothing will follow, and a size of zero is true. */
  predicate HeaderCut(p: Setup, s: State) {
    && s.server.Aborted? && s.channel == [] && s.out == []
    && (s.client.ReadPiece? ==> s.client.got == [])
    && (s.size == 0 <==> p.file.size == 0)
  }

  predicate ClientBooks(p: Setup, s: State) {
    match s.client
    case ReadHeader(line) => s.taken == line && '\n' !in line && s.out == []
    case PieceLoop => (HeaderRead(p, s) || HeaderCut(p, s)) && (|s.out| % CLIENT_CHUNK == 0 || |s.out| == s.size)
    case ReadPiece(want, got) =>
      && (HeaderRead(p, s) || HeaderCut(p, s)) && |s.out| % CLIENT_CHUNK == 0
      && |s.out| < s.size && want == Piece(s.size, |s.out|) && |got| <= want
    case Saved => s.out <= Supplied(p.file) && |s.out| == p.file.size && (s.server.Aborted? || s.taken == Whole(p))
    case NotSaved =>
      && s.out <= Supplied(p.file) && |s.out| % CLIENT_CHUNK == 0
      && (s.out != [] ==> |s.out| < p.file.size)
  }

  ghost predicate Inv(p: Setup, s: State) { InRange(p, s) && Conserved(p, s) && ClientBooks(p, s) }

  lemma TakenIsHead(p: Setup, s: State)
    requires Conserved(p, s)
    ensures s.taken <= Whole(p)
  {
    assert Whole(p) == s.taken + (s.channel + Unsent(p, s));
  }

  lemma OutIsHead(p: Setup, s: State)
    requires Conserved(p, s) && HeaderRead(p, s)
    ensures s.out <= Supplied(p.file)
  {
    TakenIsHead(p, s);
    assert Whole(p)[|GetHeader(p.file.size)|..] == Supplied(p.file);
    assert s.out == s.taken[|GetHeader(p.file.size)|..][..|s.out|];
  }

  lemma LineIsUnique(line: Bytes, a: Bytes, b: Bytes)
    requires '\n' !in line && '\n' !in a
    ensures line + "\n" <= a + "\n" + b ==> line == a
    ensures line <= a + "\n" + b ==> line <= a
  {
    var whole := a + "\n" + b;
    assert whole[|a|] == '\n';
    assert line + "\n" <= whole ==> whole[|line|] == (line + "\n")[|line|];
    assert |line| < |a| ==> whole[|line|] == a[|line|];
    assert line <= whole ==> forall i | 0 <= i < |line| :: line[i] == whole[i];
    assert line + "\n" <= whole ==> line <= whole;
  }

  lemma StatusSplits(p: Setup)
    ensures Whole(p) == StatusOf(p) + "\n" + Supplied(p.file) && '\n' !in StatusOf(p)
    ensures StripCr(StatusOf(p)) == StatusOf(p)
  {
    StatusText(p.file.size);
  }

  /** The newline of the status line arrives. */
  lemma HeaderArrives(p: Setup, s: State, s': State)
    requires ValidSetup(p) && Inv(p, s) && s.client.ReadHeader? && s.channel != [] && s.channel[0] == '\n'
    requires Step(p, s, ClientRecv(1)) == Some(s') && Conserved(p, s')
    ensures ClientBooks(p, s')
  {
    hide ParseStatus, ExtractU64, Print;
    var line := s.client.line;
    StatusSplits(p);
    StatusText(p.file.size);
    TakenIsHead(p, s');
    assert s'.taken == line + "\n" by { assert s.channel[..1] == "\n"; }
    LineIsUnique(line, StatusOf(p), Supplied(p.file));
    assert s'.taken == GetHeader(p.file.size) + [] + [];
  }

  /** The connection ends inside the status line. */
  lemma HeaderEnds(p: Setup, s: State, s': State)
    requires ValidSetup(p) && Inv(p, s) && s.client.ReadHeader? && Step(p, s, ClientEnd) == Some(s')
    ensures ClientBooks(p, s')
  {
    hide ParseStatus, ExtractU64, Print;
    var line := s.client.line;
    StatusSplits(p);
    TakenIsHead(p, s);
    LineIsUnique(line, StatusOf(p), Supplied(p.file));
    if line != [] && ParseStatus(line).Detail? {
      var d := ParseStatus(line).text;
      DetailIsCut(p, line);
      CutNumber(p.file.size, d);
    }
  }

  lemma DetailIsCut(p: Setup, line: Bytes)
    requires line <= StatusOf(p) && ParseStatus(line).Detail?
    ensures ParseStatus(line).text <= Print(p.file.size)
  {
    assert line == StatusOf(p)[..|line|];
    assert StatusOf(p)[3..] == Print(p.file.size);
    assert line[3..] == StatusOf(p)[3..][..|line| - 3];
  }

  lemma ClientRecvBooks(p: Setup, s: State, k: nat, s': State)
    requires ValidSetup(p) && Inv(p, s) && Step(p, s, ClientRecv(k)) == Some(s') && Conserved(p, s')
    ensures ClientBooks(p, s')
  {
    hide ParseStatus, ExtractU64, Print;
    if s.client.ReadHeader? {
      assert s.channel[..k] == [s.channel[0]];
      if s.channel[0] == '\n' {
        HeaderArrives(p, s, s');
      }
    } else if HeaderRead(p, s) {
      assert s'.taken == GetHeader(p.file.size) + s.out + (s.client.got + s.channel[..k]);
    }
  }

  lemma ClientNextBooks(p: Setup, s: State, s': State)
    requires ValidSetup(p) && Inv(p, s) && Step(p, s, ClientNext) == Some(s')
    ensures ClientBooks(p, s')
  {
    if HeaderRead(p, s) {
      OutIsHead(p, s);
      if s.client.ReadPiece? {
        assert s'.taken == GetHeader(p.file.size) + s'.out + [];
      }
    }
  }

  lemma ClientStopsBooks(p: Setup, s: State, a: Action, s': State)
    requires ValidSetup(p) && Inv(p, s) && (a.ClientFail? || a.ClientEnd?) && !s.client.ReadHeader?
    requires Step(p, s, a) == Some(s')
    ensures ClientBooks(p, s')
  {
    if HeaderRead(p, s) { OutIsHead(p, s); }
  }

  lemma StepKeeps(p: Setup, s: State, a: Action, s': State)
    requires ValidSetup(p) && Inv(p, s) && Step(p, s, a) == Some(s')
    ensures Inv(p, s')
  {
    hide ParseStatus, ExtractU64, Print, InRange, Conserved;
    StepConserves(p, s, a, s');
    match a
    case ClientRecv(k) => ClientRecvBooks(p, s, k, s');
    case ClientNext => ClientNextBooks(p, s, s');
    case ClientEnd => if s.client.ReadHeader? { HeaderEnds(p, s, s'); } else { ClientStopsBooks(p, s, a, s'); }
    case ClientFail => if !s.client.ReadHeader? { ClientStopsBooks(p, s, a, s'); }
    case _ =>
  }

  lemma {:induction false} RunKeeps(p: Setup, s: State, actions: seq<Action>, s': State)
    requires ValidSetup(p) && Inv(p, s) && Transfer.Run(p, s, actions) == Some(s')
    ensures Inv(p, s')
    decreases |actions|
  {
    if actions != [] {
      var next := Step(p, s, actions[0]).value;
      StepKeeps(p, s, actions[0], next);
      RunKeeps(p, next, actions[1..], s');
    }
  }

  lemma InitialInv(p: Setup)
    requires ValidSetup(p)
    ensures Inv(p, Initial(p))
  {
    assert Supplied(p.file)[0..] == Supplied(p.file);
  }

  /** In every reachable state: what the client has taken, what is in the channel and what the server
      has still to send make up the status line and the file; if do_get has returned true the output
      is the file; if it has given up, the output is a proper prefix cut at the client's chunk size. */
  lemma TransferIsSafe(p: Setup, actions: seq<Action>, s: State)
    requires ValidSetup(p) && |p.file.contents| >= p.file.size && Transfer.Run(p, Initial(p), actions) == Some(s)
    ensures s.taken + s.channel + Unsent(p, s) == GetHeader(p.file.size) + p.file.contents[..p.file.size]
    ensures s.client.Saved? ==> s.out == p.file.contents[..p.file.size]
    ensures s.client.NotSaved? ==>
      s.out <= p.file.contents[..p.file.size] && |s.out| % CLIENT_CHUNK == 0 && (s.out != [] ==> |s.out| < p.file.size)
  {
    InitialInv(p);
    RunKeeps(p, Initial(p), actions, s);
  }
}
