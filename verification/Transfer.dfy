/** One GET as two processes and a bounded channel, step by step.

The server's handler slices the file into its chunks and pushes each through send_all; the client
reads the status line byte by byte and then re-slices the stream into its own 64 KB pieces. Every
send and recv is one step whose result the environment chooses. */
module Transfer {
  import opened Wrappers
  import opened Text
  import opened Protocol
  import opened Replies
  import opened Sessions
  import opened Clients

  /** `capacity`: how many bytes the channel holds. */
  datatype Setup = Setup(file: MediaFile, chunk: nat, capacity: nat)

  predicate ValidSetup(p: Setup) { p.chunk > 0 && p.capacity > 0 }

  datatype ServerPc =
    | SendHeader(pending: Bytes)              // inside send_string
    | ChunkLoop(good: bool)                   // at the head of the chunk loop
    | SendChunk(pending: Bytes, read: nat, good: bool)
    | Served                                  // handle_get has returned; the session goes on
    | Aborted(unsent: Bytes)                  // failed or stopped; the socket is closed

  datatype ClientPc =
    | ReadHeader(line: Bytes)                 // inside recv_line
    | PieceLoop                               // at the head of the receive loop
    | ReadPiece(want: nat, got: Bytes)        // inside recv_all
    | Saved                                   // do_get returned true
    | NotSaved                                  // do_get returned false, or threw

  /** `total` is total_sent, `size` the parsed size, `out` the output file; `taken` is history: every
      byte the client has received. */
  datatype State = State(server: ServerPc, total: nat, channel: Bytes, client: ClientPc, size: nat, out: Bytes, taken: Bytes)

  datatype Action =
    | ServerSend(k: nat) | ServerNext | ServerInterrupted | ServerFail | ServerStop
    | ClientRecv(k: nat) | ClientNext | ClientInterrupted | ClientEnd | ClientFail

  function Initial(p: Setup): State {
    State(SendHeader(GetHeader(p.file.size)), 0, [], ReadHeader([]), 0, [], [])
  }

  function Pending(pc: ServerPc): Bytes {
    match pc case SendHeader(pending) => pending case SendChunk(pending, _, _) => pending case _ => []
  }

  function Sent(pc: ServerPc, k: nat): ServerPc
    requires k <= |Pending(pc)|
  {
    match pc
    case SendHeader(pending) => SendHeader(pending[k..])
    case SendChunk(pending, read, good) => SendChunk(pending[k..], read, good)
    case _ => pc
  }

  /** What the file supplies beyond the piece being sent. */
  function Ahead(p: Setup, s: State): Bytes {
    var read := if s.server.SendChunk? then s.server.read else 0;
    if s.server.Served? || s.total + read > |Supplied(p.file)| then [] else Supplied(p.file)[s.total + read..]
  }

  /** The bytes the server has still to send, or has given up sending. */
  function Unsent(p: Setup, s: State): Bytes {
    if s.server.Aborted? then s.server.unsent else Pending(s.server) + Ahead(p, s)
  }

  /** The server's own bookkeeping between sends. */
  function ServerStep(p: Setup, s: State): Option<State>
    requires ValidSetup(p)
  {
    match s.server
    case SendHeader(pending) => if pending == [] then Some(s.(server := ChunkLoop(true))) else None
    case SendChunk(pending, read, good) =>
      if pending == [] then Some(s.(server := ChunkLoop(good), total := s.total + read)) else None
    case ChunkLoop(good) =>
      if s.total >= p.file.size || s.total >= |p.file.contents| || !good then Some(s.(server := Served))
      else
        var got := NextRead(p.file, p.chunk, s.total);
        Some(s.(server := SendChunk(p.file.contents[s.total..s.total + got], got, got == Min(p.chunk, p.file.size - s.total))))
    case _ => None
  }

  /** What do_get does with the status line. */
  function AfterHeader(s: State, line: Bytes): (r: State)
    ensures r.server == s.server && r.total == s.total && r.channel == s.channel && r.taken == s.taken && r.out == s.out
  {
    match ParseStatus(line)
    case Detail(text) =>
      var size := ExtractU64(text);
      if size.ok then s.(client := PieceLoop, size := size.value) else s.(client := NotSaved)
    case _ => s.(client := NotSaved)
  }

  /** The client's own bookkeeping between receives. */
  function ClientStep(s: State): Option<State> {
    match s.client
    case PieceLoop =>
      if |s.out| >= s.size then Some(s.(client := Saved))
      else Some(s.(client := ReadPiece(Piece(s.size, |s.out|), [])))
    case ReadPiece(want, got) =>
      if |got| >= want then Some(s.(client := PieceLoop, out := s.out + got)) else None
    case _ => None
  }

  /** The most the client's current recv call can take. */
  function Room(pc: ClientPc): nat {
    match pc
    case ReadHeader(line) => if |line| < MAX_LINE then 1 else 0
    case ReadPiece(want, got) => if |got| < want then want - |got| else 0
    case _ => 0
  }

  /** The client has received `bytes`. */
  function Receive(s: State, bytes: Bytes): (r: State)
    requires bytes != []
    ensures r.server == s.server && r.total == s.total && r.channel == s.channel && r.taken == s.taken + bytes
  {
    var s1 := s.(taken := s.taken + bytes);
    match s.client
    case ReadHeader(line) =>
      if bytes[0] == '\n' then AfterHeader(s1, StripCr(line)) else s1.(client := ReadHeader(line + bytes))
    case ReadPiece(want, got) => s1.(client := ReadPiece(want, got + bytes))
    case _ => s1
  }

  /** The client's recv has returned 0. */
  function EndOfStream(s: State): (r: State)
    ensures r.server == s.server && r.total == s.total && r.channel == s.channel && r.taken == s.taken
  {
    match s.client
    case ReadHeader(line) => if line != [] then AfterHeader(s, line) else s.(client := NotSaved)
    case _ => s.(client := NotSaved)
  }

  predicate Failed(s: State) { s.server.Aborted? || s.client.NotSaved? }

  /** One step; None when the action is not enabled. */
  function Step(p: Setup, s: State, a: Action): Option<State>
    requires ValidSetup(p)
  {
    match a
    case ServerSend(k) =>
      if 1 <= k <= |Pending(s.server)| && |s.channel| + k <= p.capacity
      then Some(s.(server := Sent(s.server, k), channel := s.channel + Pending(s.server)[..k]))
      else None
    case ServerNext => ServerStep(p, s)
    case ServerInterrupted => if Pending(s.server) != [] then Some(s) else None
    case ServerFail => if Pending(s.server) != [] then Some(s.(server := Aborted(Unsent(p, s)))) else None
    case ServerStop => if s.server.ChunkLoop? then Some(s.(server := Aborted(Unsent(p, s)))) else None
    case ClientRecv(k) =>
      if 1 <= k <= Room(s.client) && k <= |s.channel|
      then Some(Receive(s.(channel := s.channel[k..]), s.channel[..k]))
      else None
    case ClientNext => ClientStep(s)
    case ClientInterrupted => if Room(s.client) > 0 then Some(s) else None
    case ClientEnd => if Room(s.client) > 0 && s.channel == [] && s.server.Aborted? then Some(EndOfStream(s)) else None
    case ClientFail =>
      if Room(s.client) > 0 || s.client.ReadHeader? then Some(s.(client := NotSaved)) else None
  }

  function Run(p: Setup, s: State, actions: seq<Action>): Option<State>
    requires ValidSetup(p)
    decreases |actions|
  {
    if actions == [] then Some(s)
    else match Step(p, s, actions[0])
         case Some(s') => Run(p, s', actions[1..])
         case None => None
  }
}
