/** The results, in order, of the calls of ::send and ::recv that the code's loops make. A loop that
gives up without a call - on a closed socket, or at recv_line's limit - counts as a failing one, and so
does a ::send that returns 0. */
module Calls {
  import opened Wrappers
  import opened Text
  import opened Protocol
  import opened Replies
  import opened Sockets
  import opened Sessions
  import opened Clients

  // ---------------------------------------------------------------- sending

  function SendCalls(s: Sock, data: Bytes, total: nat): seq<Outcome>
    requires total <= |data|
    decreases |s.script|
  {
    if total == |data| then []
    else
      var (s1, outcome) := Send(s, data[total..]);
      match outcome
      case Retry => [Retry] + SendCalls(s1, data, total)
      case Error => [Error]
      case Moved(n) => if n == 0 then [Error] else [Moved(n)] + SendCalls(s1, data, total + n)
  }

  lemma SendCallsDone(s: Sock, data: Bytes)
    ensures SendCalls(s, data, |data|) == []
  {
  }

  /** One round of the send loop. */
  lemma SendCallsRound(s: Sock, data: Bytes, total: nat, s1: Sock, outcome: Outcome)
    requires total < |data| && Send(s, data[total..]) == (s1, outcome)
    ensures SendCalls(s, data, total) ==
      if outcome.Retry? then [Retry] + SendCalls(s1, data, total)
      else if outcome.Moved? && outcome.n > 0 then [outcome] + SendCalls(s1, data, total + outcome.n)
      else [Error]
  {
    hide Send;
  }

  function SendAllCalls(s: Sock, data: Bytes): seq<Outcome> { if !s.open then [Error] else SendCalls(s, data, 0) }

  function StreamCalls(x: Session, file: MediaFile, chunk: nat, total: nat, good: bool): seq<Outcome>
    requires chunk > 0 && total <= file.size && total <= |file.contents|
    decreases file.size - total
  {
    var x1, got := Load(x), NextRead(file, chunk, total);
    if !x1.active || total >= file.size || !good || got == 0 then []
    else
      var piece := file.contents[total..total + got];
      var (s, ok) := SendAll(x1.sock, piece);
      SendAllCalls(x1.sock, piece)
        + if ok then StreamCalls(x1.(sock := s), file, chunk, total + got, got == Min(chunk, file.size - total)) else []
  }

  /** The calls of ::send of one handler. */
  function ServeCalls(x: Session, lib: Library, chunk: nat, request: Request): seq<Outcome>
    requires chunk > 0
  {
    match Streamed(lib, request)
    case None => SendAllCalls(x.sock, Answer(lib, request))
    case Some(file) =>
      var (s, ok) := SendAll(x.sock, GetHeader(file.size));
      SendAllCalls(x.sock, GetHeader(file.size)) + if ok then StreamCalls(x.(sock := s), file, chunk, 0, true) else []
  }

  /** All calls of ::send of a run. */
  function RunCalls(x: Session, lib: Library, chunk: nat): seq<Outcome>
    requires chunk > 0
    decreases |x.sock.script|
  {
    var x1 := Load(x);
    if !x1.active then []
    else
      match RecvLine(x1.sock)
      case (_, None) => []
      case (s, Some(line)) =>
        var x2, request := x1.(sock := s), Parse(line);
        ServeCalls(x2, lib, chunk, request) + RunCalls(Serve(x2, lib, chunk, request), lib, chunk)
  }

  // ---------------------------------------------------------------- receiving

  function LineCalls(s: Sock, line: Bytes): seq<Outcome>
    decreases |s.script|
  {
    if |line| >= MAX_LINE then [Error]
    else
      var (s1, outcome, got) := Recv(s, 1);
      match outcome
      case Retry => [Retry] + LineCalls(s1, line)
      case Error => [Error]
      case Moved(n) => if n == 0 || got[0] == '\n' then [outcome] else [outcome] + LineCalls(s1, line + got)
  }

  lemma LineCallsRound(s: Sock, line: Bytes, s1: Sock, outcome: Outcome, got: Bytes)
    requires |line| < MAX_LINE && Recv(s, 1) == (s1, outcome, got)
    ensures outcome.Moved? ==> outcome.n == |got|
    ensures LineCalls(s, line) ==
      if outcome.Retry? then [Retry] + LineCalls(s1, line)
      else if outcome.Error? || outcome.n == 0 || got[0] == '\n' then [outcome]
      else [outcome] + LineCalls(s1, line + got)
  {
    hide Recv;
  }

  lemma LineCallsTooLong(s: Sock, line: Bytes)
    requires |line| >= MAX_LINE
    ensures LineCalls(s, line) == [Error]
  {
  }

  function FillCalls(s: Sock, length: nat, got: Bytes): seq<Outcome>
    requires |got| <= length
    decreases |s.script|
  {
    if |got| == length then []
    else
      var (s1, outcome, more) := Recv(s, length - |got|);
      match outcome
      case Retry => [Retry] + FillCalls(s1, length, got)
      case Error => [Error]
      case Moved(n) => if n == 0 then [outcome] else [outcome] + FillCalls(s1, length, got + more)
  }

  lemma FillCallsDone(s: Sock, got: Bytes)
    ensures FillCalls(s, |got|, got) == []
  {
  }

  lemma FillCallsRound(s: Sock, length: nat, got: Bytes, s1: Sock, outcome: Outcome, more: Bytes)
    requires |got| < length && Recv(s, length - |got|) == (s1, outcome, more)
    ensures outcome.Moved? ==> outcome.n == |more| <= length - |got|
    ensures FillCalls(s, length, got) ==
      if outcome.Retry? then [Retry] + FillCalls(s1, length, got)
      else if outcome.Error? || outcome.n == 0 then [outcome]
      else [outcome] + FillCalls(s1, length, got + more)
  {
    hide Recv;
  }

  /** The calls of do_get's receive loop. */
  function GetCalls(s: Sock, size: nat, out: Bytes): seq<Outcome>
    requires |out| <= size
    decreases size - |out|
  {
    if |out| == size then []
    else
      var piece := Piece(size, |out|);
      var (s1, code, data) := RecvAll(s, piece);
      (if !s.open then [Error] else FillCalls(s, piece, [])) + if code == 1 then GetCalls(s1, size, out + data) else []
  }

  /** The calls of ::recv of do_get. */
  function ReplyCalls(s: Sock): seq<Outcome> {
    var (s1, r) := RecvLine(s);
    (if !s.open then [Error] else LineCalls(s, [])) +
    match r
    case None => []
    case Some(header) =>
      match ParseStatus(header)
      case Detail(text) => if ExtractU64(text).ok then GetCalls(s1, ExtractU64(text).value, []) else []
      case _ => []
  }

  // ---------------------------------------------------------------- what was moved

  /** The counts of the calls that moved something. */
  function Counts(calls: seq<Outcome>): seq<nat> {
    if calls == [] then [] else CountOf(calls[0]) + Counts(calls[1..])
  }

  function CountOf(call: Outcome): seq<nat> { if call.Moved? && call.n > 0 then [call.n] else [] }

  lemma {:induction false} CountsSplit(a: seq<Outcome>, b: seq<Outcome>)
    ensures Counts(a + b) == Counts(a) + Counts(b)
  {
    hide CountOf;
    if a == [] {
      assert a + b == b;
    } else {
      assert (a + b)[1..] == a[1..] + b && (a + b)[0] == a[0];
      CountsSplit(a[1..], b);
      assert CountOf(a[0]) + (Counts(a[1..]) + Counts(b)) == CountOf(a[0]) + Counts(a[1..]) + Counts(b);
    }
  }

  lemma CountsOne(call: Outcome)
    ensures Counts([call]) == CountOf(call)
  {
    assert [call][1..] == [];
  }
}
