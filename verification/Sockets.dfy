/** Connected stream sockets and the partial-I/O loops over them.

The environment is a script: one `Turn` for each system call, saying what another thread did to
the socket just before it and what the call meets. A script may hold any sequence of partial
transfers, interruptions, failures and stops; past its end every call fails. */
module Sockets {
  import opened Wrappers
  import opened Text

  // ---------------------------------------------------------------- the environment

  /** What a concurrent `ClientSession::stop` did to the socket before the call. */
  datatype Cut = Keep | Shut | CloseIt

  /** What the call meets. `Move(n)` transfers n bytes, or as near to n as buffer, stream and the
      need to move at least one allow. After `TimedOut` and `Reset` every later send fails
      too, though a recv that has timed out may be tried again; `Stalled` is a timeout that fails this
      call only. `HangUp`: the peer is gone. */
  datatype Io = Move(n: nat) | Interrupted | TimedOut | Stalled | Reset | HangUp

  datatype Turn = Turn(cut: Cut, io: Io)

  /** One end of a connection. `incoming` is all the peer has sent and will send, less what was
      received; `sent` is all that was sent to it. */
  datatype Sock = Sock(open: bool, broken: bool, incoming: Bytes, sent: Bytes, script: seq<Turn>)

  /** Nothing can be sent any more. */
  predicate Dead(s: Sock) { s.broken || !s.open }

  /** A failed send is followed by failing sends only; a recv may still time out. */
  predicate Sticky(script: seq<Turn>) { forall i | 0 <= i < |script| :: !script[i].io.Stalled? }

  /** The result of a system call: a count, EINTR, or any other error. */
  datatype Outcome = Moved(n: nat) | Retry | Error

  function Clamp(n: nat, most: nat): (k: nat)
    requires most > 0
    ensures 1 <= k <= most
  {
    if n == 0 then 1 else if n < most then n else most
  }

  /** The next turn has begun: its cut has been applied. */
  function Begin(s: Sock): Sock {
    if s.script == [] then s
    else
      var s1 := s.(script := s.script[1..]);
      match s.script[0].cut
      case Keep => s1
      case Shut => s1.(broken := true)
      case CloseIt => s1.(broken := true, open := false)
  }

  function Met(s: Sock): Io { if s.script == [] then Reset else s.script[0].io }

  /** ::send of a non-empty buffer. */
  function Send(s: Sock, data: Bytes): (r: (Sock, Outcome))
    requires data != []
    ensures r.1.Moved? ==> r.1.n <= |data|
    ensures |r.0.script| == if s.script == [] then 0 else |s.script| - 1
    ensures s.script == [] ==> r.1.Error?
  {
    var s1 := Begin(s);
    if !s1.open then (s1, Error)
    else if Met(s).Interrupted? then (s1, Retry)
    else if s1.broken then (s1, Error)
    else
      match Met(s)
      case Move(n) =>
        var k := Clamp(n, |data|);
        (s1.(sent := s1.sent + data[..k]), Moved(k))
      case HangUp => (s1.(broken := true), Moved(0))
      case Stalled => (s1, Error)
      case _ => (s1.(broken := true), Error)
  }

  /** ::recv into a buffer of `room` bytes: the bytes and the result. The stream ends when nothing
      is left of it, or early once the connection is broken. */
  function Recv(s: Sock, room: nat): (r: (Sock, Outcome, Bytes))
    requires room > 0
    ensures r.1.Moved? ==> r.1.n == |r.2| <= room
    ensures |r.0.script| == if s.script == [] then 0 else |s.script| - 1
    ensures s.script == [] ==> r.1.Error?
  {
    var s1 := Begin(s);
    if !s1.open then (s1, Error, [])
    else
      match Met(s)
      case Interrupted => (s1, Retry, [])
      case Move(n) =>
        if s1.incoming == [] then (s1, Moved(0), [])
        else
          var k := Clamp(n, if room < |s1.incoming| then room else |s1.incoming|);
          (s1.(incoming := s1.incoming[k..]), Moved(k), s1.incoming[..k])
      case HangUp => if s1.broken || s1.incoming == [] then (s1, Moved(0), []) else (s1.(broken := true), Error, [])
      case TimedOut => (s1, Error, [])
      case Stalled => (s1, Error, [])
      case Reset => (s1.(broken := true), Error, [])
  }

  // ---------------------------------------------------------------- the loops, as functions

  function SendLoop(s: Sock, data: Bytes, total: nat): (r: (Sock, bool))
    requires total <= |data|
    ensures |r.0.script| <= |s.script|
    decreases |s.script|
  {
    if total == |data| then (s, true)
    else
      var (s1, outcome) := Send(s, data[total..]);
      match outcome
      case Retry => SendLoop(s1, data, total)
      case Error => (s1, false)
      case Moved(n) => if n == 0 then (s1, false) else SendLoop(s1, data, total + n)
  }

  lemma SendDone(s: Sock, data: Bytes)
    ensures SendLoop(s, data, |data|) == (s, true)
  {
  }

  /** One round of the send loop, seen from its system call. */
  lemma SendRound(s: Sock, data: Bytes, total: nat, s1: Sock, outcome: Outcome)
    requires total < |data| && Send(s, data[total..]) == (s1, outcome)
    ensures outcome.Moved? ==> total + outcome.n <= |data|
    ensures SendLoop(s, data, total) ==
      if outcome.Retry? then SendLoop(s1, data, total)
      else if outcome.Moved? && outcome.n > 0 then SendLoop(s1, data, total + outcome.n)
      else (s1, false)
    ensures !outcome.Error? ==> |s1.script| < |s.script|
  {
    hide Send;
  }

  function SendAll(s: Sock, data: Bytes): (r: (Sock, bool))
    ensures |r.0.script| <= |s.script|
  {
    if !s.open then (s, false) else SendLoop(s, data, 0)
  }

  function LineLoop(s: Sock, line: Bytes): (r: (Sock, Option<Bytes>))
    ensures |r.0.script| <= |s.script|
    ensures r.1.Some? ==> |r.0.script| < |s.script|
    decreases |s.script|
  {
    if |line| >= MAX_LINE then (s, None)
    else
      var (s1, outcome, got) := Recv(s, 1);
      match outcome
      case Retry => LineLoop(s1, line)
      case Error => (s1, None)
      case Moved(n) =>
        if n == 0 then (s1, if line != [] then Some(line) else None)
        else if got[0] == '\n' then (s1, Some(StripCr(line)))
        else LineLoop(s1, line + got)
  }

  /** At the limit the line loop fails without a call. */
  lemma LineTooLong(s: Sock, line: Bytes)
    requires |line| >= MAX_LINE
    ensures LineLoop(s, line) == (s, None)
  {
  }

  /** One round of the line loop, seen from its system call. */
  lemma LineRound(s: Sock, line: Bytes, s1: Sock, outcome: Outcome, got: Bytes)
    requires |line| < MAX_LINE && Recv(s, 1) == (s1, outcome, got)
    ensures outcome.Retry? ==> LineLoop(s, line) == LineLoop(s1, line)
    ensures outcome.Error? ==> LineLoop(s, line) == (s1, None)
    ensures outcome == Moved(0) ==> LineLoop(s, line) == (s1, if line != [] then Some(line) else None)
    ensures outcome.Moved? && outcome.n > 0 ==> |got| == 1
    ensures outcome.Moved? && outcome.n > 0 && got[0] == '\n' ==> LineLoop(s, line) == (s1, Some(StripCr(line)))
    ensures outcome.Moved? && outcome.n > 0 && got[0] != '\n' ==> LineLoop(s, line) == LineLoop(s1, line + got)
  {
    hide Recv;
  }

  function RecvLine(s: Sock): (r: (Sock, Option<Bytes>))
    ensures |r.0.script| <= |s.script|
    ensures r.1.Some? ==> |r.0.script| < |s.script|
  {
    if !s.open then (s, None) else LineLoop(s, [])
  }

  /** The codes of recv_all: 1 all received, 0 end of stream, -1 error; and what reached the buffer. */
  function FillLoop(s: Sock, length: nat, got: Bytes): (r: (Sock, int, Bytes))
    requires |got| <= length
    ensures |r.0.script| <= |s.script| && got <= r.2 && |r.2| <= length
    ensures r.1 == 1 <==> |r.2| == length
    decreases |s.script|
  {
    if |got| == length then (s, 1, got)
    else
      var (s1, outcome, more) := Recv(s, length - |got|);
      match outcome
      case Retry => FillLoop(s1, length, got)
      case Error => (s1, -1, got)
      case Moved(n) => if n == 0 then (s1, 0, got) else FillLoop(s1, length, got + more)
  }

  lemma FillDone(s: Sock, got: Bytes)
    ensures FillLoop(s, |got|, got) == (s, 1, got)
  {
  }

  /** One round of the receive loop, seen from its system call. */
  lemma FillRound(s: Sock, length: nat, got: Bytes, s1: Sock, outcome: Outcome, more: Bytes)
    requires |got| < length && Recv(s, length - |got|) == (s1, outcome, more)
    ensures outcome.Retry? ==> FillLoop(s, length, got) == FillLoop(s1, length, got)
    ensures outcome.Error? ==> FillLoop(s, length, got) == (s1, -1, got)
    ensures outcome == Moved(0) ==> FillLoop(s, length, got) == (s1, 0, got)
    ensures outcome.Moved? ==> outcome.n == |more| <= length - |got|
    ensures outcome.Moved? && outcome.n > 0 ==> FillLoop(s, length, got) == FillLoop(s1, length, got + more)
    ensures (outcome.Retry? || (outcome.Moved? && outcome.n > 0)) ==> |s1.script| < |s.script|
  {
    hide Recv;
  }

  function RecvAll(s: Sock, length: nat): (r: (Sock, int, Bytes))
    ensures |r.0.script| <= |s.script| && |r.2| <= length && (r.1 == 1 ==> |r.2| == length)
  {
    if !s.open then (s, -1, []) else FillLoop(s, length, [])
  }
}
