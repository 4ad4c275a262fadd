/** `class Socket`: its loops, proved against the functions of module Sockets. */
module SocketClass {
  import opened Wrappers
  import opened Text
  import opened Sockets

  class Socket {
    var fd: int
    var broken: bool
    var incoming: Bytes
    var sent: Bytes
    var script: seq<Turn>

    constructor (fd: int, incoming: Bytes, script: seq<Turn>)
      ensures View() == Sock(fd >= 0, false, incoming, [], script)
    {
      this.fd, this.broken, this.incoming, this.sent, this.script := fd, false, incoming, [], script;
    }

    function View(): Sock
      reads this
    {
      Sock(fd >= 0, broken, incoming, sent, script)
    }

    /** The environment's move before a system call. */
    method NextTurn() returns (io: Io)
      modifies this
      ensures View() == Begin(old(View())) && io == Met(old(View()))
    {
      io := Reset;
      if script != [] {
        var turn := script[0];
        io := turn.io;
        script := script[1..];
        if turn.cut != Keep { broken := true; }
        if turn.cut == CloseIt { fd := -1; }
      }
    }

    method SysSend(data: Bytes) returns (outcome: Outcome)
      requires data != []
      modifies this
      ensures (View(), outcome) == Send(old(View()), data)
    {
      var io := NextTurn();
      if fd < 0 {
        return Error;
      }
      match io {
        case Interrupted => return Retry;
        case _ =>
      }
      if broken {
        return Error;
      }
      match io {
        case Move(n) =>
          var k := Clamp(n, |data|);
          sent := sent + data[..k];
          return Moved(k);
        case HangUp =>
          broken := true;
          return Moved(0);
        case Stalled =>
          return Error;
        case TimedOut =>
          broken := true;
          return Error;
        case Reset =>
          broken := true;
          return Error;
        case Interrupted =>
      }
    }

    method SysRecv(room: nat) returns (outcome: Outcome, bytes: Bytes)
      requires room > 0
      modifies this
      ensures (View(), outcome, bytes) == Recv(old(View()), room)
    {
      var io := NextTurn();
      if fd < 0 {
        return Error, [];
      }
      match io {
        case Interrupted => return Retry, [];
        case Move(n) =>
          if incoming == [] {
            return Moved(0), [];
          }
          var k := Clamp(n, if room < |incoming| then room else |incoming|);
          bytes := incoming[..k];
          incoming := incoming[k..];
          return Moved(k), bytes;
        case HangUp =>
          if broken || incoming == [] {
            return Moved(0), [];
          }
          broken := true;
          return Error, [];
        case TimedOut => return Error, [];
        case Stalled => return Error, [];
        case Reset =>
          broken := true;
          return Error, [];
      }
    }

    method SendAll(data: Bytes) returns (ok: bool)
      modifies this
      ensures (View(), ok) == Sockets.SendAll(old(View()), data)
    {
      hide Send, SendLoop;
      if fd < 0 {
        return false;
      }
      var totalSent := 0;
      while totalSent < |data|
        invariant 0 <= totalSent <= |data|
        invariant SendLoop(View(), data, totalSent) == SendLoop(old(View()), data, 0)
        decreases |script|, |data| - totalSent
      {
        ghost var before := View();
        var outcome := SysSend(data[totalSent..]);
        SendRound(before, data, totalSent, View(), outcome);
        match outcome {
          case Retry => continue;
          case Error => return false;
          case Moved(n) =>
            if n == 0 {
              return false;
            }
            totalSent := totalSent + n;
        }
      }
      SendDone(View(), data);
      return true;
    }

    method SendString(str: Bytes) returns (ok: bool)
      modifies this
      ensures (View(), ok) == Sockets.SendAll(old(View()), str)
    {
      ok := SendAll(str);
    }

    /** Receives into the head of a caller's buffer. */
    method RecvAll(buffer: array<char>, length: nat) returns (code: int)
      requires length <= buffer.Length
      modifies this, buffer
      ensures var r := Sockets.RecvAll(old(View()), length);
        View() == r.0 && code == r.1 && buffer[..|r.2|] == r.2 && buffer[|r.2|..] == old(buffer[..])[|r.2|..]
    {
      hide Recv, FillLoop;
      if fd < 0 {
        return -1;
      }
      var total := 0;
      while total < length
        invariant 0 <= total <= length
        invariant FillLoop(View(), length, buffer[..total]) == FillLoop(old(View()), length, [])
        invariant buffer[total..] == old(buffer[..])[total..]
        decreases |script|, length - total
      {
        ghost var start, filled := View(), buffer[..total];
        var outcome, bytes := SysRecv(length - total);
        FillRound(start, length, filled, View(), outcome, bytes);
        match outcome {
          case Retry => continue;
          case Error => return -1;
          case Moved(n) =>
            if n == 0 {
              return 0;
            }
            ghost var before := buffer[..];
            forall i | 0 <= i < n {
              buffer[total + i] := bytes[i];
            }
            assert buffer[..total + n] == before[..total] + bytes;
            assert buffer[total + n..] == before[total + n..];
            total := total + n;
        }
      }
      FillDone(View(), buffer[..total]);
      return 1;
    }

    method RecvLine() returns (line: Option<Bytes>)
      modifies this
      ensures (View(), line) == Sockets.RecvLine(old(View()))
    {
      if fd < 0 {
        return None;
      }
      var text: Bytes := [];
      while |text| < MAX_LINE
        invariant |text| <= MAX_LINE
        invariant LineLoop(View(), text) == LineLoop(old(View()), [])
        decreases |script|
      {
        var outcome, bytes := SysRecv(1);
        match outcome {
          case Retry => continue;
          case Error => return None;
          case Moved(n) =>
            if n == 0 {
              return if text != [] then Some(text) else None;
            }
            if bytes[0] == '\n' {
              if text != [] && text[|text| - 1] == '\r' {
                text := text[..|text| - 1];
              }
              return Some(text);
            }
            text := text + bytes;
        }
      }
      return None;
    }

    method Shutdown()
      modifies this
      ensures View() == if old(fd) >= 0 then old(View()).(broken := true) else old(View())
      ensures fd == old(fd)
    {
      if fd >= 0 { broken := true; }
    }

    method Close()
      modifies this
      ensures View() == old(View()).(open := false)
    {
      if fd >= 0 { fd := -1; }
    }
  }
}
