/** What the partial-I/O loops guarantee under every script of the environment. */
module SocketTheorems {
  import opened Wrappers
  import opened Text
  import opened Sockets

  // ---------------------------------------------------------------- one system call

  /** Neither a dead socket nor the stickiness of the rest of the script ever comes back undone. */
  predicate Later(s: Sock, s': Sock) {
    && (Dead(s) ==> Dead(s'))
    && (Sticky(s.script) ==> Sticky(s'.script))
    && (s.broken ==> s'.broken)
    && (s'.open ==> s.open)
  }

  lemma SendFacts(s: Sock, data: Bytes)
    requires data != []
    ensures var (s', outcome) := Send(s, data);
      && Later(s, s') && s'.incoming == s.incoming
      && s'.sent == s.sent + (if outcome.Moved? then data[..outcome.n] else [])
      && (Dead(s) ==> !outcome.Moved?)
      && ((outcome.Error? || outcome == Moved(0)) && Sticky(s.script) ==> Dead(s'))
  {
  }

  lemma RecvFacts(s: Sock, room: nat)
    requires room > 0
    ensures var (s', outcome, got) := Recv(s, room);
      && Later(s, s') && s'.sent == s.sent && s.incoming == got + s'.incoming
      && (!outcome.Moved? ==> got == [] && s'.incoming == s.incoming)
      && (outcome == Moved(0) ==> s'.broken || s.incoming == [])
  {
  }

  // ---------------------------------------------------------------- send_all

  /** send_all puts a prefix of the data on the wire, all of it exactly when it returns true; a dead
      socket takes nothing, and under sticky failures a failed send_all leaves the socket dead. */
  lemma {:induction false} SendLoopSound(s: Sock, data: Bytes, total: nat)
    requires total <= |data|
    ensures var (s', ok) := SendLoop(s, data, total);
      && Later(s, s') && s'.incoming == s.incoming
      && s.sent <= s'.sent <= s.sent + data[total..]
      && (ok <==> s'.sent == s.sent + data[total..])
      && (Dead(s) && total < |data| ==> s'.sent == s.sent)
      && (!ok && Sticky(s.script) ==> Dead(s'))
    decreases |s.script|
  {
    hide Send, SendLoop, Sticky;
    if total == |data| {
      SendDone(s, data);
      assert data[total..] == [];
    } else {
      var (s1, outcome) := Send(s, data[total..]);
      SendFacts(s, data[total..]);
      SendRound(s, data, total, s1, outcome);
      if outcome.Retry? {
        SendLoopSound(s1, data, total);
      } else if outcome.Moved? && outcome.n > 0 {
        SendLoopSound(s1, data, total + outcome.n);
        assert data[total..] == data[total..][..outcome.n] + data[total + outcome.n..];
        assert s1.sent + data[total + outcome.n..] == s.sent + data[total..];
      }
    }
  }

  lemma SendAllSound(s: Sock, data: Bytes)
    ensures var (s', ok) := SendAll(s, data);
      && Later(s, s') && s'.incoming == s.incoming
      && s.sent <= s'.sent <= s.sent + data
      && (ok ==> s'.sent == s.sent + data)
      && (Dead(s) && data != [] ==> s'.sent == s.sent && !ok)
      && (!ok && data != [] ==> s'.sent != s.sent + data)
      && (!ok && Sticky(s.script) ==> Dead(s'))
  {
    if s.open {
      SendLoopSound(s, data, 0);
      assert data[0..] == data;
    }
  }

  // ---------------------------------------------------------------- recv_line

  /** A line recv_line delivers is the next line of the stream, and exactly it was consumed, unless
      the connection was broken meanwhile. */
  lemma {:induction false} LineLoopSound(s: Sock, line: Bytes)
    requires '\n' !in line && |line| <= MAX_LINE
    ensures var (s', r) := LineLoop(s, line);
      && Later(s, s') && s'.sent == s.sent && |s'.incoming| <= |s.incoming|
      && (r.Some? ==> s'.broken || TakeLine(line + s.incoming) == Some(Line(r.value, s'.incoming)))
    decreases |s.script|
  {
    hide Recv, TakeLine;
    if |line| < MAX_LINE {
      var (s1, outcome, got) := Recv(s, 1);
      RecvFacts(s, 1);
      LineRound(s, line, s1, outcome, got);
      if outcome.Retry? {
        LineLoopSound(s1, line);
      } else if outcome.Moved? && outcome.n > 0 {
        if got[0] == '\n' {
          TakeLineOf(line, s1.incoming);
          assert line + s.incoming == line + "\n" + s1.incoming;
        } else {
          LineLoopSound(s1, line + got);
          assert line + s.incoming == (line + got) + s1.incoming;
        }
      } else if outcome == Moved(0) && s.incoming == [] {
        TakeLastLine(line);
        assert line + s.incoming == line;
      }
    }
  }

  lemma RecvLineSound(s: Sock)
    ensures var (s', r) := RecvLine(s);
      && Later(s, s') && s'.sent == s.sent && |s'.incoming| <= |s.incoming|
      && (r.Some? ==> s'.broken || TakeLine(s.incoming) == Some(Line(r.value, s'.incoming)))
  {
    LineLoopSound(s, []);
    assert [] + s.incoming == s.incoming;
  }

  // ---------------------------------------------------------------- recv_all

  /** Whatever happens, the buffer holds the bytes taken off the stream, in order. */
  lemma {:induction false} FillLoopSound(s: Sock, length: nat, got: Bytes)
    requires |got| <= length
    ensures var (s', code, all) := FillLoop(s, length, got);
      got + s.incoming == all + s'.incoming && s'.sent == s.sent && Later(s, s')
    decreases |s.script|
  {
    hide FillLoop, Recv, Dead, Sticky;
    if |got| == length {
      FillDone(s, got);
    } else {
      var (s1, outcome, more) := Recv(s, length - |got|);
      RecvFacts(s, length - |got|);
      FillRound(s, length, got, s1, outcome, more);
      if outcome.Retry? {
        FillLoopSound(s1, length, got);
      } else if outcome.Moved? && outcome.n > 0 {
        FillLoopSound(s1, length, got + more);
        assert got + s.incoming == (got + more) + s1.incoming;
      }
    }
  }

  lemma RecvAllSound(s: Sock, length: nat)
    ensures var (s', code, all) := RecvAll(s, length);
      && s.incoming == all + s'.incoming && s'.sent == s.sent && Later(s, s')
      && (code == 1 ==> |all| == length) && (code != 1 && length > 0 ==> |all| < length)
  {
    if s.open {
      FillLoopSound(s, length, []);
      assert [] + s.incoming == s.incoming;
    }
  }

  // ---------------------------------------------------------------- when nothing fails

  /** No stop and no failure: only partial transfers and interruptions. */
  predicate Clean(script: seq<Turn>) {
    forall i | 0 <= i < |script| :: script[i].cut == Keep && (script[i].io.Move? || script[i].io.Interrupted?)
  }

  function Moves(script: seq<Turn>): nat {
    if script == [] then 0 else (if script[0].io.Move? then 1 else 0) + Moves(script[1..])
  }

  predicate Healthy(s: Sock) { s.open && !s.broken && Clean(s.script) }

  /** Under a clean script with a transfer for each byte, send_all sends everything. */
  lemma {:induction false} SendLoopCompletes(s: Sock, data: Bytes, total: nat)
    requires total <= |data| && Healthy(s) && Moves(s.script) >= |data| - total
    ensures var (s', ok) := SendLoop(s, data, total);
      ok && Healthy(s') && Moves(s'.script) >= Moves(s.script) - (|data| - total)
    decreases |s.script|
  {
    if total == |data| {
      SendDone(s, data);
    } else {
      var (s1, outcome) := Send(s, data[total..]);
      SendRound(s, data, total, s1, outcome);
      SendLoopCompletes(s1, data, if outcome.Retry? then total else total + outcome.n);
    }
  }

  lemma SendAllCompletes(s: Sock, data: Bytes)
    requires Healthy(s) && Moves(s.script) >= |data|
    ensures var (s', ok) := SendAll(s, data);
      ok && Healthy(s') && Moves(s'.script) >= Moves(s.script) - |data|
  {
    SendLoopCompletes(s, data, 0);
  }

  /** The transfers recv_line needs to get from s to s': one for each byte, one to see the end. */
  function LineCost(before: Bytes, after: Bytes): int { |before| - |after| + if after == [] then 1 else 0 }

  /** What recv_line does with a stream when nothing fails. */
  ghost predicate TakesLine(s: Sock, stream: Bytes, s': Sock, r: Option<Bytes>) {
    var next := TakeLine(stream);
    if next.None? then r.None?
    else
      && r == Some(next.value.text) && s'.incoming == next.value.rest
      && Healthy(s') && Moves(s'.script) >= Moves(s.script) - LineCost(s.incoming, s'.incoming)
  }

  lemma HealthyRecv(s: Sock, room: nat)
    requires room > 0 && Healthy(s) && Moves(s.script) > 0
    ensures var (s', outcome, got) := Recv(s, room);
      && Healthy(s') && !outcome.Error? && (outcome == Moved(0) <==> outcome.Moved? && s.incoming == [])
      && Moves(s'.script) == Moves(s.script) - if outcome.Moved? then 1 else 0
  {
  }

  /** Under a clean script recv_line returns exactly the next line of the stream, or fails exactly
      when there is none. */
  lemma {:induction false} LineLoopExact(s: Sock, line: Bytes)
    requires '\n' !in line && |line| <= MAX_LINE && Healthy(s) && Moves(s.script) > |s.incoming|
    ensures TakesLine(s, line + s.incoming, LineLoop(s, line).0, LineLoop(s, line).1)
    decreases |s.script|
  {
    hide Recv, TakeLine, Healthy, Moves;
    if |line| < MAX_LINE {
      var (s1, outcome, got) := Recv(s, 1);
      RecvFacts(s, 1);
      HealthyRecv(s, 1);
      LineRound(s, line, s1, outcome, got);
      if outcome.Retry? {
        LineLoopExact(s1, line);
      } else if s.incoming == [] {
        TakeLastLine(line);
        assert line + s.incoming == line;
      } else if got[0] == '\n' {
        TakeLineOf(line, s1.incoming);
        assert line + s.incoming == line + "\n" + s1.incoming;
      } else {
        LineLoopExact(s1, line + got);
        assert line + s.incoming == (line + got) + s1.incoming;
      }
    } else {
      TakeLineTooLong(line, s.incoming);
    }
  }

  lemma RecvLineExact(s: Sock)
    requires Healthy(s) && Moves(s.script) > |s.incoming|
    ensures TakesLine(s, s.incoming, RecvLine(s).0, RecvLine(s).1)
  {
    LineLoopExact(s, []);
    assert [] + s.incoming == s.incoming;
  }

  /** A line that ends in a carriage return and a newline arrives without either. */
  lemma CrLfLineReceived(s: Sock, text: Bytes, rest: Bytes)
    requires Healthy(s) && Moves(s.script) > |s.incoming|
    requires '\n' !in text && |text| + 1 < MAX_LINE && s.incoming == text + "\r\n" + rest
    ensures RecvLine(s).1 == Some(text) && RecvLine(s).0.incoming == rest
  {
    hide RecvLine, TakeLine, Healthy, Moves;
    RecvLineExact(s);
    TakeCrLfLine(text, rest);
  }

  /** Under a clean script recv_all fills the buffer with the next bytes and returns 1, or finds the end of
      the stream before that, with all there was in the buffer, and returns 0. */
  lemma {:induction false} FillLoopExact(s: Sock, length: nat, got: Bytes)
    requires |got| <= length && Healthy(s) && Moves(s.script) > |s.incoming|
    ensures var (s', code, all) := FillLoop(s, length, got);
      var n := if |got| + |s.incoming| < length then |s.incoming| else length - |got|;
      && code == (if |got| + |s.incoming| < length then 0 else 1)
      && all == got + s.incoming[..n] && s'.incoming == s.incoming[n..] && s'.sent == s.sent
    decreases |s.script|
  {
    hide Recv, FillLoop, Healthy, Moves;
    if |got| == length {
      FillDone(s, got);
      assert got + s.incoming[..0] == got && s.incoming[0..] == s.incoming;
    } else {
      var (s1, outcome, more) := Recv(s, length - |got|);
      RecvFacts(s, length - |got|);
      HealthyRecv(s, length - |got|);
      FillRound(s, length, got, s1, outcome, more);
      if outcome.Retry? {
        FillLoopExact(s1, length, got);
      } else if s.incoming == [] {
        assert got + s.incoming[..0] == got && s.incoming[0..] == s.incoming;
      } else {
        FillLoopExact(s1, length, got + more);
        var m := if |got + more| + |s1.incoming| < length then |s1.incoming| else length - |got + more|;
        assert s.incoming[..|more| + m] == more + s1.incoming[..m] && s.incoming[|more| + m..] == s1.incoming[m..];
        assert got + (more + s1.incoming[..m]) == got + more + s1.incoming[..m];
      }
    }
  }

  /** recv_all answers 0 only if the connection has ended, and a closed socket fails at once. */
  lemma {:induction false} FillLoopEnds(s: Sock, length: nat, got: Bytes)
    requires |got| <= length && FillLoop(s, length, got).1 == 0
    ensures var s' := FillLoop(s, length, got).0; s'.broken || s'.incoming == []
    decreases |s.script|
  {
    hide Recv, FillLoop;
    if |got| == length {
      FillDone(s, got);
    } else {
      var (s1, outcome, more) := Recv(s, length - |got|);
      RecvFacts(s, length - |got|);
      FillRound(s, length, got, s1, outcome, more);
      if outcome.Retry? {
        FillLoopEnds(s1, length, got);
      } else if outcome.Moved? && outcome.n > 0 {
        FillLoopEnds(s1, length, got + more);
      }
    }
  }

  lemma RecvAllExact(s: Sock, length: nat)
    ensures var (s', code, all) := RecvAll(s, length);
      && (!s.open ==> code == -1 && s' == s && all == [])
      && (code == 0 ==> s'.broken || s'.incoming == [])
      && (Healthy(s) && Moves(s.script) > |s.incoming| ==>
            var n := if |s.incoming| < length then |s.incoming| else length;
            && code == (if |s.incoming| < length then 0 else 1)
            && all == s.incoming[..n] && s'.incoming == s.incoming[n..])
  {
    hide FillLoop, Healthy, Moves;
    if s.open {
      if RecvAll(s, length).1 == 0 { FillLoopEnds(s, length, []); }
      if Healthy(s) && Moves(s.script) > |s.incoming| { FillLoopExact(s, length, []); }
    } else {
      HealthyNotClosed(s);
    }
  }

  lemma HealthyNotClosed(s: Sock)
    ensures Healthy(s) ==> s.open
  {
  }

  /** One call takes the first of several terminated lines. */
  lemma RecvLineSplits(s: Sock, line: Bytes, rest: Bytes)
    requires Healthy(s) && Moves(s.script) > |s.incoming|
    requires '\n' !in line && |line| < MAX_LINE && s.incoming == line + "\n" + rest
    ensures RecvLine(s).1 == Some(StripCr(line)) && RecvLine(s).0.incoming == rest
    ensures Healthy(RecvLine(s).0) && (rest != [] ==> Moves(RecvLine(s).0.script) > |rest|)
  {
    RecvLineExact(s);
    TakeLineOf(line, rest);
  }

  /** So many calls of recv_line, given up at the first that fails. */
  function RecvLines(s: Sock, count: nat): (Sock, Option<seq<Bytes>>)
    decreases count
  {
    if count == 0 then (s, Some([]))
    else
      match RecvLine(s)
      case (s1, None) => (s1, None)
      case (s1, Some(line)) =>
        match RecvLines(s1, count - 1)
        case (s2, None) => (s2, None)
        case (s2, Some(more)) => (s2, Some([line] + more))
  }

  function Terminated(lines: seq<Bytes>): Bytes {
    if lines == [] then [] else lines[0] + "\n" + Terminated(lines[1..])
  }

  /** Lines short enough for recv_line that it does not alter. */
  predicate PlainLines(lines: seq<Bytes>) {
    forall i | 0 <= i < |lines| :: '\n' !in lines[i] && |lines[i]| < MAX_LINE && StripCr(lines[i]) == lines[i]
  }

  /** Repeated calls split a concatenation of terminated lines, whatever follows it, back into those
      lines, and consume nothing else. */
  lemma {:induction false} RecvLinesSplit(s: Sock, lines: seq<Bytes>, rest: Bytes)
    requires PlainLines(lines) && s.incoming == Terminated(lines) + rest
    requires Healthy(s) && (s.incoming != [] ==> Moves(s.script) > |s.incoming|)
    ensures RecvLines(s, |lines|).1 == Some(lines) && RecvLines(s, |lines|).0.incoming == rest
    decreases |lines|
  {
    hide RecvLine, Healthy, Moves, StripCr;
    if lines == [] {
      assert Terminated(lines) + rest == rest;
    } else {
      var more := lines[1..];
      assert s.incoming == lines[0] + "\n" + (Terminated(more) + rest);
      RecvLineSplits(s, lines[0], Terminated(more) + rest);
      RecvLinesSplit(RecvLine(s).0, more, rest);
      assert [lines[0]] + more == lines;
    }
  }
}
