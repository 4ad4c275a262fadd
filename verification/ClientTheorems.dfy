/** What the verdict of `do_get` is worth against a reply that may be cut short anywhere. */
module ClientTheorems {
  import opened Wrappers
  import opened Text
  import opened Protocol
  import opened Replies
  import opened Sockets
  import opened SocketTheorems
  import opened Clients

  // ---------------------------------------------------------------- a single-threaded socket

  predicate NoCuts(script: seq<Turn>) { forall i | 0 <= i < |script| :: script[i].cut == Keep }

  /** No other thread touches the socket, and it has not failed so far. */
  predicate Undisturbed(s: Sock) { s.open && !s.broken && NoCuts(s.script) }

  lemma UndisturbedIsOpen(s: Sock)
    requires Undisturbed(s)
    ensures s.open
  {
  }

  lemma UndisturbedCall(s: Sock, room: nat, data: Bytes)
    requires Undisturbed(s) && room > 0 && data != []
    ensures !Recv(s, room).1.Error? ==> Undisturbed(Recv(s, room).0)
    ensures !Send(s, data).1.Error? && Send(s, data).1 != Moved(0) ==> Undisturbed(Send(s, data).0)
  {
  }

  lemma {:induction false} SendLoopUndisturbed(s: Sock, data: Bytes, total: nat)
    requires Undisturbed(s) && total <= |data| && SendLoop(s, data, total).1
    ensures Undisturbed(SendLoop(s, data, total).0)
    decreases |s.script|
  {
    hide Send, SendLoop;
    if total == |data| {
      SendDone(s, data);
    } else {
      var (s1, outcome) := Send(s, data[total..]);
      UndisturbedCall(s, 1, data[total..]);
      SendRound(s, data, total, s1, outcome);
      if outcome.Retry? {
        SendLoopUndisturbed(s1, data, total);
      } else {
        SendLoopUndisturbed(s1, data, total + outcome.n);
      }
    }
  }

  lemma {:induction false} LineLoopUndisturbed(s: Sock, line: Bytes)
    requires Undisturbed(s) && LineLoop(s, line).1.Some?
    ensures Undisturbed(LineLoop(s, line).0)
    decreases |s.script|
  {
    hide Recv;
    if |line| < MAX_LINE {
      var (s1, outcome, got) := Recv(s, 1);
      UndisturbedCall(s, 1, "x");
      LineRound(s, line, s1, outcome, got);
      if outcome.Retry? {
        LineLoopUndisturbed(s1, line);
      } else if outcome.n > 0 && got[0] != '\n' {
        LineLoopUndisturbed(s1, line + got);
      }
    }
  }

  lemma {:induction false} FillLoopUndisturbed(s: Sock, length: nat, got: Bytes)
    requires Undisturbed(s) && |got| <= length && FillLoop(s, length, got).1 == 1
    ensures Undisturbed(FillLoop(s, length, got).0)
    decreases |s.script|
  {
    hide Recv, FillLoop;
    if |got| == length {
      FillDone(s, got);
    } else {
      var (s1, outcome, more) := Recv(s, length - |got|);
      UndisturbedCall(s, length - |got|, "x");
      FillRound(s, length, got, s1, outcome, more);
      if outcome.Retry? {
        FillLoopUndisturbed(s1, length, got);
      } else {
        FillLoopUndisturbed(s1, length, got + more);
      }
    }
  }

  /** A line received on an undisturbed socket is the next line of the stream. */
  lemma LineReceived(s: Sock)
    requires Undisturbed(s) && RecvLine(s).1.Some?
    ensures Undisturbed(RecvLine(s).0)
    ensures TakeLine(s.incoming) == Some(Line(RecvLine(s).1.value, RecvLine(s).0.incoming))
  {
    RecvLineSound(s);
    LineLoopUndisturbed(s, []);
  }

  lemma SentRequest(s: Sock, request: Bytes)
    requires Undisturbed(s) && SendAll(s, request).1
    ensures Undisturbed(SendAll(s, request).0) && SendAll(s, request).0.incoming == s.incoming
  {
    SendAllSound(s, request);
    SendLoopUndisturbed(s, request, 0);
  }

  // ---------------------------------------------------------------- the receive loop of do_get

  /** What is in the output file is the head of the stream; it is complete exactly when the loop
      reports success, and otherwise ends at a multiple of the client's chunk. */
  lemma {:induction false} GetLoopSound(s: Sock, size: nat, out: Bytes)
    requires |out| <= size && |out| % CLIENT_CHUNK == 0
    ensures var (s', ok, all) := GetLoop(s, size, out);
      && out <= all <= out + s.incoming
      && (ok ==> |all| == size)
      && (!ok ==> |all| < size && |all| % CLIENT_CHUNK == 0)
    decreases size - |out|
  {
    hide RecvAll, Later;
    if |out| < size {
      var piece := Piece(size, |out|);
      var (s1, code, data) := RecvAll(s, piece);
      RecvAllSound(s, piece);
      if code == 1 {
        if piece == CLIENT_CHUNK {
          GetLoopSound(s1, size, out + data);
          assert out + s.incoming == (out + data) + s1.incoming;
        } else {
          assert |out + data| == size;
          assert GetLoop(s1, size, out + data) == (s1, true, out + data);
          assert out + data <= out + s.incoming;
        }
      }
    }
  }

  // ---------------------------------------------------------------- status lines cut short

  lemma {:induction false} PrintHead(n: nat)
    requires n > 0
    ensures Print(n)[0] != '0'
  {
    if n >= 10 {
      PrintHead(n / 10);
      assert Print(n)[0] == Print(n / 10)[0];
    }
  }

  lemma {:induction false} ValuePositive(d: Bytes)
    requires AllDigits(d) && d != [] && d[0] != '0'
    ensures Value(d) > 0
  {
    if |d| > 1 {
      ValuePositive(d[..|d| - 1]);
    }
  }

  /** A size cut short after some digit is read as zero exactly if it is zero. */
  lemma CutNumber(n: U64, d: Bytes)
    requires d <= Print(n)
    ensures d == [] ==> ExtractU64(d) == Extracted(0, false)
    ensures d != [] ==> (ExtractU64(d).value == 0 <==> n == 0)
  {
    hide Print, Value, Numeral;
    if d == [] {
      NoNumeral();
    } else {
      NothingAround(d);
      assert AllDigits(d) by { assert forall i | 0 <= i < |d| :: d[i] == Print(n)[i]; }
      SkipToDigits([], d, []);
      DigitsOf(d, []);
      NumeralValue(d);
      if n > 0 {
        PrintHead(n);
        ValuePositive(d);
      } else {
        PrintZero();
        assert d == "0";
      }
    }
  }

  lemma NoNumeral()
    ensures SkipSpace([]) == [] && Numeral([]) == Extracted(0, false)
  {
  }

  lemma PrintZero()
    ensures Print(0) == "0" && Value("0") == 0
  {
    assert "0"[..0] == [];
  }

  lemma NumeralValue(d: Bytes)
    requires d != [] && AllDigits(d) && Digits(d) == d
    ensures Numeral(d) == if Value(d) < TWO_64 then Extracted(Value(d), true) else Extracted(TWO_64 - 1, false)
  {
    assert IsDigit(d[0]);
    assert Unsigned(d) == d;
  }

  /** The first line of a status line and what follows it, received only in part: the whole line, or
      an unterminated piece of it with nothing after it. */
  lemma HeadOfPart(line: Bytes, rest: Bytes, part: Bytes)
    requires '\n' !in line && line != [] && line[|line| - 1] != '\r' && |line| < MAX_LINE
    requires part <= line + "\n" + rest
    ensures |part| > |line| ==> TakeLine(part) == Some(Line(line, part[|line| + 1..])) && part[|line| + 1..] <= rest
    ensures |part| <= |line| ==> part <= line && TakeLine(part) == if part == [] then None else Some(Line(part, []))
  {
    var whole := line + "\n" + rest;
    if |part| > |line| {
      assert part == line + "\n" + part[|line| + 1..];
      assert whole[|line| + 1..] == rest;
      TakeLineOf(line, part[|line| + 1..]);
    } else {
      assert part == line[..|part|];
      TakeLastLine(part);
    }
  }

  lemma StatusText(n: U64)
    ensures var line := "OK " + Print(n);
      && '\n' !in line && line[|line| - 1] != '\r' && |line| < MAX_LINE
      && ParseStatus(line) == Detail(Print(n)) && ExtractU64(Print(n)) == Extracted(n, true)
  {
    hide Print, ExtractU64;
    var line := "OK " + Print(n);
    U64Length(n);
    DecimalAlone(n);
    assert IsDigit(line[|line| - 1]) && line[3..] == Print(n);
  }

  // ---------------------------------------------------------------- do_get

  /** What do_get's verdict says about the output file. */
  ghost predicate Faithful(result: Download, received: Bytes, body: Bytes) {
    && (result.verdict == Succeeded ==> result.file == Some(body))
    && (result.verdict != Succeeded && result.file.Some? ==>
          result.file.value < body && |result.file.value| % 65536 == 0)
    && (result.verdict == Threw ==> received == "OK" && result.file == None)
  }

  /** The connection may end anywhere in the reply, and any call may fail: if do_get returns true
      the output is the whole body; if it gives up with the output created, the output is a proper
      prefix of the body that ends at a multiple of 65536. */
  lemma FileIsFaithful(s: Sock, size: U64, body: Bytes, rest: Bytes, fileCreated: bool)
    requires Undisturbed(s) && |body| == size && s.incoming <= GetHeader(size) + (body + rest)
    ensures Faithful(ReceiveFile(s, fileCreated).1, s.incoming, body)
  {
    hide Print, ExtractU64, RecvLine, TakeLine, GetLoop, SendAll;
    var line := "OK " + Print(size);
    assert GetHeader(size) + (body + rest) == line + "\n" + (body + rest);
    StatusText(size);
    HeadOfPart(line, body + rest, s.incoming);
    var (s1, r) := RecvLine(s);
    if r.Some? {
      LineReceived(s);
      if |s.incoming| > |line| {
        GetLoopSound(s1, size, []);
        var (s2, ok, out) := GetLoop(s1, size, []);
        assert out <= [] + s1.incoming == s1.incoming;
        assert (body + rest)[..size] == body;
        assert out == (body + rest)[..|out|] == body[..|out|];
      } else {
        CutStatus(s, size, body, fileCreated);
      }
    }
  }

  lemma CutStatus(s: Sock, size: U64, body: Bytes, fileCreated: bool)
    requires Undisturbed(s) && |body| == size && s.incoming <= "OK " + Print(size)
    requires RecvLine(s).1 == Some(s.incoming) && RecvLine(s).0.incoming == []
    ensures Faithful(ReceiveFile(s, fileCreated).1, s.incoming, body)
  {
    hide Print, ExtractU64, RecvLine, GetLoop, SendAll;
    var header, s1 := s.incoming, RecvLine(s).0;
    match ParseStatus(header)
    case NotOk =>
    case Throws => assert header == "OK";
    case Detail(d) =>
      assert d == ("OK " + Print(size))[3..][..|d|];
      assert ("OK " + Print(size))[3..] == Print(size);
      CutNumber(size, d);
      if ExtractU64(d).ok && fileCreated {
        GetLoopSound(s1, ExtractU64(d).value, []);
        assert [] + s1.incoming == [];
        assert GetLoop(s1, ExtractU64(d).value, []).2 == [];
      }
  }
}
