/** Exactly when a transient send failure can corrupt the pipelined response stream.

The results of error replies are ignored, so after a timed-out, partly sent error line the session
goes on answering. This module exhibits such a run for every request stream in which an error
reply is followed by another reply, and concludes that these are the only ones. */
module SessionFragility {
  import opened Wrappers
  import opened Text
  import opened Protocol
  import opened Sockets
  import opened SocketTheorems
  import opened Sessions
  import opened SessionTheorems

  const ONE := Turn(Keep, Move(1))

  /** n turns that each transfer one byte. */
  function Ones(n: nat): (r: seq<Turn>)
    ensures |r| == n && Clean(r) && Moves(r) == n
  {
    if n == 0 then [] else [ONE] + Ones(n - 1)
  }

  /** A session on an undisturbed connection. */
  function Calm(incoming: Bytes, sent: Bytes, script: seq<Turn>): Session {
    Session(true, [], Sock(true, false, incoming, sent, script))
  }

  // ---------------------------------------------------------------- byte-by-byte runs

  lemma {:induction false} SendOnes(s: Sock, data: Bytes, total: nat, tail: seq<Turn>)
    requires total <= |data| && s.open && !s.broken && s.script == Ones(|data| - total) + tail
    ensures SendLoop(s, data, total) == (s.(sent := s.sent + data[total..], script := tail), true)
    decreases |data| - total
  {
    if total == |data| {
      SendDone(s, data);
      assert s.sent + data[total..] == s.sent && s.script == tail;
    } else {
      assert s.script == [ONE] + (Ones(|data| - total - 1) + tail);
      var s1 := s.(sent := s.sent + data[total..][..1], script := Ones(|data| - total - 1) + tail);
      assert Send(s, data[total..]) == (s1, Moved(1));
      SendRound(s, data, total, s1, Moved(1));
      SendOnes(s1, data, total + 1, tail);
      assert s1.sent + data[total + 1..] == s.sent + data[total..];
    }
  }

  lemma SendAllOnes(incoming: Bytes, sent: Bytes, data: Bytes, tail: seq<Turn>)
    ensures SendAll(Calm(incoming, sent, Ones(|data|) + tail).sock, data) == (Calm(incoming, sent + data, tail).sock, true)
  {
    SendOnes(Calm(incoming, sent, Ones(|data|) + tail).sock, data, 0, tail);
    assert data[0..] == data;
  }

  lemma RecvOne(s: Sock, tail: seq<Turn>)
    requires s.open && !s.broken && s.incoming != [] && s.script == [ONE] + tail
    ensures Recv(s, 1) == (s.(incoming := s.incoming[1..], script := tail), Moved(1), s.incoming[..1])
  {
  }

  lemma {:induction false} LineOnes(s: Sock, line: Bytes, text: Bytes, rest: Bytes, tail: seq<Turn>)
    requires s.open && !s.broken && '\n' !in text && |line| + |text| < MAX_LINE
    requires s.incoming == text + "\n" + rest && s.script == Ones(|text| + 1) + tail
    ensures LineLoop(s, line) == (s.(incoming := rest, script := tail), Some(StripCr(line + text)))
    decreases |text|
  {
    hide Recv, LineLoop, StripCr;
    assert s.script == [ONE] + (Ones(|text|) + tail);
    var s1 := s.(incoming := s.incoming[1..], script := Ones(|text|) + tail);
    RecvOne(s, Ones(|text|) + tail);
    LineRound(s, line, s1, Moved(1), s.incoming[..1]);
    if text == [] {
      assert s.incoming[..1] == "\n" && s.incoming[1..] == rest && line + text == line;
      assert Ones(0) + tail == tail;
    } else {
      assert s.incoming[..1] == text[..1] && s.incoming[1..] == text[1..] + "\n" + rest;
      LineOnes(s1, line + text[..1], text[1..], rest, tail);
      assert line + text[..1] + text[1..] == line + text;
    }
  }

  lemma OnesAppend(a: nat, b: nat)
    ensures Ones(a + b) == Ones(a) + Ones(b)
  {
    forall i | 0 <= i < a + b ensures Ones(a + b)[i] == (Ones(a) + Ones(b))[i] {
      OnesAt(a + b, i);
      if i < a { OnesAt(a, i); } else { OnesAt(b, i - a); }
    }
  }

  lemma OnesSplit(a: nat, b: nat, tail: seq<Turn>)
    ensures Ones(a + b) + tail == Ones(a) + (Ones(b) + tail)
    ensures Ones(0) + tail == tail
  {
    OnesAppend(a, b);
  }

  lemma {:induction false} OnesAt(n: nat, i: nat)
    requires i < n
    ensures Ones(n)[i] == ONE
  {
    if i > 0 { OnesAt(n - 1, i - 1); }
  }

  lemma {:induction false} StreamOnes(
    incoming: Bytes, sent: Bytes, file: MediaFile, chunk: nat, total: nat, good: bool, tail: seq<Turn>)
    requires chunk > 0 && total <= |Supplied(file)| && (!good ==> total == |file.contents|)
    ensures var body := Supplied(file)[total..];
      StreamLoop(Calm(incoming, sent, Ones(|body|) + tail), file, chunk, total, good)
        == Calm(incoming, sent + body, tail)
    decreases file.size - total
  {
    hide SendAll, StreamLoop, Ones;
    var body := Supplied(file)[total..];
    var want := Min(chunk, file.size - total);
    var got := NextRead(file, chunk, total);
    StreamRound(Calm(incoming, sent, Ones(|body|) + tail), file, chunk, total, good);
    if total < file.size && good && got > 0 {
      var piece := file.contents[total..total + got];
      var later := Supplied(file)[total + got..];
      assert body == piece + later;
      OnesSplit(|piece|, |later|, tail);
      SendAllOnes(incoming, sent, piece, Ones(|later|) + tail);
      StreamOnes(incoming, sent + piece, file, chunk, total + got, got == want, tail);
      assert sent + piece + later == sent + body;
    } else {
      OnesSplit(0, 0, tail);
      assert body == [] && sent + body == sent;
    }
  }

  lemma ServeOnes(incoming: Bytes, sent: Bytes, lib: Library, chunk: nat, request: Request, tail: seq<Turn>)
    requires chunk > 0 && request.kind != QUIT
    ensures var answer := Answer(lib, request);
      Serve(Calm(incoming, sent, Ones(|answer|) + tail), lib, chunk, request) == Calm(incoming, sent + answer, tail)
  {
    hide SendAll, StreamLoop, Ones;
    var answer := Answer(lib, request);
    if Streamed(lib, request).Some? {
      var file := Streamed(lib, request).value;
      var header, body := GetHeader(file.size), Supplied(file);
      assert answer == header + body && body[0..] == body;
      OnesSplit(|header|, |body|, tail);
      SendAllOnes(incoming, sent, header, Ones(|body|) + tail);
      StreamOnes(incoming, sent + header, file, chunk, 0, true, tail);
      assert sent + header + body == sent + answer;
    } else {
      SendAllOnes(incoming, sent, answer, tail);
    }
  }

  /** The bytes of the next line with its newline, when the stream goes on after it. */
  lemma NextLineParts(stream: Bytes) returns (text: Bytes, rest: Bytes)
    requires TakeLine(stream).Some? && TakeLine(stream).value.rest != []
    ensures '\n' !in text && |text| < MAX_LINE && stream == text + "\n" + rest
    ensures TakeLine(stream) == Some(Line(StripCr(text), rest))
  {
    var k := NewlineAt(stream);
    text, rest := stream[..k], stream[k + 1..];
  }

  lemma ReadOnes(text: Bytes, rest: Bytes, sent: Bytes, tail: seq<Turn>)
    requires '\n' !in text && |text| < MAX_LINE
    ensures RecvLine(Calm(text + "\n" + rest, sent, Ones(|text| + 1) + tail).sock)
      == (Calm(rest, sent, tail).sock, Some(StripCr(text)))
  {
    LineOnes(Calm(text + "\n" + rest, sent, Ones(|text| + 1) + tail).sock, [], text, rest, tail);
    assert [] + text == text;
  }

  // ---------------------------------------------------------------- the corrupting run

  /** The stream goes on after a request that is not the last. */
  lemma NotLast(stream: Bytes)
    requires |Requests(stream)| > 1
    ensures TakeLine(stream).Some? && TakeLine(stream).value.rest != []
    ensures var line := TakeLine(stream).value;
      && Parse(line.text).kind != QUIT && Requests(stream)[0] == Parse(line.text)
      && Requests(stream)[1..] == Requests(line.rest)
  {
    EmptyStreamAsksNothing();
  }

  /** On a healthy socket with a transfer left, something of the data is sent. */
  lemma {:induction false} SendsSome(s: Sock, data: Bytes)
    requires Healthy(s) && Moves(s.script) > 0 && data != []
    ensures |SendLoop(s, data, 0).0.sent| > |s.sent|
    decreases |s.script|
  {
    var (s1, outcome) := Send(s, data[0..]);
    assert data[0..] == data;
    SendRound(s, data, 0, s1, outcome);
    if outcome.Retry? {
      SendsSome(s1, data);
    } else {
      SendLoopSound(s1, data, outcome.n);
    }
  }

  /** The first send of a handler. */
  function FirstSend(lib: Library, request: Request): Bytes {
    if Streamed(lib, request).Some? then GetHeader(Streamed(lib, request).value.size) else Answer(lib, request)
  }

  /** So the session's next answer begins on the wire. */
  lemma AnswerBegins(x: Session, lib: Library, chunk: nat, request: Request)
    requires chunk > 0 && Healthy(x.sock) && Moves(x.sock.script) > 0
    ensures var sent' := Serve(x, lib, chunk, request).sock.sent;
      && x.sock.sent <= sent' <= x.sock.sent + Answer(lib, request)
      && |sent'| > |x.sock.sent|
  {
    ServeAnswers(x, lib, chunk, request);
    var first := FirstSend(lib, request);
    assert first != [];
    SendsSome(x.sock, first);
    if Streamed(lib, request).Some? {
      var file := Streamed(lib, request).value;
      var (s, ok) := SendAll(x.sock, first);
      if ok {
        StreamLoopSound(x.(sock := s), file, chunk, 0, true);
      }
    }
  }

  lemma {:induction false} SentGrows(x: Session, lib: Library, chunk: nat)
    requires chunk > 0
    ensures x.sock.sent <= RunLoop(x, lib, chunk).sock.sent
    decreases |x.sock.script|
  {
    var x1 := Load(x);
    var (s, r) := RecvLine(x1.sock);
    RecvLineSound(x1.sock);
    if x1.active && r.Some? {
      ServeAnswers(x1.(sock := s), lib, chunk, Parse(r.value));
      SentGrows(Serve(x1.(sock := s), lib, chunk, Parse(r.value)), lib, chunk);
    }
  }

  /** Every answer begins with "ER" or "OK". */
  lemma AnswerHead(lib: Library, request: Request)
    ensures |Answer(lib, request)| >= 2
    ensures Refused(lib, request) ==> Answer(lib, request)[..2] == "ER"
    ensures Answer(lib, request)[0] == 'E' || Answer(lib, request)[0] == 'O'
  {
  }

  const LOST := Turn(Keep, Stalled)

  /** An error line of which one byte is sent before the send times out. */
  lemma ReplyCutShort(incoming: Bytes, sent: Bytes, text: Bytes, tail: seq<Turn>)
    requires |text| >= 2
    ensures Reply(Calm(incoming, sent, [ONE, LOST] + tail), text) == Calm(incoming, sent + text[..1], tail)
  {
    var s := Calm(incoming, sent, [ONE, LOST] + tail).sock;
    var s1 := Calm(incoming, sent + text[..1], [LOST] + tail).sock;
    assert text[0..] == text && ([ONE, LOST] + tail)[1..] == [LOST] + tail && ([LOST] + tail)[1..] == tail;
    SendRound(s, text, 0, s1, Moved(1));
    SendRound(s1, text, 1, Calm(incoming, sent + text[..1], tail).sock, Error);
  }

  /** After the cut the next request is answered from its first byte. */
  lemma GoesOnAnswering(incoming: Bytes, sent: Bytes, lib: Library, chunk: nat)
    requires chunk > 0 && Requests(incoming) != []
    ensures var sent' := RunLoop(Calm(incoming, sent, Ones(|incoming| + 2)), lib, chunk).sock.sent;
      sent <= sent' && |sent'| > |sent| && (sent'[|sent|] == 'E' || sent'[|sent|] == 'O')
  {
    var x := Calm(incoming, sent, Ones(|incoming| + 2));
    RecvLineExact(x.sock);
    var (s, r) := RecvLine(x.sock);
    RecvLineSound(x.sock);
    var x1 := x.(sock := s);
    var request := Parse(r.value);
    AnswerBegins(x1, lib, chunk, request);
    AnswerHead(lib, request);
    SentGrows(Serve(x1, lib, chunk, request), lib, chunk);
  }

  /** Refused first request, another request after it: the cut corrupts the stream. */
  lemma CutFirst(stream: Bytes, sent: Bytes, lib: Library, chunk: nat) returns (script: seq<Turn>)
    requires chunk > 0 && |Requests(stream)| > 1 && Refused(lib, Requests(stream)[0])
    ensures !(RunLoop(Calm(stream, sent, script), lib, chunk).sock.sent <= sent + Answers(lib, Requests(stream)))
  {
    NotLast(stream);
    var text, rest := NextLineParts(stream);
    var request := Requests(stream)[0];
    var answer := Answer(lib, request);
    var tail := Ones(|rest| + 2);
    script := Ones(|text| + 1) + ([ONE, LOST] + tail);
    ReadOnes(text, rest, sent, [ONE, LOST] + tail);
    AnswerHead(lib, request);
    ReplyCutShort(rest, sent, answer, tail);
    assert Serve(Calm(rest, sent, [ONE, LOST] + tail), lib, chunk, request) == Calm(rest, sent + answer[..1], tail);
    GoesOnAnswering(rest, sent + answer[..1], lib, chunk);
    var all := sent + Answers(lib, Requests(stream));
    assert all[|sent| + 1] == answer[..2][1];
  }

  /** Any refused request that is not the last: answer those before it, then cut. */
  lemma {:induction false} CutAt(stream: Bytes, sent: Bytes, lib: Library, chunk: nat, i: nat) returns (script: seq<Turn>)
    requires chunk > 0 && i < |Requests(stream)| - 1 && Refused(lib, Requests(stream)[i])
    ensures !(RunLoop(Calm(stream, sent, script), lib, chunk).sock.sent <= sent + Answers(lib, Requests(stream)))
    decreases i
  {
    hide Serve, Answer, RecvLine, Parse, TakeLine, Requests;
    if i == 0 {
      script := CutFirst(stream, sent, lib, chunk);
    } else {
      NotLast(stream);
      var text, rest := NextLineParts(stream);
      var request := Requests(stream)[0];
      var answer := Answer(lib, request);
      assert Requests(rest)[i - 1] == Requests(stream)[i];
      var later := CutAt(rest, sent + answer, lib, chunk, i - 1);
      script := Ones(|text| + 1) + (Ones(|answer|) + later);
      ReadOnes(text, rest, sent, Ones(|answer|) + later);
      ServeOnes(rest, sent, lib, chunk, request, later);
      assert sent + answer + Answers(lib, Requests(rest)) == sent + Answers(lib, Requests(stream));
    }
  }

  /** The pipelined response stream is a prefix of the answers under every script and every stop. */
  ghost predicate AlwaysPrefix(stream: Bytes, lib: Library, chunk: nat)
    requires chunk > 0
  {
    forall stops: seq<bool>, script: seq<Turn> ::
      Run(Session(true, stops, Sock(true, false, stream, [], script)), lib, chunk).sock.sent
        <= Answers(lib, Requests(stream))
  }

  /** The framing survives every failure if and only if no error reply is followed by another. */
  lemma PrefixIffNotFragile(stream: Bytes, lib: Library, chunk: nat)
    requires chunk > 0
    ensures AlwaysPrefix(stream, lib, chunk) <==> !Fragile(lib, Requests(stream))
  {
    var answers := Answers(lib, Requests(stream));
    assert [] + answers == answers;
    if Fragile(lib, Requests(stream)) {
      var i :| 0 <= i < |Requests(stream)| - 1 && Refused(lib, Requests(stream)[i]);
      var script := CutAt(stream, [], lib, chunk, i);
      assert !(Run(Session(true, [], Sock(true, false, stream, [], script)), lib, chunk).sock.sent <= answers);
    } else {
      forall stops: seq<bool>, script: seq<Turn>
        ensures Run(Session(true, stops, Sock(true, false, stream, [], script)), lib, chunk).sock.sent <= answers
      {
        SentIsPrefix(Session(true, stops, Sock(true, false, stream, [], script)), lib, chunk);
      }
    }
  }
}
