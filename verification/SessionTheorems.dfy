/** What a session puts on the wire, for every request stream, every script and every stop. */
module SessionTheorems {
  import opened Wrappers
  import opened Text
  import opened Protocol
  import opened Sockets
  import opened SocketTheorems
  import opened Sessions

  // ---------------------------------------------------------------- one request

  /** What one handler may leave behind: a prefix of the one answer; less than all of it only if
      the session is over, or the send was one whose failure is ignored. */
  ghost predicate Answered(x: Session, answer: Bytes, x': Session, ignored: bool) {
    && Later(x.sock, x'.sock) && x'.sock.incoming == x.sock.incoming
    && (x'.active ==> x.active)
    && x.sock.sent <= x'.sock.sent <= x.sock.sent + answer
    && (Dead(x.sock) && answer != [] ==> x'.sock.sent == x.sock.sent)
    && (x'.sock.sent == x.sock.sent + answer || !x'.active || ignored)
    && (x'.sock.sent == x.sock.sent + answer || !x'.active || !Sticky(x.sock.script) || Dead(x'.sock))
  }

  lemma ReplyAnswers(x: Session, text: Bytes)
    requires text != []
    ensures Answered(x, text, Reply(x, text), true)
  {
    SendAllSound(x.sock, text);
  }

  /** What the chunk loop reads next, and what is left of the file then. */
  lemma NextPiece(file: MediaFile, chunk: nat, total: nat, good: bool)
    requires chunk > 0 && total <= |Supplied(file)| && (!good ==> total == |file.contents|)
    ensures |Supplied(file)| <= file.size && |Supplied(file)| <= |file.contents|
    ensures var got := NextRead(file, chunk, total);
      && total + got <= |Supplied(file)|
      && (if total < file.size && good && got > 0
          then Supplied(file)[total..] == file.contents[total..total + got] + Supplied(file)[total + got..]
          else Supplied(file)[total..] == [])
      && (got != Min(chunk, file.size - total) ==> total + got == |file.contents|)
  {
  }

  /** Every read of the chunk loop fills the chunk, but for one that reaches the end of what the file supplies;
      and while something is left it reads something. */
  lemma ReadsAreChunks(file: MediaFile, chunk: nat, total: nat)
    requires chunk > 0 && total <= |Supplied(file)|
    ensures var got := NextRead(file, chunk, total);
      && got <= chunk && total + got <= |Supplied(file)|
      && (got == chunk || total + got == |Supplied(file)|)
  {
  }

  /** The chunk loop sends what the file supplies from `total` on, whatever the chunk size. */
  lemma {:induction false} StreamLoopSound(x: Session, file: MediaFile, chunk: nat, total: nat, good: bool)
    requires chunk > 0 && total <= |Supplied(file)| && (!good ==> total == |file.contents|)
    ensures Answered(x, Supplied(file)[total..], StreamLoop(x, file, chunk, total, good), false)
    decreases file.size - total
  {
    hide SendAll, StreamLoop, Sticky, Dead, Supplied, NextRead, Min;
    NextPiece(file, chunk, total, good);
    var x1 := Load(x);
    var want := Min(chunk, file.size - total);
    var got := NextRead(file, chunk, total);
    StreamRound(x, file, chunk, total, good);
    var body := Supplied(file)[total..];
    if x1.active && total < file.size && good && got > 0 {
      var piece := file.contents[total..total + got];
      var (s, ok) := SendAll(x1.sock, piece);
      SendAllSound(x1.sock, piece);
      if ok {
        StreamLoopSound(x1.(sock := s), file, chunk, total + got, got == want);
        assert s.sent + Supplied(file)[total + got..] == x.sock.sent + body;
      } else {
        assert x.sock.sent + piece <= x.sock.sent + body;
      }
    }
  }

  lemma GetAnswers(x: Session, lib: Library, chunk: nat, file: MediaFile, request: Request)
    requires chunk > 0 && Streamed(lib, request) == Some(file)
    ensures Answered(x, Answer(lib, request), HandleGet(x, lib, chunk, request.argument), false)
  {
    var header, body := GetHeader(file.size), Supplied(file);
    var (s, ok) := SendAll(x.sock, header);
    SendAllSound(x.sock, header);
    assert Answer(lib, request) == header + body && body[0..] == body;
    if ok {
      StreamLoopSound(x.(sock := s), file, chunk, 0, true);
      assert s.sent + body == x.sock.sent + (header + body);
    } else {
      assert x.sock.sent + header <= x.sock.sent + (header + body);
    }
  }

  lemma ServeAnswers(x: Session, lib: Library, chunk: nat, request: Request)
    requires chunk > 0
    ensures Answered(x, Answer(lib, request), Serve(x, lib, chunk, request), Refused(lib, request))
    ensures request.kind == QUIT ==> !Serve(x, lib, chunk, request).active
    ensures Answer(lib, request) != []
  {
    if Refused(lib, request) {
      ReplyAnswers(x, Answer(lib, request));
    } else if request.kind == GET {
      GetAnswers(x, lib, chunk, Streamed(lib, request).value, request);
    } else {
      SendAllSound(x.sock, Answer(lib, request));
    }
  }

  // ---------------------------------------------------------------- the whole session

  /** Some error reply is followed by another reply. */
  ghost predicate Fragile(lib: Library, requests: seq<Request>) {
    exists i | 0 <= i < |requests| - 1 :: Refused(lib, requests[i])
  }

  lemma {:induction false} DeadSendsNothing(x: Session, lib: Library, chunk: nat)
    requires chunk > 0 && Dead(x.sock)
    ensures RunLoop(x, lib, chunk).sock.sent == x.sock.sent
    decreases |x.sock.script|
  {
    var x1 := Load(x);
    var (s, r) := RecvLine(x1.sock);
    RecvLineSound(x1.sock);
    if x1.active && r.Some? {
      var request := Parse(r.value);
      ServeAnswers(x1.(sock := s), lib, chunk, request);
      DeadSendsNothing(Serve(x1.(sock := s), lib, chunk, request), lib, chunk);
    }
  }

  lemma NothingToRead(x: Session, lib: Library, chunk: nat)
    requires chunk > 0 && TakeLine(x.sock.incoming) == None
    ensures RunLoop(x, lib, chunk).sock.sent == x.sock.sent
  {
    var x1 := Load(x);
    var (s, r) := RecvLine(x1.sock);
    RecvLineSound(x1.sock);
    if x1.active && r.Some? {
      var request := Parse(r.value);
      ServeAnswers(x1.(sock := s), lib, chunk, request);
      DeadSendsNothing(Serve(x1.(sock := s), lib, chunk, request), lib, chunk);
    }
  }

  /** If the handler of the first request answered in full, the rest of the run goes on from there;
      otherwise it sends nothing more. */
  lemma AfterServe(x: Session, x': Session, lib: Library, chunk: nat, requests: seq<Request>)
    requires chunk > 0 && requests != []
    requires Answered(x, Answer(lib, requests[0]), x', Refused(lib, requests[0]))
    requires Sticky(x.sock.script) || !Fragile(lib, requests)
    requires requests[1..] == [] && requests[0].kind != QUIT ==> TakeLine(x.sock.incoming) == None
    requires requests[0].kind == QUIT ==> !x'.active
    ensures x'.sock.sent == x.sock.sent + Answer(lib, requests[0]) || RunLoop(x', lib, chunk).sock.sent == x'.sock.sent
  {
    if x'.sock.sent != x.sock.sent + Answer(lib, requests[0]) && x'.active {
      if Dead(x'.sock) {
        DeadSendsNothing(x', lib, chunk);
      } else {
        assert Refused(lib, requests[0]);
        assert |requests| == 1;
        NothingToRead(x', lib, chunk);
      }
    }
  }

  /** Pipelined framing: what a session sends is a prefix of the answers to its requests, in order -
      under every script whose send failures are sticky, and under every script at all unless an
      error reply is followed by another reply. */
  lemma {:induction false} SentIsPrefix(x: Session, lib: Library, chunk: nat)
    requires chunk > 0
    requires Sticky(x.sock.script) || !Fragile(lib, Requests(x.sock.incoming))
    ensures x.sock.sent <= RunLoop(x, lib, chunk).sock.sent <= x.sock.sent + Answers(lib, Requests(x.sock.incoming))
    decreases |x.sock.script|
  {
    hide Serve, Answer, Answers, Requests, RecvLine, Parse, Refused, TakeLine, Sticky, Fragile, Dead, Answered;
    var x1 := Load(x);
    var (s, r) := RecvLine(x1.sock);
    RecvLineSound(x1.sock);
    if x1.active && r.Some? {
      var x2 := x1.(sock := s);
      var request := Parse(r.value);
      var x3 := Serve(x2, lib, chunk, request);
      ServeAnswers(x2, lib, chunk, request);
      AnsweredParts(x2, Answer(lib, request), x3, Refused(lib, request));
      if s.broken {
        BrokenIsDead(s);
        DeadSendsNothing(x3, lib, chunk);
      } else {
        var requests := Requests(x.sock.incoming);
        RequestsStep(lib, x.sock.incoming);
        AfterServe(x2, x3, lib, chunk, requests);
        if x3.sock.sent == x.sock.sent + Answer(lib, request) && request.kind != QUIT {
          FragileRest(lib, requests);
          SentIsPrefix(x3, lib, chunk);
          PrefixOfMore(x.sock.sent, Answer(lib, request), RunLoop(x3, lib, chunk).sock.sent, Answers(lib, requests[1..]));
        } else {
          QuitIsLast(x3, lib, chunk);
          PrefixOfFirst(x.sock.sent, x3.sock.sent, Answer(lib, request), Answers(lib, requests[1..]));
        }
      }
    }
  }

  lemma AnsweredParts(x: Session, answer: Bytes, x': Session, ignored: bool)
    requires Answered(x, answer, x', ignored)
    ensures Later(x.sock, x'.sock) && x'.sock.incoming == x.sock.incoming
    ensures x.sock.sent <= x'.sock.sent <= x.sock.sent + answer
    ensures Dead(x.sock) && answer != [] ==> x'.sock.sent == x.sock.sent && Dead(x'.sock)
  {
  }

  /** The first request of a stream that has one, and those after it. */
  lemma RequestsStep(lib: Library, stream: Bytes)
    requires TakeLine(stream).Some?
    ensures var line, requests := TakeLine(stream).value, Requests(stream);
      && requests != [] && requests[0] == Parse(line.text)
      && requests[1..] == (if Parse(line.text).kind == QUIT then [] else Requests(line.rest))
      && Answers(lib, requests) == Answer(lib, requests[0]) + Answers(lib, requests[1..])
      && (Requests(line.rest) == [] ==> TakeLine(line.rest) == None)
  {
    hide Answer, Parse, TakeLine;
  }

  lemma QuitIsLast(x: Session, lib: Library, chunk: nat)
    requires chunk > 0
    ensures !x.active ==> RunLoop(x, lib, chunk).sock.sent == x.sock.sent
  {
  }

  lemma PrefixOfMore(before: Bytes, first: Bytes, end: Bytes, more: Bytes)
    requires before + first <= end <= before + first + more
    ensures before <= end <= before + (first + more)
  {
    assert before + first + more == before + (first + more);
  }

  lemma PrefixOfFirst(before: Bytes, end: Bytes, first: Bytes, more: Bytes)
    requires before <= end <= before + first
    ensures end <= before + (first + more)
  {
    assert before + (first + more) == before + first + more;
  }

  lemma BrokenIsDead(s: Sock)
    requires s.broken
    ensures Dead(s)
  {
  }

  lemma FragileRest(lib: Library, requests: seq<Request>)
    requires requests != []
    ensures Fragile(lib, requests[1..]) ==> Fragile(lib, requests)
  {
    if Fragile(lib, requests[1..]) {
      var i :| 0 <= i < |requests[1..]| - 1 && Refused(lib, requests[1..][i]);
      assert Refused(lib, requests[i + 1]);
    }
  }

  // ---------------------------------------------------------------- with no assumption at all

  /** One piece for each request, in order, each a beginning of the answer to it. */
  ghost predicate InPieces(lib: Library, requests: seq<Request>, sent: Bytes) {
    if requests == [] then sent == []
    else exists k: nat :: k <= |sent| && sent[..k] <= Answer(lib, requests[0]) && InPieces(lib, requests[1..], sent[k..])
  }

  lemma {:induction false} NothingIsInPieces(lib: Library, requests: seq<Request>)
    ensures InPieces(lib, requests, [])
  {
    if requests != [] {
      NothingIsInPieces(lib, requests[1..]);
      var none: Bytes := [];
      assert none[..0] <= Answer(lib, requests[0]) && none[0..] == none;
    }
  }

  lemma PieceFirst(lib: Library, requests: seq<Request>, piece: Bytes, more: Bytes)
    requires requests != [] && piece <= Answer(lib, requests[0]) && InPieces(lib, requests[1..], more)
    ensures InPieces(lib, requests, piece + more)
  {
    hide Answer;
    assert (piece + more)[..|piece|] == piece && (piece + more)[|piece|..] == more;
  }

  /** Under every script and every stop, transient failures included: a session sends, for its requests
      in order, a beginning of each one's answer, and nothing else. */
  lemma {:induction false} SentInPieces(x: Session, lib: Library, chunk: nat)
    requires chunk > 0
    ensures var end := RunLoop(x, lib, chunk).sock.sent;
      x.sock.sent <= end && InPieces(lib, Requests(x.sock.incoming), end[|x.sock.sent|..])
    decreases |x.sock.script|
  {
    hide Serve, Answer, Requests, RecvLine, Parse, Refused, TakeLine, Sticky, Dead, Answered, InPieces;
    var requests := Requests(x.sock.incoming);
    var x1 := Load(x);
    var (s, r) := RecvLine(x1.sock);
    RecvLineSound(x1.sock);
    NothingIsInPieces(lib, requests);
    assert x.sock.sent[|x.sock.sent|..] == [];
    if x1.active && r.Some? {
      var x2 := x1.(sock := s);
      var request := Parse(r.value);
      var x3 := Serve(x2, lib, chunk, request);
      ServeAnswers(x2, lib, chunk, request);
      AnsweredParts(x2, Answer(lib, request), x3, Refused(lib, request));
      if s.broken {
        BrokenIsDead(s);
        DeadSendsNothing(x3, lib, chunk);
      } else {
        RequestsStep(lib, x.sock.incoming);
        var piece := x3.sock.sent[|x.sock.sent|..];
        assert piece == (x.sock.sent + Answer(lib, request))[|x.sock.sent|..][..|piece|];
        assert (x.sock.sent + Answer(lib, request))[|x.sock.sent|..] == Answer(lib, request);
        var end := RunLoop(x3, lib, chunk).sock.sent;
        if request.kind == QUIT {
          QuitIsLast(x3, lib, chunk);
          NothingIsInPieces(lib, requests[1..]);
        } else {
          SentInPieces(x3, lib, chunk);
        }
        assert end[|x3.sock.sent|..] == [] || request.kind != QUIT;
        PieceFirst(lib, requests, piece, end[|x3.sock.sent|..]);
        assert end[|x.sock.sent|..] == piece + end[|x3.sock.sent|..];
      }
    }
  }

  // ---------------------------------------------------------------- when nothing fails

  predicate NoStops(x: Session) { x.active && forall i | 0 <= i < |x.stops| :: !x.stops[i] }

  /** All is well, and a transfer is left for each of n more bytes. */
  ghost predicate Able(x: Session, n: nat) { NoStops(x) && Healthy(x.sock) && Moves(x.sock.script) >= n }

  ghost predicate Completed(x: Session, answer: Bytes, x': Session, n: nat) {
    && x'.sock.sent == x.sock.sent + answer && x'.sock.incoming == x.sock.incoming
    && Able(x', n)
  }

  lemma LoadKeepsAble(x: Session, n: nat)
    requires Able(x, n)
    ensures Able(Load(x), n) && Load(x).sock == x.sock
  {
  }

  lemma SendCompletes(x: Session, text: Bytes, n: nat)
    requires Able(x, |text| + n)
    ensures SendAll(x.sock, text).1
    ensures Completed(x, text, x.(sock := SendAll(x.sock, text).0), n)
  {
    SendAllSound(x.sock, text);
    SendAllCompletes(x.sock, text);
  }

  lemma {:induction false} StreamLoopCompletes(x: Session, file: MediaFile, chunk: nat, total: nat, good: bool, n: nat)
    requires chunk > 0 && total <= |Supplied(file)| && (!good ==> total == |file.contents|)
    requires Able(x, |Supplied(file)| - total + n)
    ensures Completed(x, Supplied(file)[total..], StreamLoop(x, file, chunk, total, good), n)
    decreases file.size - total
  {
    hide SendAll, StreamLoop, Supplied, NextRead, Min, Healthy, Moves;
    NextPiece(file, chunk, total, good);
    LoadKeepsAble(x, |Supplied(file)| - total + n);
    var x1 := Load(x);
    var want := Min(chunk, file.size - total);
    var got := NextRead(file, chunk, total);
    StreamRound(x, file, chunk, total, good);
    if total < file.size && good && got > 0 {
      var piece := file.contents[total..total + got];
      SendCompletes(x1, piece, |Supplied(file)| - total - got + n);
      var x2 := x1.(sock := SendAll(x1.sock, piece).0);
      StreamLoopCompletes(x2, file, chunk, total + got, got == want, n);
      assert x2.sock.sent + Supplied(file)[total + got..] == x.sock.sent + Supplied(file)[total..];
    }
  }

  lemma ServeCompletes(x: Session, lib: Library, chunk: nat, request: Request, n: nat)
    requires chunk > 0 && Able(x, |Answer(lib, request)| + n)
    ensures var x' := Serve(x, lib, chunk, request);
      if request.kind == QUIT then x'.sock.sent == x.sock.sent + Answer(lib, request) && !x'.active
      else Completed(x, Answer(lib, request), x', n)
  {
    hide SendAll, StreamLoop, Healthy, Moves;
    if Streamed(lib, request).Some? {
      GetCompletes(x, lib, chunk, request, Streamed(lib, request).value, n);
    } else {
      SendCompletes(x, Answer(lib, request), n);
    }
  }

  lemma GetCompletes(x: Session, lib: Library, chunk: nat, request: Request, file: MediaFile, n: nat)
    requires chunk > 0 && Streamed(lib, request) == Some(file) && Able(x, |Answer(lib, request)| + n)
    ensures Completed(x, Answer(lib, request), Serve(x, lib, chunk, request), n)
  {
    hide SendAll, StreamLoop, Able, Supplied, Print;
    var header := GetHeader(file.size);
    assert Answer(lib, request) == header + Supplied(file);
    SendCompletes(x, header, |Supplied(file)| + n);
    var x1 := x.(sock := SendAll(x.sock, header).0);
    StreamLoopCompletes(x1, file, chunk, 0, true, n);
    assert Supplied(file)[0..] == Supplied(file);
    assert x1.sock.sent + Supplied(file) == x.sock.sent + Answer(lib, request);
  }

  lemma EmptyStreamAsksNothing()
    ensures TakeLine([]) == None && Requests([]) == []
  {
  }

  /** Without stops and failures, and with a transfer for every byte to be moved and one to see the
      end of the stream, the session answers every request in full. */
  lemma {:induction false} SentIsEverything(x: Session, lib: Library, chunk: nat)
    requires chunk > 0
    requires x.sock.incoming == [] || Able(x, |x.sock.incoming| + 1 + |Answers(lib, Requests(x.sock.incoming))|)
    ensures RunLoop(x, lib, chunk).sock.sent == x.sock.sent + Answers(lib, Requests(x.sock.incoming))
    decreases |x.sock.script|
  {
    hide Serve, Answer, RecvLine, Parse, TakeLine, Healthy, Moves;
    var requests := Requests(x.sock.incoming);
    EmptyStreamAsksNothing();
    if requests == [] {
      NothingToRead(x, lib, chunk);
    } else {
      LoadKeepsAble(x, |x.sock.incoming| + 1 + |Answers(lib, requests)|);
      var x1 := Load(x);
      RecvLineExact(x1.sock);
      var (s, r) := RecvLine(x1.sock);
      RecvLineSound(x1.sock);
      var x2 := x1.(sock := s);
      var later := if requests[0].kind == QUIT then [] else Requests(s.incoming);
      assert requests == [requests[0]] + later && requests[1..] == later;
      var n := if s.incoming == [] then 0 else |s.incoming| + 1 + |Answers(lib, later)|;
      ServeCompletes(x2, lib, chunk, requests[0], if requests[0].kind == QUIT then 0 else n);
      var x3 := Serve(x2, lib, chunk, requests[0]);
      if requests[0].kind != QUIT {
        SentIsEverything(x3, lib, chunk);
      }
      assert x3.sock.sent + Answers(lib, later) == x.sock.sent + Answers(lib, requests);
    }
  }
}
