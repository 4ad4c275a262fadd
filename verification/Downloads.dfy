/** The whole way of a file: from the server's store, through the session, the wire and the
client's loops, to the client's output file. */
module Downloads {
  import opened Wrappers
  import opened Text
  import opened Protocol
  import opened Replies
  import opened Sockets
  import opened SocketTheorems
  import opened Clients
  import opened Sessions
  import opened SessionTheorems
  import opened ClientTheorems

  // ---------------------------------------------------------------- refusals

  lemma LineHead(stream: Bytes)
    requires stream != [] && stream[0] == 'E'
    ensures TakeLine(stream).Some? ==> ParseStatus(TakeLine(stream).value.text) == NotOk
  {
    var k := NewlineAt(stream);
    assert k > 0;
    if TakeLine(stream).Some? {
      assert TakeLine(stream).value.text[0] == 'E';
    }
  }

  /** An error reply, however much of it arrives, never creates an output file. */
  lemma RefusalIsSeen(s: Sock, message: Bytes, rest: Bytes, fileCreated: bool)
    requires Undisturbed(s) && s.incoming <= ErrorResponse(message) + rest
    ensures ReceiveFile(s, fileCreated).1 == Download(GaveUp, None)
  {
    hide RecvLine, TakeLine, ParseStatus, ExtractU64, GetLoop, SendAll;
    if RecvLine(s).1.Some? {
      LineReceived(s);
      if s.incoming == [] {
        EmptyStreamAsksNothing();
      } else {
        LineHead(s.incoming);
      }
    }
  }

  // ---------------------------------------------------------------- the download

  lemma FirstAnswer(lib: Library, name: Bytes, more: Bytes)
    requires Requestable(name) && |name| <= 4091
    ensures var requests := Requests("GET " + name + "\n" + more);
      requests != [] && requests[0] == Request(GET, name)
      && Answers(lib, requests) == Answer(lib, Request(GET, name)) + Answers(lib, requests[1..])
  {
    hide Parse, Answer, TakeLine;
    RequestRoundTrip(name, more);
  }

  /** Whoever sent it: a client that asks for `name` and is delivered any prefix of the right answers
      gets the file it asked for, or knows that it has not. */
  lemma AnswersAreFaithful(lib: Library, c: Sock, name: Bytes, more: Bytes, dirCreated: bool, fileCreated: bool)
    requires Requestable(name) && |name| <= 4091
    requires Undisturbed(c) && c.incoming <= Answers(lib, Requests("GET " + name + "\n" + more))
    ensures var result := DoGet(c, name, dirCreated, fileCreated).1;
      match Streamed(lib, Request(GET, name))
      case Some(file) => |file.contents| >= file.size ==> Faithful(result, c.incoming, file.contents[..file.size])
      case None => result == Download(GaveUp, None)
  {
    hide Requests, Answers, RecvLine, SendAll, GetLoop, ReceiveFile, Faithful;
    var request := "GET " + name + "\n";
    FirstAnswer(lib, name, more);
    var later := Answers(lib, Requests(request + more)[1..]);
    var (s, ok) := SendAll(c, request);
    assert c.incoming <= Answer(lib, Request(GET, name)) + later;
    if ok && dirCreated {
      SentRequest(c, request);
      match Streamed(lib, Request(GET, name))
      case Some(file) =>
        if |file.contents| >= file.size {
          assert Supplied(file) == file.contents[..file.size];
          assert GetHeader(file.size) + Supplied(file) + later == GetHeader(file.size) + (Supplied(file) + later);
          FileIsFaithful(s, file.size, Supplied(file), later, fileCreated);
        }
      case None => RefusalIsSeen(s, Refusal(lib, Request(GET, name)), later, fileCreated);
    }
    NoFileIsFaithful(c.incoming);
  }

  /** End to end: a client asks for `name`; the server's session answers it, among whatever else it
      is asked, chunk by chunk, disturbed by stops and failures; the connection delivers any prefix
      of what the session sent. If do_get returns true its output file equals the server's file; if
      it gives up after creating the file, the file is a proper prefix cut at a multiple of 65536;
      and a request the server refuses never succeeds. */
  lemma DeliveredIsFaithful(x: Session, lib: Library, chunk: nat, c: Sock, name: Bytes, more: Bytes,
                           dirCreated: bool, fileCreated: bool)
    requires chunk > 0 && Requestable(name) && |name| <= 4091
    requires x.sock.sent == [] && x.sock.incoming == "GET " + name + "\n" + more
    requires Sticky(x.sock.script) || !Fragile(lib, Requests(x.sock.incoming))
    requires Undisturbed(c) && c.incoming <= Run(x, lib, chunk).sock.sent
    ensures var result := DoGet(c, name, dirCreated, fileCreated).1;
      match Streamed(lib, Request(GET, name))
      case Some(file) => |file.contents| >= file.size ==> Faithful(result, c.incoming, file.contents[..file.size])
      case None => result == Download(GaveUp, None)
  {
    hide RunLoop, Requests, Answers, DoGet, Faithful, Streamed;
    SentIsPrefix(x.(active := true), lib, chunk);
    assert [] + Answers(lib, Requests(x.sock.incoming)) == Answers(lib, Requests(x.sock.incoming));
    AnswersAreFaithful(lib, c, name, more, dirCreated, fileCreated);
  }

  lemma NoFileIsFaithful(received: Bytes)
    ensures forall body: Bytes :: Faithful(Download(GaveUp, None), received, body)
  {
  }

  // ---------------------------------------------------------------- when everything arrives

  lemma {:induction false} FillLoopCompletes(s: Sock, length: nat, got: Bytes)
    requires |got| <= length && Healthy(s) && Moves(s.script) > |s.incoming| >= length - |got|
    ensures var (s', code, all) := FillLoop(s, length, got);
      code == 1 && Healthy(s') && Moves(s'.script) > |s'.incoming| && got + s.incoming == all + s'.incoming
    decreases |s.script|
  {
    hide Recv, FillLoop, Healthy, Moves;
    if |got| == length {
      FillDone(s, got);
    } else {
      var (s1, outcome, more) := Recv(s, length - |got|);
      RecvFacts(s, length - |got|);
      HealthyRecv(s, length - |got|);
      FillRound(s, length, got, s1, outcome, more);
      if outcome.Retry? {
        FillLoopCompletes(s1, length, got);
      } else {
        FillLoopCompletes(s1, length, got + more);
        assert got + s.incoming == (got + more) + s1.incoming;
      }
    }
  }

  lemma {:induction false} GetLoopCompletes(s: Sock, size: nat, out: Bytes)
    requires |out| <= size && Healthy(s) && Moves(s.script) > |s.incoming| >= size - |out|
    ensures GetLoop(s, size, out).1 && GetLoop(s, size, out).2 == (out + s.incoming)[..size]
    decreases size - |out|
  {
    hide FillLoop, Healthy, Moves;
    if |out| < size {
      var piece := Piece(size, |out|);
      assert s.open by { HealthyIsOpen(s); }
      FillLoopCompletes(s, piece, []);
      var (s1, code, data) := RecvAll(s, piece);
      assert s.incoming == data + s1.incoming;
      GetLoopCompletes(s1, size, out + data);
      assert out + s.incoming == (out + data) + s1.incoming;
    } else {
      assert out == (out + s.incoming)[..size];
    }
  }

  lemma HealthyIsOpen(s: Sock)
    requires Healthy(s)
    ensures s.open
  {
  }

  /** If the whole reply arrives and no call fails, do_get succeeds with the whole body. */
  lemma DownloadSucceeds(s: Sock, size: U64, body: Bytes, rest: Bytes)
    requires Healthy(s) && |body| == size && Moves(s.script) > |s.incoming|
    requires s.incoming == GetHeader(size) + (body + rest)
    ensures ReceiveFile(s, true).1 == Download(Succeeded, Some(body))
  {
    hide Print, ExtractU64, RecvLine, TakeLine, GetLoop, SendAll, Healthy, Moves;
    var line := "OK " + Print(size);
    assert s.incoming == line + "\n" + (body + rest);
    StatusText(size);
    HeadOfPart(line, body + rest, s.incoming);
    RecvLineExact(s);
    var s1 := RecvLine(s).0;
    assert s1.incoming == body + rest;
    if size > 0 {
      GetLoopCompletes(s1, size, []);
      assert ([] + (body + rest))[..size] == body;
    } else {
      assert GetLoop(s1, 0, []) == (s1, true, []) by { EmptyGetLoop(s1); }
    }
  }

  lemma EmptyGetLoop(s: Sock)
    ensures GetLoop(s, 0, []) == (s, true, [])
  {
  }

  /** `header.substr(3)` throws exactly when the connection ends right after the reply's "OK". */
  lemma ThrowsIffOnlyOk(s: Sock, size: U64, rest: Bytes, fileCreated: bool)
    requires Healthy(s) && Moves(s.script) > |s.incoming| && s.incoming <= GetHeader(size) + rest
    ensures ReceiveFile(s, fileCreated).1.verdict == Threw <==> s.incoming == "OK"
  {
    hide Print, ExtractU64, RecvLine, TakeLine, GetLoop, SendAll, Healthy, Moves;
    var line := "OK " + Print(size);
    assert GetHeader(size) + rest == line + "\n" + rest;
    StatusText(size);
    HeadOfPart(line, rest, s.incoming);
    RecvLineExact(s);
    if 0 < |s.incoming| <= |line| {
      assert s.incoming == line[..|s.incoming|];
    }
  }
}
