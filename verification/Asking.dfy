/** What the client itself sends, and the two commands end to end: a session that reads just what the client
has sent, and a client that reads any part of what that session has sent. */
module Asking {
  import opened Wrappers
  import opened Text
  import opened Protocol
  import opened Replies
  import opened Sockets
  import opened SocketTheorems
  import opened Sessions
  import opened SessionTheorems
  import opened Clients
  import opened ClientTheorems
  import opened Downloads
  import opened Listings

  // ---------------------------------------------------------------- what is sent

  lemma {:induction false} GetLoopSendsNothing(s: Sock, size: nat, out: Bytes)
    requires |out| <= size
    ensures GetLoop(s, size, out).0.sent == s.sent
    decreases size - |out|
  {
    hide RecvAll;
    if |out| < size {
      RecvAllSound(s, Piece(size, |out|));
      var (s1, code, data) := RecvAll(s, Piece(size, |out|));
      if code == 1 { GetLoopSendsNothing(s1, size, out + data); }
    }
  }

  lemma {:induction false} ListLoopSendsNothing(s: Sock, count: nat, shown: seq<MediaFileInfo>)
    ensures ListLoop(s, count, shown).0.sent == s.sent
    decreases count
  {
    hide RecvLine, ParseEntry;
    if count > 0 {
      RecvLineSound(s);
      if RecvLine(s).1.Some? { ListLoopSendsNothing(RecvLine(s).0, count - 1, shown + [ParseEntry(RecvLine(s).1.value)]); }
    }
  }

  /** Reading a file sends nothing until all of it has been received, and then no more than "QUIT\n". */
  lemma ReceiveFileSends(s: Sock, fileCreated: bool)
    ensures var (s', result) := ReceiveFile(s, fileCreated);
      && s.sent <= s'.sent <= s.sent + "QUIT\n"
      && (!fileCreated ==> result.file == None && result.verdict != Succeeded)
      && (result.verdict != Succeeded ==> s'.sent == s.sent)
  {
    hide RecvLine, ParseStatus, ExtractU64, GetLoop, SendAll;
    RecvLineSound(s);
    var (s1, r) := RecvLine(s);
    if r.Some? && ParseStatus(r.value).Detail? {
      var size := ExtractU64(ParseStatus(r.value).text).value;
      GetLoopSendsNothing(s1, size, []);
      SendAllSound(GetLoop(s1, size, []).0, "QUIT\n");
    }
  }

  lemma ReceiveListSends(s: Sock)
    ensures var (s', result) := ReceiveList(s);
      && s.sent <= s'.sent <= s.sent + "QUIT\n"
      && (result.verdict != Succeeded ==> s'.sent == s.sent)
  {
    hide RecvLine, ParseStatus, ExtractU64, ListLoop, SendAll;
    RecvLineSound(s);
    var (s1, r) := RecvLine(s);
    if r.Some? && ParseStatus(r.value).Detail? {
      var count := ExtractU64(ParseStatus(r.value).text).value;
      ListLoopSendsNothing(s1, count, []);
      SendAllSound(ListLoop(s1, count, []).0, "QUIT\n");
    }
  }

  /** What a client that asks with this line has sent: some of it; all of it before it reads anything or
      returns anything but plain failure; and after it, only once it has succeeded, some of "QUIT\n". */
  predicate Asks(before: Sock, line: Bytes, after: Sock, failed: bool, succeeded: bool) {
    && before.sent <= after.sent <= before.sent + (line + "QUIT\n")
    && (!failed || after.incoming != before.incoming ==> before.sent + line <= after.sent)
    && (!succeeded ==> after.sent <= before.sent + line)
  }

  lemma ThenQuit(a: Bytes, line: Bytes, b: Bytes)
    requires a + line <= b <= a + line + "QUIT\n"
    ensures a <= b <= a + (line + "QUIT\n")
  {
    assert a + line + "QUIT\n" == a + (line + "QUIT\n");
  }

  lemma OnlySome(a: Bytes, line: Bytes, b: Bytes)
    requires a <= b <= a + line
    ensures b <= a + (line + "QUIT\n")
  {
    assert a + (line + "QUIT\n") == a + line + "QUIT\n";
  }

  /** do_get sends "GET ", the name and a newline, and after a successful download "QUIT\n". */
  lemma DoGetAsks(s: Sock, name: Bytes, dirCreated: bool, fileCreated: bool)
    ensures var (s', result) := DoGet(s, name, dirCreated, fileCreated);
      Asks(s, "GET " + name + "\n", s', result == Download(GaveUp, None), result.verdict == Succeeded)
      && (!dirCreated ==> s' == s && result == Download(GaveUp, None))
      && (!fileCreated ==> result.file == None && result.verdict != Succeeded)
  {
    hide SendAll, ReceiveFile;
    var line := "GET " + name + "\n";
    SendAllSound(s, line);
    var (s1, ok) := SendAll(s, line);
    OnlySome(s.sent, line, s1.sent);
    if dirCreated && ok {
      ReceiveFileSends(s1, fileCreated);
      ThenQuit(s.sent, line, ReceiveFile(s1, fileCreated).0.sent);
    }
  }

  /** do_list sends "LIST\n", and after a successful listing "QUIT\n". */
  lemma DoListAsks(s: Sock)
    ensures var (s', result) := DoList(s);
      Asks(s, "LIST\n", s', result == Listing(GaveUp, []), result.verdict == Succeeded)
  {
    hide SendAll, ReceiveList;
    SendAllSound(s, "LIST\n");
    var (s1, ok) := SendAll(s, "LIST\n");
    OnlySome(s.sent, "LIST\n", s1.sent);
    if ok {
      ReceiveListSends(s1);
      ThenQuit(s.sent, "LIST\n", ReceiveList(s1).0.sent);
    }
  }

  // ---------------------------------------------------------------- when nothing fails

  lemma HealthyCall(s: Sock, room: nat)
    requires room > 0 && Healthy(s) && !Recv(s, room).1.Error?
    ensures var (s', outcome, got) := Recv(s, room);
      Healthy(s') && Moves(s'.script) == Moves(s.script) - if outcome.Moved? then 1 else 0
  {
  }

  /** Each transfer that recv_all uses up brings a byte. */
  lemma {:induction false} FillLoopSpends(s: Sock, length: nat, got: Bytes)
    requires |got| <= length && Healthy(s) && FillLoop(s, length, got).1 == 1
    ensures var s' := FillLoop(s, length, got).0;
      Healthy(s') && Moves(s'.script) - |s'.incoming| >= Moves(s.script) - |s.incoming|
    decreases |s.script|
  {
    hide Recv, FillLoop, Healthy, Moves;
    if |got| == length {
      FillDone(s, got);
    } else {
      var (s1, outcome, more) := Recv(s, length - |got|);
      RecvFacts(s, length - |got|);
      FillRound(s, length, got, s1, outcome, more);
      HealthyCall(s, length - |got|);
      FillLoopSpends(s1, length, if outcome.Retry? then got else got + more);
    }
  }

  lemma {:induction false} GetLoopSpends(s: Sock, size: nat, out: Bytes)
    requires |out| <= size && Healthy(s) && GetLoop(s, size, out).1
    ensures var s' := GetLoop(s, size, out).0;
      Healthy(s') && Moves(s'.script) - |s'.incoming| >= Moves(s.script) - |s.incoming|
    decreases size - |out|
  {
    hide FillLoop, Healthy, Moves;
    if |out| < size {
      var piece := Piece(size, |out|);
      HealthyIsOpen(s);
      FillLoopSpends(s, piece, []);
      var (s1, code, data) := RecvAll(s, piece);
      GetLoopSpends(s1, size, out + data);
    }
  }

  /** With the whole reply to come and no call failing, do_get sends its request and "QUIT\n" in full,
      succeeds with the whole body, and leaves what follows the reply unread. */
  lemma DoGetCompletes(s: Sock, name: Bytes, size: U64, body: Bytes, rest: Bytes)
    requires Healthy(s) && |body| == size && s.incoming == GetHeader(size) + (body + rest)
    requires Moves(s.script) > |"GET " + name + "\n"| + |s.incoming| + |"QUIT\n"|
    ensures var (s', result) := DoGet(s, name, true, true);
      && result == Download(Succeeded, Some(body))
      && s'.sent == s.sent + ("GET " + name + "\n" + "QUIT\n") && s'.incoming == rest
  {
    hide Print, ExtractU64, RecvLine, TakeLine, GetLoop, SendAll, Healthy, Moves, ReceiveFile;
    var request := "GET " + name + "\n";
    SendAllCompletes(s, request);
    SendAllSound(s, request);
    var s1 := SendAll(s, request).0;
    DownloadSucceeds(s1, size, body, rest);
    QuitIsSent(s1, size, body, rest);
    assert s.sent + request + "QUIT\n" == s.sent + (request + "QUIT\n");
  }

  lemma QuitIsSent(s: Sock, size: U64, body: Bytes, rest: Bytes)
    requires Healthy(s) && |body| == size && Moves(s.script) > |s.incoming| + |"QUIT\n"|
    requires s.incoming == GetHeader(size) + (body + rest)
    ensures ReceiveFile(s, true).0.sent == s.sent + "QUIT\n" && ReceiveFile(s, true).0.incoming == rest
  {
    hide Print, ExtractU64, RecvLine, TakeLine, GetLoop, SendAll, Healthy, Moves;
    var line := "OK " + Print(size);
    assert s.incoming == line + "\n" + (body + rest);
    StatusText(size);
    HeadOfPart(line, body + rest, s.incoming);
    RecvLineExact(s);
    RecvLineSound(s);
    var s1 := RecvLine(s).0;
    assert s1.incoming == body + rest;
    WholeBody(s1, size, body, rest);
    var s2 := GetLoop(s1, size, []).0;
    GetLoopSendsNothing(s1, size, []);
    SendAllCompletes(s2, "QUIT\n");
    SendAllSound(s2, "QUIT\n");
  }

  lemma WholeBody(s: Sock, size: U64, body: Bytes, rest: Bytes)
    requires Healthy(s) && |body| == size && Moves(s.script) >= |s.incoming| + |"QUIT\n"| && s.incoming == body + rest
    ensures var (s', ok, out) := GetLoop(s, size, []);
      ok && Healthy(s') && Moves(s'.script) >= |"QUIT\n"| && s'.incoming == rest
  {
    hide Healthy, Moves, GetLoop;
    GetLoopCompletes(s, size, []);
    GetLoopSpends(s, size, []);
    GetLoopConsumes(s, size, []);
    assert [] + s.incoming == s.incoming;
    assert (body + rest)[..size] == body;
  }

  lemma {:induction false} GetLoopConsumes(s: Sock, size: nat, out: Bytes)
    requires |out| <= size && GetLoop(s, size, out).1
    ensures out + s.incoming == GetLoop(s, size, out).2 + GetLoop(s, size, out).0.incoming
    decreases size - |out|
  {
    hide RecvAll;
    if |out| < size {
      RecvAllSound(s, Piece(size, |out|));
      var (s1, code, data) := RecvAll(s, Piece(size, |out|));
      GetLoopConsumes(s1, size, out + data);
      assert out + s.incoming == (out + data) + s1.incoming;
    }
  }

  /** Each transfer that the lines use up brings a byte, but for one that finds the end. */
  lemma {:induction false} ListLoopSpends(s: Sock, count: nat, shown: seq<MediaFileInfo>, n: nat)
    requires Healthy(s) && Moves(s.script) > |s.incoming| + n && ListLoop(s, count, shown).1
    ensures var s' := ListLoop(s, count, shown).0;
      Healthy(s') && Moves(s'.script) >= n
    decreases count
  {
    hide RecvLine, ParseEntry, TakeLine, Healthy, Moves;
    if count > 0 {
      RecvLineExact(s);
      var (s1, r) := RecvLine(s);
      var more := shown + [ParseEntry(r.value)];
      if s1.incoming != [] {
        ListLoopSpends(s1, count - 1, more, n);
      } else if count > 1 {
        HealthyIsUndisturbed(s1);
        EmptyStreamAsksNothing();
        if RecvLine(s1).1.Some? { LineReceived(s1); }
      }
    }
  }

  /** With the whole reply to come and no call failing, do_list sends its request and "QUIT\n" in full and
      shows the whole catalogue. */
  lemma DoListCompletes(s: Sock, files: seq<MediaFileInfo>, rest: Bytes)
    requires Healthy(s) && AllListable(files) && |files| < TWO_64 && s.incoming == ListResponse(files) + rest
    requires Moves(s.script) > |"LIST\n"| + |s.incoming| + |"QUIT\n"| + 1
    ensures var (s', result) := DoList(s);
      result == Listing(Succeeded, files) && s'.sent == s.sent + ("LIST\n" + "QUIT\n")
  {
    hide SendAll, Healthy, Moves, ReceiveList, ListResponse, AllListable, TakeCatalogue;
    SendAllCompletes(s, "LIST\n");
    SendAllSound(s, "LIST\n");
    var s1 := SendAll(s, "LIST\n").0;
    HealthyIsUndisturbed(s1);
    CatalogueRoundTrip(files, rest);
    ListVerdict(s1);
    QuitAfterList(s1);
    assert s.sent + "LIST\n" + "QUIT\n" == s.sent + ("LIST\n" + "QUIT\n");
  }

  lemma QuitAfterList(s: Sock)
    requires Healthy(s) && Moves(s.script) > |s.incoming| + |"QUIT\n"| + 1 && ReceiveList(s).1.verdict == Succeeded
    ensures ReceiveList(s).0.sent == s.sent + "QUIT\n"
  {
    hide RecvLine, ParseStatus, ExtractU64, ListLoop, SendAll, TakeLine, Healthy, Moves;
    RecvLineExact(s);
    RecvLineSound(s);
    var (s1, r) := RecvLine(s);
    var count := ExtractU64(ParseStatus(r.value).text).value;
    ListLoopSends(s1, count);
    var s2 := ListLoop(s1, count, []).0;
    SendAllCompletes(s2, "QUIT\n");
    SendAllSound(s2, "QUIT\n");
  }

  lemma ListLoopSends(s: Sock, count: nat)
    requires Healthy(s) && Moves(s.script) > |s.incoming| + |"QUIT\n"| && ListLoop(s, count, []).1
    ensures var s' := ListLoop(s, count, []).0;
      s'.sent == s.sent && Healthy(s') && Moves(s'.script) >= |"QUIT\n"|
  {
    hide Healthy, Moves, ListLoop;
    ListLoopSendsNothing(s, count, []);
    ListLoopSpends(s, count, [], |"QUIT\n"|);
  }

  // ---------------------------------------------------------------- end to end

  lemma OneLineAtMost(q: Bytes)
    requires q <= "QUIT\n"
    ensures |Requests(q)| <= 1
    ensures Requests(q) != [] ==> Requests(q)[0].kind in {QUIT, UNKNOWN}
  {
    hide Parse, TakeLine;
    EmptyStreamAsksNothing();
    if q != [] {
      ShortOfQuit(q);
      AsksToQuit(TakeLine(q).value.text);
      RequestsStep(Library([], map[]), q);
    }
  }

  lemma ShortOfQuit(q: Bytes)
    requires q != [] && q <= "QUIT\n"
    ensures TakeLine(q).Some? && TakeLine(q).value.rest == []
    ensures TakeLine(q).value.text != [] && TakeLine(q).value.text <= "QUIT"
  {
    var k := NewlineAt(q);
    assert |q| == 5 ==> q[4] == '\n';
    assert k < |q| ==> q[k] == '\n';
  }

  lemma AsksToQuit(text: Bytes)
    requires text != [] && text <= "QUIT"
    ensures Parse(text).kind in {QUIT, UNKNOWN}
  {
    hide Parse;
    CommandDecides([], text, []);
    assert [] + (text + []) == text;
    assert Upper(text)[0] == 'Q';
  }

  lemma TwoPieces(lib: Library, requests: seq<Request>, sent: Bytes)
    requires |requests| == 2 && InPieces(lib, requests, sent)
    ensures sent != [] ==> sent[0] == Answer(lib, requests[0])[0] || sent <= Answer(lib, requests[1])
  {
    hide Answer;
    var k: nat :| k <= |sent| && sent[..k] <= Answer(lib, requests[0]) && InPieces(lib, requests[1..], sent[k..]);
    var rest := sent[k..];
    var m: nat :| m <= |rest| && rest[..m] <= Answer(lib, requests[1..][0]) && InPieces(lib, requests[1..][1..], rest[m..]);
    assert requests[1..][1..] == [] && rest[m..] == [] && rest[..m] == rest;
    if k > 0 { assert sent[0] == sent[..k][0]; } else { assert rest == sent; }
  }

  lemma NoSizeIn(text: Bytes)
    requires text <= "BYE"
    ensures !ExtractU64(text).ok
  {
    hide Value, TWO_64;
    if text == [] {
      NoNumeral();
    } else {
      assert text[0] == 'B';
      assert SkipSpace(text) == text && Unsigned(text) == text && Digits(text) == [];
    }
  }

  /** Neither an error reply nor the answer to QUIT is taken for a file. */
  lemma NeitherIsAFile(s: Sock, fileCreated: bool)
    requires Undisturbed(s) && s.incoming != []
    requires s.incoming[0] == 'E' || s.incoming <= "OK BYE\n"
    ensures ReceiveFile(s, fileCreated).1.verdict != Succeeded
  {
    hide RecvLine, TakeLine, GetLoop, SendAll, ExtractU64;
    if RecvLine(s).1.Some? {
      LineReceived(s);
      if s.incoming[0] == 'E' {
        LineHead(s.incoming);
      } else {
        var text := RecvLine(s).1.value;
        assert text <= "OK BYE" by { ShortOfBye(s.incoming); }
        assert |text| >= 3 ==> text[3..] == "OK BYE"[3..][..|text| - 3] && "OK BYE"[3..] == "BYE";
        if |text| >= 3 { NoSizeIn(text[3..]); }
      }
    }
  }

  lemma ShortOfBye(stream: Bytes)
    requires stream != [] && stream <= "OK BYE\n"
    ensures TakeLine(stream).Some? && TakeLine(stream).value.text <= "OK BYE"
  {
    var k := NewlineAt(stream);
    assert |stream| == 7 ==> stream[6] == '\n';
    assert k < |stream| ==> stream[k] == '\n';
  }

  /** The two requests a do_get can make of its session, whatever became of the second. */
  lemma RequestsOfGet(lib: Library, name: Bytes, q: Bytes)
    requires Requestable(name) && |name| <= 4091 && q <= "QUIT\n"
    ensures var requests := Requests("GET " + name + "\n" + q);
      && 1 <= |requests| <= 2 && requests[0] == Request(GET, name)
      && (|requests| == 2 ==> q != [] && requests[1].kind in {QUIT, UNKNOWN})
  {
    hide Parse, TakeLine;
    RequestRoundTrip(name, q);
    RequestsStep(lib, "GET " + name + "\n" + q);
    OneLineAtMost(q);
    EmptyStreamAsksNothing();
  }

  /** A session whose second request is the end of a do_get cannot have refused its first. */
  lemma RefusedMeansOne(x: Session, lib: Library, chunk: nat, c: Sock, name: Bytes, fileCreated: bool, q: Bytes)
    requires chunk > 0 && Requestable(name) && |name| <= 4091 && q <= "QUIT\n"
    requires x.sock.sent == [] && x.sock.incoming == "GET " + name + "\n" + q
    requires Refused(lib, Request(GET, name)) && Undisturbed(c) && c.incoming <= Run(x, lib, chunk).sock.sent
    requires ReceiveFile(c, fileCreated).1.verdict == Succeeded
    ensures |Requests(x.sock.incoming)| == 1
  {
    hide RunLoop, Requests, InPieces, ReceiveFile, Undisturbed, Streamed;
    RequestsOfGet(lib, name, q);
    var requests := Requests(x.sock.incoming);
    var sent := Run(x, lib, chunk).sock.sent;
    if |requests| == 2 {
      SentInPieces(x.(active := true), lib, chunk);
      assert sent[0..] == sent;
      TwoPieces(lib, requests, sent);
      if c.incoming != [] {
        assert c.incoming[0] == sent[0];
        NeitherIsAFile(c, fileCreated);
      } else {
        NothingIsNoFile(c, fileCreated);
      }
    }
  }

  lemma NothingIsNoFile(s: Sock, fileCreated: bool)
    requires Undisturbed(s) && s.incoming == []
    ensures ReceiveFile(s, fileCreated).1.verdict != Succeeded
  {
    hide RecvLine, TakeLine, GetLoop, SendAll, ExtractU64;
    EmptyStreamAsksNothing();
    if RecvLine(s).1.Some? { LineReceived(s); }
  }

  /** End to end, both ends real: a client runs do_get; a session reads what do_get sends and answers it
      chunk by chunk, under any script and any stop; the connection delivers any part of what the session
      has sent; any call may fail. If do_get returns true its output file is the server's file; if it gives
      up after creating the file, the file is a proper prefix cut at a multiple of 65536; and a request
      the server refuses never creates a file. */
  lemma DownloadIsFaithful(x: Session, lib: Library, chunk: nat, c: Sock, name: Bytes, dirCreated: bool, fileCreated: bool)
    requires chunk > 0 && Requestable(name) && |name| <= 4091 && c.sent == [] && x.sock.sent == []
    requires x.sock.incoming == DoGet(c, name, dirCreated, fileCreated).0.sent
    requires Undisturbed(c) && c.incoming <= Run(x, lib, chunk).sock.sent
    ensures var result := DoGet(c, name, dirCreated, fileCreated).1;
      match Streamed(lib, Request(GET, name))
      case Some(file) => |file.contents| >= file.size ==> Faithful(result, c.incoming, file.contents[..file.size])
      case None => result == Download(GaveUp, None)
  {
    hide RunLoop, Requests, DoGet, Faithful, Undisturbed;
    var line := "GET " + name + "\n";
    var (c', result) := DoGet(c, name, dirCreated, fileCreated);
    DoGetAsks(c, name, dirCreated, fileCreated);
    NoFileIsFaithful(c.incoming);
    if result != Download(GaveUp, None) {
      assert [] + line == line && [] + (line + "QUIT\n") == line + "QUIT\n";
      var q := c'.sent[|line|..];
      assert c'.sent == line + q && q == (line + "QUIT\n")[|line|..][..|q|] && (line + "QUIT\n")[|line|..] == "QUIT\n";
      RequestsOfGet(lib, name, q);
      if Refused(lib, Request(GET, name)) && |Requests(c'.sent)| == 2 {
        SucceededReading(c, name, dirCreated, fileCreated);
        RefusedMeansOne(x, lib, chunk, SendAll(c, line).0, name, fileCreated, q);
      }
      assert !Fragile(lib, Requests(c'.sent));
      DeliveredIsFaithful(x, lib, chunk, c, name, q, dirCreated, fileCreated);
    }
  }

  lemma SucceededReading(c: Sock, name: Bytes, dirCreated: bool, fileCreated: bool)
    requires Undisturbed(c) && DoGet(c, name, dirCreated, fileCreated).1.verdict == Succeeded
    ensures var s := SendAll(c, "GET " + name + "\n").0;
      Undisturbed(s) && s.incoming == c.incoming && ReceiveFile(s, fileCreated).1.verdict == Succeeded
  {
    hide SendAll, ReceiveFile, Undisturbed;
    SentRequest(c, "GET " + name + "\n");
  }

  lemma RequestsOfList(lib: Library, q: Bytes)
    requires q <= "QUIT\n"
    ensures var requests := Requests("LIST\n" + q);
      1 <= |requests| <= 2 && requests[0] == Request(LIST, [])
  {
    hide Parse, TakeLine;
    assert "LIST\n" + q == "LIST" + "\n" + q;
    TakeLineOf("LIST", q);
    ParseList();
    RequestsStep(lib, "LIST\n" + q);
    OneLineAtMost(q);
  }

  /** The same for do_list: a listing it reports as successful is the server's catalogue, in order, exactly
      if enough of the reply has arrived. */
  lemma ListingIsFaithful(x: Session, lib: Library, chunk: nat, c: Sock)
    requires chunk > 0 && AllListable(lib.catalogue) && |lib.catalogue| < TWO_64
    requires c.sent == [] && x.sock.sent == [] && x.sock.incoming == DoList(c).0.sent
    requires Undisturbed(c) && c.incoming <= Run(x, lib, chunk).sock.sent
    ensures DoList(c).1.verdict == Succeeded ==> (DoList(c).1.shown == lib.catalogue <==> Arrived(lib.catalogue, |c.incoming|))
  {
    hide RunLoop, Requests, DoList, AllListable, Undisturbed, Arrived;
    var (c', result) := DoList(c);
    DoListAsks(c);
    if result.verdict == Succeeded {
      var line := "LIST\n";
      assert [] + line == line && [] + (line + "QUIT\n") == line + "QUIT\n";
      var q := c'.sent[|line|..];
      assert c'.sent == line + q && q == (line + "QUIT\n")[|line|..][..|q|] && (line + "QUIT\n")[|line|..] == "QUIT\n";
      RequestsOfList(lib, q);
      assert !Fragile(lib, Requests(c'.sent));
      DeliveredListIsFaithful(x, lib, chunk, c, q);
    }
  }
}
