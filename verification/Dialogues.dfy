/** The protocol at work: what the parser and the printers make of the lines the repository's own tests send
them, and a whole dialogue, byte for byte. */
module Dialogues {
  import opened Wrappers
  import opened Text
  import opened Protocol
  import opened Sockets
  import opened SocketTheorems
  import opened Sessions
  import opened SessionTheorems

  // ---------------------------------------------------------------- the examples of the tests

  lemma PrintedMegabyte()
    ensures Print(1048576) == "1048576"
  {
    hide Print;
    PrintDigits(0, 1);
    PrintDigits(1, 0);
    PrintDigits(10, 4);
    PrintDigits(104, 8);
    PrintDigits(1048, 5);
    PrintDigits(10485, 7);
    PrintDigits(104857, 6);
  }

  /** A line that begins with its command word. */
  lemma WordThenRest(cmd: Bytes, rest: Bytes)
    requires NoSpace(cmd) && cmd != [] && (rest != [] ==> rest[0] == ' ') && '\n' !in rest
    ensures Parse(cmd + rest) ==
      if Spells(cmd, "GET", "get") then Request(GET, Strip(rest))
      else if Spells(cmd, "LIST", "list") then Request(LIST, [])
      else if Spells(cmd, "QUIT", "quit") || Spells(cmd, "EXIT", "exit") || Spells(cmd, "CLOSE", "close") then Request(QUIT, [])
      else Request(UNKNOWN, Upper(cmd))
  {
    hide Parse, Strip, Spells, Upper;
    LettersDecide([], cmd, rest);
    assert [] + (cmd + rest) == cmd + rest;
  }

  /** A line that is its command word. */
  lemma WordAlone(cmd: Bytes)
    requires NoSpace(cmd) && cmd != []
    ensures Parse(cmd) ==
      if Spells(cmd, "GET", "get") then Request(GET, [])
      else if Spells(cmd, "LIST", "list") then Request(LIST, [])
      else if Spells(cmd, "QUIT", "quit") || Spells(cmd, "EXIT", "exit") || Spells(cmd, "CLOSE", "close") then Request(QUIT, [])
      else Request(UNKNOWN, Upper(cmd))
  {
    hide Parse, Spells, Upper;
    WordThenRest(cmd, []);
    assert cmd + [] == cmd && Strip([]) == [];
  }

  lemma QuitLines()
    ensures Parse("QUIT") == Parse("quit") == Request(QUIT, [])
  {
    hide Parse, Upper;
    WordAlone("QUIT");
    WordAlone("quit");
    assert "quit"[0] == 'q' && "QUIT"[0] == 'Q';
  }

  lemma ListAndGetLines()
    ensures Parse("LIST") == Request(LIST, []) && Parse("GET") == Request(GET, [])
  {
    hide Parse, Upper;
    WordAlone("LIST");
    WordAlone("GET");
  }

  lemma UnknownLine()
    ensures Parse("UNKNOWN_CMD arg").kind == UNKNOWN
  {
    hide Parse, Upper, Strip;
    WordThenRest("UNKNOWN_CMD", " arg");
    assert "UNKNOWN_CMD" + " arg" == "UNKNOWN_CMD arg";
  }

  lemma WithNewline(line: Bytes)
    ensures Parse(line + "\n") == Parse(line)
  {
    hide Parse;
    OuterSpaceIgnored([], line, "\n");
    assert [] + line + "\n" == line + "\n";
  }

  lemma SmallGetLine(name: Bytes)
    requires Requestable(name)
    ensures Parse("get " + name + "\r\n") == Request(GET, name)
  {
    hide Parse, Requestable;
    GetInAnyCase([], "get", " ", name, "\r\n");
    assert "get" + (" " + name) == "get " + name;
    assert [] + ("get " + name) + "\r\n" == "get " + name + "\r\n";
  }

  lemma SampleIsRequestable()
    ensures Requestable("sample_video.mp4")
  {
  }

  /** The expectations of test_protocol_parsing. */
  lemma TestedLines()
    ensures Parse("LIST\n") == Request(LIST, []) && Parse("QUIT\n") == Request(QUIT, [])
    ensures Parse("get " + "sample_video.mp4" + "\r\n") == Request(GET, "sample_video.mp4")
    ensures Parse("UNKNOWN_CMD arg\n").kind == UNKNOWN
    ensures ErrorResponse("FILE_NOT_FOUND") == "ERROR FILE_NOT_FOUND\n" && GetHeader(1048576) == "OK 1048576\n"
  {
    hide Parse, Print;
    PrintedMegabyte();
    ListAndGetLines();
    QuitLines();
    UnknownLine();
    SampleIsRequestable();
    SmallGetLine("sample_video.mp4");
    WithNewline("LIST");
    WithNewline("QUIT");
    WithNewline("UNKNOWN_CMD arg");
    assert "LIST" + "\n" == "LIST\n" && "QUIT" + "\n" == "QUIT\n" && "UNKNOWN_CMD arg" + "\n" == "UNKNOWN_CMD arg\n";
  }

  // ---------------------------------------------------------------- a whole dialogue

  /** The first request of a stream and the answer to it, before those to the others. */
  lemma FirstLineAnswered(lib: Library, stream: Bytes, line: Line)
    requires TakeLine(stream) == Some(line)
    ensures var request := Parse(line.text);
      Answers(lib, Requests(stream)) == Answer(lib, request) + if request.kind == QUIT then [] else Answers(lib, Requests(line.rest))
  {
    hide Parse, TakeLine, Answer;
    RequestsStep(lib, stream);
  }

  lemma LineAnswered(lib: Library, text: Bytes, rest: Bytes)
    requires '\n' !in text && |text| < MAX_LINE && (text == [] || text[|text| - 1] != '\r')
    ensures var request := Parse(text);
      Answers(lib, Requests(text + "\n" + rest))
        == Answer(lib, request) + if request.kind == QUIT then [] else Answers(lib, Requests(rest))
  {
    hide Parse, TakeLine, Answer;
    TakeCrLfLine(text, rest);
    FirstLineAnswered(lib, text + "\n" + rest, Line(text, rest));
  }

  lemma GetAnswered(lib: Library, name: Bytes, rest: Bytes)
    requires Requestable(name) && |name| <= 4091
    ensures Answers(lib, Requests("GET " + name + "\n" + rest)) == Answer(lib, Request(GET, name)) + Answers(lib, Requests(rest))
  {
    hide Parse, TakeLine, Answer;
    RequestRoundTrip(name, rest);
    FirstLineAnswered(lib, "GET " + name + "\n" + rest, Line("GET " + name, rest));
  }

  lemma SmallGetAnswered(lib: Library, name: Bytes, rest: Bytes)
    requires Requestable(name) && |name| <= 4090
    ensures Answers(lib, Requests("get " + name + "\r\n" + rest)) == Answer(lib, Request(GET, name)) + Answers(lib, Requests(rest))
  {
    hide Parse, TakeLine, Answer;
    var text := "get " + name;
    TakeCrLfLine(text, rest);
    FirstLineAnswered(lib, text + "\r\n" + rest, Line(text, rest));
    GetInAnyCase([], "get", " ", name, []);
    assert [] + ("get" + (" " + name)) + [] == text;
  }

  /** A store of one file that can be read and one that cannot be opened. */
  function Store(name: Bytes, bytes: Bytes, locked: Bytes): Library
    requires |bytes| < TWO_64
  {
    Library([MediaFileInfo(name, |bytes|)], map[locked := MediaFile(0, false, []), name := MediaFile(|bytes|, true, bytes)])
  }

  lemma FromStore(name: Bytes, bytes: Bytes, locked: Bytes, missing: Bytes)
    requires |bytes| < TWO_64 && name != [] && locked != [] && missing != []
    requires locked != name && missing != name && missing != locked
    ensures var lib := Store(name, bytes, locked);
      && Answer(lib, Request(GET, name)) == "OK " + Print(|bytes|) + "\n" + bytes
      && Answer(lib, Request(GET, missing)) == "ERROR FILE_NOT_FOUND\n"
      && Answer(lib, Request(GET, locked)) == "ERROR FILE_OPEN_FAILED\n"
      && Answer(lib, Request(LIST, [])) == "OK " + Print(1) + "\n" + (name + " " + Print(|bytes|) + "\n")
  {
    hide Print, Store, Answer;
    InStore(name, bytes, locked, missing);
    var lib := Store(name, bytes, locked);
    GetFound(lib, name, bytes);
    GetRefused(lib, missing, locked);
    ListOfOne(lib, name, |bytes|);
  }

  lemma InStore(name: Bytes, bytes: Bytes, locked: Bytes, missing: Bytes)
    requires |bytes| < TWO_64 && locked != name && missing != name && missing != locked
    ensures var lib := Store(name, bytes, locked);
      && lib.catalogue == [MediaFileInfo(name, |bytes|)] && missing !in lib.files
      && name in lib.files && lib.files[name] == MediaFile(|bytes|, true, bytes)
      && locked in lib.files && !lib.files[locked].opens
  {
  }

  lemma GetFound(lib: Library, name: Bytes, bytes: Bytes)
    requires |bytes| < TWO_64 && name != [] && name in lib.files && lib.files[name] == MediaFile(|bytes|, true, bytes)
    ensures Answer(lib, Request(GET, name)) == "OK " + Print(|bytes|) + "\n" + bytes
  {
    hide Print, ErrorResponse, ListResponse, OkResponse, Refusal;
    var file := lib.files[name];
    assert Streamed(lib, Request(GET, name)) == Some(file);
    assert Supplied(file) == file.contents[..|bytes|] == bytes;
  }

  lemma GetRefused(lib: Library, missing: Bytes, locked: Bytes)
    requires missing != [] && locked != [] && missing !in lib.files && locked in lib.files && !lib.files[locked].opens
    ensures Answer(lib, Request(GET, missing)) == "ERROR FILE_NOT_FOUND\n"
    ensures Answer(lib, Request(GET, locked)) == "ERROR FILE_OPEN_FAILED\n"
  {
    hide ListResponse, OkResponse, GetHeader, Supplied;
  }

  lemma ListOfOne(lib: Library, name: Bytes, size: U64)
    requires lib.catalogue == [MediaFileInfo(name, size)]
    ensures Answer(lib, Request(LIST, [])) == "OK " + Print(1) + "\n" + (name + " " + Print(size) + "\n")
  {
    hide Print;
    assert lib.catalogue[1..] == [];
    assert EntryLines(lib.catalogue) == name + " " + Print(size) + "\n" + [];
  }

  lemma EmptyNameAnswered(lib: Library)
    ensures Answer(lib, Request(GET, [])) == "ERROR EMPTY_FILENAME\n"
  {
    hide ListResponse, OkResponse, GetHeader, Supplied;
  }

  lemma UnknownAnswered(lib: Library, word: Bytes)
    ensures Answer(lib, Request(UNKNOWN, word)) == "ERROR INVALID_REQUEST\n"
  {
    hide ListResponse, OkResponse, GetHeader, Supplied;
  }

  lemma QuitAnswered(lib: Library)
    ensures Answer(lib, Request(QUIT, [])) == "OK BYE\n"
  {
    hide ListResponse, ErrorResponse, GetHeader, Supplied;
  }

  /** A client asks for a file, the list, a file that is not there, one that cannot be opened, nothing, something
      unknown, and leaves. This is what is to be answered, byte for byte, whatever the file holds; and a
      session with which nothing fails answers just this. */
  lemma Dialogue(x: Session, chunk: nat, name: Bytes, bytes: Bytes, locked: Bytes, missing: Bytes, more: Bytes)
    requires chunk > 0 && |bytes| < TWO_64 && locked != name && missing != name && missing != locked
    requires Requestable(name) && Requestable(locked) && Requestable(missing)
    requires |name| <= 4090 && |locked| <= 4091 && |missing| <= 4091
    requires x.sock.sent == [] && x.sock.incoming ==
      "get " + name + "\r\n" + ("LIST" + "\n" + ("GET " + missing + "\n" + ("GET " + locked + "\n"
        + ("GET" + "\n" + ("UNKNOWN_CMD arg" + "\n" + ("quit" + "\n" + more))))))
    requires var lib := Store(name, bytes, locked);
      Able(x, |x.sock.incoming| + 1 + |Answers(lib, Requests(x.sock.incoming))|)
    ensures RunLoop(x, Store(name, bytes, locked), chunk).sock.sent ==
      "OK " + Print(|bytes|) + "\n" + bytes + ("OK 1\n" + (name + " " + Print(|bytes|) + "\n") + ("ERROR FILE_NOT_FOUND\n"
        + ("ERROR FILE_OPEN_FAILED\n" + ("ERROR EMPTY_FILENAME\n" + ("ERROR INVALID_REQUEST\n" + ("OK BYE\n" + []))))))
  {
    hide Parse, TakeLine, Answer, Answers, Requests, Print, RunLoop, Store, Able;
    var lib := Store(name, bytes, locked);
    ListAndGetLines();
    QuitLines();
    UnknownLine();
    FromStore(name, bytes, locked, missing);
    EmptyNameAnswered(lib);
    UnknownAnswered(lib, Parse("UNKNOWN_CMD arg").argument);
    QuitAnswered(lib);
    PrintDigits(0, 1);
    assert "OK " + "1" + "\n" == "OK 1\n";
    var last := "quit" + "\n" + more;
    var unknown := "UNKNOWN_CMD arg" + "\n" + last;
    var empty := "GET" + "\n" + unknown;
    var denied := "GET " + locked + "\n" + empty;
    var absent := "GET " + missing + "\n" + denied;
    var list := "LIST" + "\n" + absent;
    LineAnswered(lib, "quit", more);
    LineAnswered(lib, "UNKNOWN_CMD arg", last);
    LineAnswered(lib, "GET", unknown);
    GetAnswered(lib, locked, empty);
    GetAnswered(lib, missing, denied);
    LineAnswered(lib, "LIST", absent);
    SmallGetAnswered(lib, name, list);
    SentIsEverything(x, lib, chunk);
    assert [] + Answers(lib, Requests(x.sock.incoming)) == Answers(lib, Requests(x.sock.incoming));
  }
}
