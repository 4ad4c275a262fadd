/** The pipelined response stream is self-delimiting: a client that knows what it asked can cut it
into its replies with recv_line, decimal parsing and exact-length receives alone. */
module Framing {
  import opened Wrappers
  import opened Text
  import opened Protocol
  import opened Replies
  import opened SocketTheorems
  import opened Sessions
  import opened SessionTheorems
  import opened ClientTheorems

  /** One reply as the client sees it. */
  datatype Frame = ErrorLine(line: Bytes) | Catalogue(files: seq<MediaFileInfo>) | Body(bytes: Bytes) | Farewell(line: Bytes)

  /** Taking the body announced by a status line. */
  function TakeBody(line: Line): Option<Decoded<Frame>> {
    match ParseStatus(line.text)
    case NotOk => Some(Decoded(ErrorLine(line.text), line.rest))
    case Throws => None
    case Detail(text) =>
      var size := ExtractU64(text);
      if !size.ok || size.value > |line.rest| then None
      else Some(Decoded(Body(line.rest[..size.value]), line.rest[size.value..]))
  }

  /** The client knows which request the reply answers, not whether it was refused. */
  function TakeFrame(request: Request, stream: Bytes): Option<Decoded<Frame>> {
    match request.kind
    case LIST =>
      (match TakeCatalogue(stream)
       case None => None
       case Some(files) => Some(Decoded(Catalogue(files.value), files.rest)))
    case GET => (match TakeLine(stream) case None => None case Some(line) => TakeBody(line))
    case UNKNOWN => (match TakeLine(stream) case None => None case Some(line) => Some(Decoded(ErrorLine(line.text), line.rest)))
    case QUIT => (match TakeLine(stream) case None => None case Some(line) => Some(Decoded(Farewell(line.text), line.rest)))
  }

  function TakeFrames(requests: seq<Request>, stream: Bytes): Option<Decoded<seq<Frame>>> {
    if requests == [] then Some(Decoded([], stream))
    else
      match TakeFrame(requests[0], stream)
      case None => None
      case Some(first) =>
        match TakeFrames(requests[1..], first.rest)
        case None => None
        case Some(more) => Some(Decoded([first.value] + more.value, more.rest))
  }

  /** What the server meant to reply. */
  function Meant(lib: Library, request: Request): Frame {
    if Refused(lib, request) then ErrorLine("ERROR " + Refusal(lib, request))
    else if request.kind == LIST then Catalogue(lib.catalogue)
    else if request.kind == QUIT then Farewell("OK BYE")
    else Body(Supplied(Streamed(lib, request).value))
  }

  function AllMeant(lib: Library, requests: seq<Request>): seq<Frame> {
    if requests == [] then [] else [Meant(lib, requests[0])] + AllMeant(lib, requests[1..])
  }

  /** The reply frames itself: a streamed file supplies the size announced for it, and the names of
      a catalogue can be listed. */
  predicate Framed(lib: Library, request: Request) {
    && (Streamed(lib, request).Some? ==> |Streamed(lib, request).value.contents| >= Streamed(lib, request).value.size)
    && (request.kind == LIST ==> AllListable(lib.catalogue))
  }

  ghost predicate TakenAsMeant(lib: Library, request: Request, rest: Bytes) {
    var result := TakeFrame(request, Answer(lib, request) + rest);
    result.Some? && result.value.value == Meant(lib, request)
  }

  /** A short line of text, whatever it says. */
  predicate Plain(message: Bytes) {
    0 < |message| < 100 && '\n' !in message && message[|message| - 1] != '\r'
  }

  lemma RefusalsArePlain(message: Bytes)
    requires message in {"INVALID_REQUEST", "EMPTY_FILENAME", "FILE_NOT_FOUND", "FILE_OPEN_FAILED"}
    ensures Plain(message)
  {
  }

  lemma PlainErrorFrame(message: Bytes, rest: Bytes)
    requires Plain(message)
    ensures TakeLine(ErrorResponse(message) + rest) == Some(Line("ERROR " + message, rest))
    ensures ParseStatus("ERROR " + message) == NotOk
  {
    hide TakeLine;
    var line := "ERROR " + message;
    assert line[0] == 'E' && line[|line| - 1] == message[|message| - 1];
    assert ErrorResponse(message) + rest == line + "\n" + rest;
    TakeLineOf(line, rest);
  }

  lemma ErrorFrame(message: Bytes, rest: Bytes)
    requires message in {"INVALID_REQUEST", "EMPTY_FILENAME", "FILE_NOT_FOUND", "FILE_OPEN_FAILED"}
    ensures TakeLine(ErrorResponse(message) + rest) == Some(Line("ERROR " + message, rest))
    ensures ParseStatus("ERROR " + message) == NotOk
  {
    hide Plain, TakeLine, ErrorResponse, ParseStatus;
    RefusalsArePlain(message);
    PlainErrorFrame(message, rest);
  }

  lemma BodyFrame(file: MediaFile, rest: Bytes)
    ensures var stream := GetHeader(file.size) + Supplied(file) + rest;
      var result := match TakeLine(stream) case None => None case Some(line) => TakeBody(line);
      && ((result.Some? && result.value.value == Body(Supplied(file))) <==> |file.contents| >= file.size)
      && (|file.contents| >= file.size ==> result.value.rest == rest)
  {
    hide Print, ExtractU64;
    var line, after := "OK " + Print(file.size), Supplied(file) + rest;
    assert GetHeader(file.size) + Supplied(file) + rest == line + "\n" + after;
    StatusText(file.size);
    HeadOfPart(line, after, line + "\n" + after);
    assert (line + "\n" + after)[|line| + 1..] == after;
    if |file.contents| >= file.size {
      assert after[..file.size] == Supplied(file) && after[file.size..] == rest;
    }
  }

  /** One reply, followed by anything at all, is read back as it was meant exactly if it frames
      itself; and then the client stops at its last byte. */
  lemma FrameRoundTrip(lib: Library, request: Request, rest: Bytes)
    requires |lib.catalogue| < TWO_64
    ensures TakenAsMeant(lib, request, rest) <==> Framed(lib, request)
    ensures Framed(lib, request) ==> TakeFrame(request, Answer(lib, request) + rest).value.rest == rest
  {
    hide TakeLine, TakeBody, TakeCatalogue, ParseStatus, ErrorResponse, ListResponse;
    if Refused(lib, request) {
      ErrorFrame(Refusal(lib, request), rest);
      NotOkBody(Line("ERROR " + Refusal(lib, request), rest));
    } else if request.kind == LIST {
      CatalogueRoundTrip(lib.catalogue, rest);
    } else if request.kind == QUIT {
      assert OkResponse("BYE") + rest == "OK BYE" + "\n" + rest;
      TakeLineOf("OK BYE", rest);
      assert StripCr("OK BYE") == "OK BYE";
    } else {
      BodyFrame(Streamed(lib, request).value, rest);
    }
  }

  lemma NotOkBody(line: Line)
    requires ParseStatus(line.text) == NotOk
    ensures TakeBody(line) == Some(Decoded(ErrorLine(line.text), line.rest))
  {
  }

  /** The whole response stream, followed by anything: the client recovers every error line,
      catalogue and body, whatever bytes they hold, and stops at its end - if and only if every
      single reply frames itself. */
  lemma {:induction false} StreamRoundTrip(lib: Library, requests: seq<Request>, rest: Bytes)
    requires |lib.catalogue| < TWO_64
    ensures TakeFrames(requests, Answers(lib, requests) + rest) == Some(Decoded(AllMeant(lib, requests), rest))
      <==> forall i | 0 <= i < |requests| :: Framed(lib, requests[i])
  {
    hide TakeFrame, Answer, Framed, Meant;
    if requests == [] {
      assert Answers(lib, requests) + rest == rest;
    } else {
      var later := requests[1..];
      var after := Answers(lib, later) + rest;
      assert Answers(lib, requests) + rest == Answer(lib, requests[0]) + after;
      FrameRoundTrip(lib, requests[0], after);
      StreamRoundTrip(lib, later, rest);
      assert forall i | 1 <= i < |requests| :: requests[i] == later[i - 1];
      assert (forall i | 0 <= i < |requests| :: Framed(lib, requests[i])) <==>
        Framed(lib, requests[0]) && forall i | 0 <= i < |later| :: Framed(lib, later[i]);
      OneFrameMore(lib, requests, Answers(lib, requests) + rest, rest);
    }
  }

  lemma OneFrameMore(lib: Library, requests: seq<Request>, stream: Bytes, rest: Bytes)
    requires requests != []
    ensures TakeFrames(requests, stream) == Some(Decoded(AllMeant(lib, requests), rest)) <==>
      var first := TakeFrame(requests[0], stream);
      && first.Some? && first.value.value == Meant(lib, requests[0])
      && TakeFrames(requests[1..], first.value.rest) == Some(Decoded(AllMeant(lib, requests[1..]), rest))
  {
    hide TakeFrame, Meant;
    var first := TakeFrame(requests[0], stream);
    if first.Some? {
      var more := TakeFrames(requests[1..], first.value.rest);
      if more.Some? {
        assert ([first.value.value] + more.value.value)[1..] == more.value.value;
        assert AllMeant(lib, requests)[1..] == AllMeant(lib, requests[1..]);
      }
    }
  }

  /** A pipelined session from end to end: when nothing fails, cutting what was sent by the requests
      asked yields exactly the replies meant, with nothing left over. */
  lemma PipelinedSession(x: Session, lib: Library, chunk: nat)
    requires chunk > 0 && |lib.catalogue| < TWO_64 && x.sock.sent == []
    requires forall i | 0 <= i < |Requests(x.sock.incoming)| :: Framed(lib, Requests(x.sock.incoming)[i])
    requires Able(x, |x.sock.incoming| + 1 + |Answers(lib, Requests(x.sock.incoming))|)
    ensures var requests := Requests(x.sock.incoming);
      TakeFrames(requests, Run(x, lib, chunk).sock.sent) == Some(Decoded(AllMeant(lib, requests), []))
  {
    hide RunLoop, Requests, Answers, TakeFrames, AllMeant, Framed, Moves, Healthy;
    var requests := Requests(x.sock.incoming);
    SentIsEverything(x, lib, chunk);
    assert x.(active := true) == x;
    StreamRoundTrip(lib, requests, []);
    assert Answers(lib, requests) + [] == [] + Answers(lib, requests);
  }
}
