/** A client that takes a pipelined session's replies off its socket, with recv_line and recv_all alone,
through partial receives and interruptions. */
module FrameReader {
  import opened Wrappers
  import opened Text
  import opened Protocol
  import opened Replies
  import opened Sockets
  import opened SocketTheorems
  import opened Sessions
  import opened SessionTheorems
  import opened Clients
  import opened ClientTheorems
  import opened Downloads
  import opened Listings
  import opened Framing

  /** The body that a status line announces. */
  function ReadBody(s: Sock, header: Bytes): (Sock, Option<Frame>) {
    match ParseStatus(header)
    case NotOk => (s, Some(ErrorLine(header)))
    case Throws => (s, None)
    case Detail(text) =>
      var size := ExtractU64(text);
      if !size.ok then (s, None)
      else
        var (s1, code, bytes) := RecvAll(s, size.value);
        (s1, if code == 1 then Some(Body(bytes)) else None)
  }

  /** The entries that a status line announces. */
  function ReadCatalogue(s: Sock, header: Bytes): (Sock, Option<Frame>) {
    match ParseStatus(header)
    case Detail(text) =>
      var (s1, ok, files) := ListLoop(s, ExtractU64(text).value, []);
      (s1, if ok then Some(Frame.Catalogue(files)) else None)
    case _ => (s, None)
  }

  /** The reply to one request. */
  function ReadFrame(s: Sock, request: Request): (Sock, Option<Frame>) {
    match RecvLine(s)
    case (s1, None) => (s1, None)
    case (s1, Some(header)) =>
      match request.kind
      case LIST => ReadCatalogue(s1, header)
      case GET => ReadBody(s1, header)
      case UNKNOWN => (s1, Some(ErrorLine(header)))
      case QUIT => (s1, Some(Farewell(header)))
  }

  /** The replies to all of them, given up at the first that cannot be read. */
  function ReadFrames(s: Sock, requests: seq<Request>): (Sock, Option<seq<Frame>>)
    decreases |requests|
  {
    if requests == [] then (s, Some([]))
    else
      match ReadFrame(s, requests[0])
      case (s1, None) => (s1, None)
      case (s1, Some(frame)) =>
        match ReadFrames(s1, requests[1..])
        case (s2, None) => (s2, None)
        case (s2, Some(more)) => (s2, Some([frame] + more))
  }

  /** The reading of a socket agrees with the reading of the stream, and goes no further. */
  ghost predicate Reads<T>(s: Sock, r: Option<T>, taken: Option<Decoded<T>>) {
    && (r.Some? <==> taken.Some?)
    && (r.Some? ==> r.value == taken.value.value && s.incoming == taken.value.rest && Readable(s))
  }

  /** recv_all gets its bytes exactly if the stream has that many. */
  lemma AllOrNone(s: Sock, length: nat)
    requires Readable(s)
    ensures var (s', code, bytes) := RecvAll(s, length);
      && (code == 1 <==> length <= |s.incoming|)
      && (code == 1 ==> bytes == s.incoming[..length] && s'.incoming == s.incoming[length..] && Readable(s'))
  {
    hide FillLoop, Healthy, Moves, Undisturbed;
    UndisturbedIsOpen(s);
    RecvAllSound(s, length);
    if length == 0 {
      FillDone(s, []);
    } else if length <= |s.incoming| {
      FillLoopCompletes(s, length, []);
      HealthyIsUndisturbed(RecvAll(s, length).0);
      assert [] + s.incoming == s.incoming;
    }
  }

  lemma BodyIsRead(s: Sock, header: Bytes)
    requires Readable(s)
    ensures Reads(ReadBody(s, header).0, ReadBody(s, header).1, TakeBody(Line(header, s.incoming)))
  {
    hide ExtractU64, RecvAll, Readable, ParseStatus;
    match ParseStatus(header)
    case Detail(text) => AllOrNone(s, ExtractU64(text).value);
    case _ =>
  }

  lemma CatalogueIsRead(s: Sock, header: Bytes)
    requires Readable(s)
    ensures var taken := match ParseStatus(header)
        case Detail(text) => TakeEntries(ExtractU64(text).value, s.incoming)
        case _ => None;
      var (s', r) := ReadCatalogue(s, header);
      && (r.Some? <==> taken.Some?)
      && (r.Some? ==> r.value == Frame.Catalogue(taken.value.value) && s'.incoming == taken.value.rest && Readable(s'))
  {
    hide ExtractU64, TakeEntries, ListLoop, ParseStatus, Undisturbed, Healthy, Moves;
    match ParseStatus(header)
    case Detail(text) =>
      ListLoopTakes(s, ExtractU64(text).value, []);
      var taken := TakeEntries(ExtractU64(text).value, s.incoming);
      if taken.Some? { assert [] + taken.value.value == taken.value.value; }
    case _ =>
  }

  /** One reply: what is read off the socket is what TakeFrame takes off the stream. */
  lemma FrameIsRead(s: Sock, request: Request)
    requires Readable(s)
    ensures Reads(ReadFrame(s, request).0, ReadFrame(s, request).1, TakeFrame(request, s.incoming))
  {
    hide RecvLine, TakeLine, ReadBody, ReadCatalogue, TakeBody, Undisturbed, Healthy, Moves, ExtractU64, TakeEntries, ParseStatus;
    OneLine(s);
    var (s1, r) := RecvLine(s);
    if r.Some? {
      match request.kind
      case LIST => CatalogueIsRead(s1, r.value);
      case GET => BodyIsRead(s1, r.value);
      case _ =>
    }
  }

  /** Through any partial receives and interruptions a client that knows its requests reads off its
      socket just what TakeFrames takes off the stream, and consumes no more. */
  lemma {:induction false} FramesAreRead(s: Sock, requests: seq<Request>)
    requires Readable(s)
    ensures Reads(ReadFrames(s, requests).0, ReadFrames(s, requests).1, TakeFrames(requests, s.incoming))
    decreases |requests|
  {
    hide ReadFrame, TakeFrame, Readable;
    if requests != [] {
      FrameIsRead(s, requests[0]);
      var (s1, r) := ReadFrame(s, requests[0]);
      if r.Some? { FramesAreRead(s1, requests[1..]); }
    }
  }

  /** From session to client, over sockets at both ends: when nothing fails, the client reads exactly the
      replies meant for its requests, and nothing is left. */
  lemma PipelineIsRead(x: Session, lib: Library, chunk: nat, c: Sock)
    requires chunk > 0 && |lib.catalogue| < TWO_64 && x.sock.sent == []
    requires forall i | 0 <= i < |Requests(x.sock.incoming)| :: Framed(lib, Requests(x.sock.incoming)[i])
    requires Able(x, |x.sock.incoming| + 1 + |Answers(lib, Requests(x.sock.incoming))|)
    requires Readable(c) && c.incoming == Run(x, lib, chunk).sock.sent
    ensures var requests := Requests(x.sock.incoming);
      ReadFrames(c, requests).1 == Some(AllMeant(lib, requests)) && ReadFrames(c, requests).0.incoming == []
  {
    hide Run, ReadFrames, TakeFrames, Requests, Answers, Readable, Able, Framed;
    PipelinedSession(x, lib, chunk);
    FramesAreRead(c, Requests(x.sock.incoming));
  }
}
