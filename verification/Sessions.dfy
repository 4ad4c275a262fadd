/** The session loop of one client: what `ClientSession::run` does with its socket, and what it is
meant to answer. */
module Sessions {
  import opened Wrappers
  import opened Text
  import opened Protocol
  import opened Sockets

  const DEFAULT_CHUNK_SIZE := 65536

  /** A regular file under the media root: the size reported for it, whether it can be opened, and
      the bytes reading it yields, which need not be `size` many. */
  datatype MediaFile = MediaFile(size: U64, opens: bool, contents: Bytes)

  /** The read-only file store: the catalogue, and the file behind each name get_file_size accepts. */
  datatype Library = Library(catalogue: seq<MediaFileInfo>, files: map<Bytes, MediaFile>)

  /** A session's mutable state. `stops[i]` says whether another thread's stop() has swapped
      is_active_ to false just before the i-th read of it by the session's own thread. */
  datatype Session = Session(active: bool, stops: seq<bool>, sock: Sock)

  // ---------------------------------------------------------------- the code's steps

  /** Reading the atomic is_active_. */
  function Load(x: Session): Session {
    if x.stops == [] then x else x.(active := x.active && !x.stops[0], stops := x.stops[1..])
  }

  function Min(a: nat, b: nat): nat { if a < b then a else b }

  /** Sending a reply whose failure is ignored. */
  function Reply(x: Session, text: Bytes): (r: Session)
    ensures |r.sock.script| <= |x.sock.script|
  {
    x.(sock := SendAll(x.sock, text).0)
  }

  /** The chunk loop of handle_get; `good` is the file stream's state. */
  function StreamLoop(x: Session, file: MediaFile, chunk: nat, total: nat, good: bool): (r: Session)
    requires chunk > 0 && total <= file.size && total <= |file.contents|
    ensures |r.sock.script| <= |x.sock.script|
    decreases file.size - total
  {
    var x1 := Load(x);
    if !x1.active || total >= file.size || !good then x1
    else
      var want := Min(chunk, file.size - total);
      var got := Min(want, |file.contents| - total);
      if got == 0 then x1
      else
        var (s, ok) := SendAll(x1.sock, file.contents[total..total + got]);
        if ok then StreamLoop(x1.(sock := s), file, chunk, total + got, got == want)
        else x1.(sock := s, active := false)
  }

  /** How much the next round of the chunk loop reads. */
  function NextRead(file: MediaFile, chunk: nat, total: nat): nat
    requires total <= file.size && total <= |file.contents|
  {
    Min(Min(chunk, file.size - total), |file.contents| - total)
  }

  /** One round of the chunk loop, seen from its send. */
  lemma StreamRound(x: Session, file: MediaFile, chunk: nat, total: nat, good: bool)
    requires chunk > 0 && total <= file.size && total <= |file.contents|
    ensures var x1, got := Load(x), NextRead(file, chunk, total);
      StreamLoop(x, file, chunk, total, good) ==
        if !x1.active || total >= file.size || !good || got == 0 then x1
        else
          var (s, ok) := SendAll(x1.sock, file.contents[total..total + got]);
          if ok then StreamLoop(x1.(sock := s), file, chunk, total + got, got == Min(chunk, file.size - total))
          else x1.(sock := s, active := false)
  {
    hide SendAll;
  }

  function HandleGet(x: Session, lib: Library, chunk: nat, name: Bytes): (r: Session)
    requires chunk > 0
    ensures |r.sock.script| <= |x.sock.script|
  {
    if name == [] then Reply(x, ErrorResponse("EMPTY_FILENAME"))
    else if name !in lib.files then Reply(x, ErrorResponse("FILE_NOT_FOUND"))
    else
      var file := lib.files[name];
      if !file.opens then Reply(x, ErrorResponse("FILE_OPEN_FAILED"))
      else
        var (s, ok) := SendAll(x.sock, GetHeader(file.size));
        if ok then StreamLoop(x.(sock := s), file, chunk, 0, true) else x.(sock := s, active := false)
  }

  function HandleList(x: Session, lib: Library): (r: Session)
    ensures |r.sock.script| <= |x.sock.script|
  {
    var (s, ok) := SendAll(x.sock, ListResponse(lib.catalogue));
    x.(sock := s, active := x.active && ok)
  }

  function Serve(x: Session, lib: Library, chunk: nat, request: Request): (r: Session)
    requires chunk > 0
    ensures |r.sock.script| <= |x.sock.script|
  {
    match request.kind
    case LIST => HandleList(x, lib)
    case GET => HandleGet(x, lib, chunk, request.argument)
    case QUIT => Reply(x, OkResponse("BYE")).(active := false)
    case UNKNOWN => Reply(x, ErrorResponse("INVALID_REQUEST"))
  }

  function RunLoop(x: Session, lib: Library, chunk: nat): (r: Session)
    requires chunk > 0
    decreases |x.sock.script|
  {
    var x1 := Load(x);
    if !x1.active then x1
    else
      match RecvLine(x1.sock)
      case (s, None) => x1.(sock := s)
      case (s, Some(line)) => RunLoop(Serve(x1.(sock := s), lib, chunk, Parse(line)), lib, chunk)
  }

  /** The whole of run(). */
  function Run(x: Session, lib: Library, chunk: nat): Session
    requires chunk > 0
  {
    var x1 := RunLoop(x.(active := true), lib, chunk);
    x1.(active := false, sock := x1.sock.(open := false))
  }

  // ---------------------------------------------------------------- what is to be answered

  /** The requests a byte stream asks: its lines, parsed, up to the first QUIT or unreadable line. */
  function Requests(stream: Bytes): (r: seq<Request>)
    decreases |stream|
  {
    match TakeLine(stream)
    case None => []
    case Some(line) =>
      var request := Parse(line.text);
      [request] + if request.kind == QUIT then [] else Requests(line.rest)
  }

  /** The file a GET streams, if it is not refused. */
  function Streamed(lib: Library, request: Request): Option<MediaFile> {
    if request.kind == GET && request.argument != [] && request.argument in lib.files && lib.files[request.argument].opens
    then Some(lib.files[request.argument])
    else None
  }

  /** What the file supplies of the announced size. */
  function Supplied(file: MediaFile): Bytes { file.contents[..Min(file.size, |file.contents|)] }

  /** Why a request gets an error line. */
  function Refusal(lib: Library, request: Request): Bytes {
    if request.kind == UNKNOWN then "INVALID_REQUEST"
    else if request.argument == [] then "EMPTY_FILENAME"
    else if request.argument !in lib.files then "FILE_NOT_FOUND"
    else "FILE_OPEN_FAILED"
  }

  predicate Refused(lib: Library, request: Request) {
    request.kind == UNKNOWN || (request.kind == GET && Streamed(lib, request).None?)
  }

  /** The one answer to a request. */
  function Answer(lib: Library, request: Request): Bytes {
    if Refused(lib, request) then ErrorResponse(Refusal(lib, request))
    else if request.kind == LIST then ListResponse(lib.catalogue)
    else if request.kind == QUIT then OkResponse("BYE")
    else GetHeader(Streamed(lib, request).value.size) + Supplied(Streamed(lib, request).value)
  }

  function Answers(lib: Library, requests: seq<Request>): Bytes {
    if requests == [] then [] else Answer(lib, requests[0]) + Answers(lib, requests[1..])
  }
}
