/** `class ClientSession`: its loops, proved against the functions of module Sessions. */
module SessionClass {
  import opened Wrappers
  import opened Text
  import opened Protocol
  import opened Sockets
  import opened Sessions
  import opened SocketClass

  class ClientSession {
    const sessionId: nat
    const socket: Socket
    const library: Library
    const chunkSize: nat
    var isActive: bool
    var stops: seq<bool>

    predicate Valid() { chunkSize > 0 }

    function View(): Session
      reads this, socket
    {
      Session(isActive, stops, socket.View())
    }

    constructor (sessionId: nat, socket: Socket, library: Library, chunkSize: nat, stops: seq<bool>)
      ensures Valid() && this.socket == socket && this.library == library
      ensures this.chunkSize == if chunkSize > 0 then chunkSize else 65536
      ensures View() == Session(true, stops, socket.View())
    {
      this.sessionId, this.socket, this.library := sessionId, socket, library;
      this.chunkSize := if chunkSize > 0 then chunkSize else DEFAULT_CHUNK_SIZE;
      this.isActive, this.stops := true, stops;
    }

    /** Only the call that finds the session active touches the socket. */
    method Stop()
      modifies this, socket
      ensures View() ==
        if !old(isActive) then old(View())
        else Session(false, old(stops), old(socket.View()).(open := false, broken := old(socket.broken) || old(socket.fd) >= 0))
    {
      if isActive {
        isActive := false;
        socket.Shutdown();
        socket.Close();
      }
    }

    /** Reads is_active_, after any concurrent stop(). */
    method LoadActive() returns (active: bool)
      modifies this
      ensures View() == Load(old(View())) && active == isActive
    {
      if stops != [] {
        if stops[0] { isActive := false; }
        stops := stops[1..];
      }
      active := isActive;
    }

    method Run()
      requires Valid()
      modifies this, socket
      ensures View() == Sessions.Run(old(View()), library, chunkSize)
    {
      hide Sessions.Serve, Sockets.RecvLine;
      isActive := true;
      while true
        invariant RunLoop(View(), library, chunkSize) == RunLoop(old(View()).(active := true), library, chunkSize)
        decreases |socket.script|
      {
        var active := LoadActive();
        if !active {
          break;
        }
        var line := socket.RecvLine();
        if line.None? {
          break;
        }
        var request := ParseRequest(line.value);
        Answer(request);
      }
      isActive := false;
      socket.Close();
    }

    /** The switch over the request's type. */
    method Answer(request: Request)
      requires Valid()
      modifies this, socket
      ensures View() == Serve(old(View()), library, chunkSize, request)
    {
      match request.kind {
        case LIST => HandleList();
        case GET => HandleGet(request.argument);
        case QUIT =>
          var _ := socket.SendString(OkResponse("BYE"));
          isActive := false;
        case UNKNOWN =>
          var _ := socket.SendString(ErrorResponse("INVALID_REQUEST"));
      }
    }

    method HandleList()
      modifies this, socket
      ensures View() == Sessions.HandleList(old(View()), library)
    {
      var response := BuildListResponse(library.catalogue);
      var ok := socket.SendString(response);
      if !ok {
        isActive := false;
      }
    }

    method HandleGet(filename: Bytes)
      requires Valid()
      modifies this, socket
      ensures View() == Sessions.HandleGet(old(View()), library, chunkSize, filename)
    {
      if filename == [] {
        var _ := socket.SendString(ErrorResponse("EMPTY_FILENAME"));
        return;
      }
      if filename !in library.files {
        var _ := socket.SendString(ErrorResponse("FILE_NOT_FOUND"));
        return;
      }
      var file := library.files[filename];
      if !file.opens {
        var _ := socket.SendString(ErrorResponse("FILE_OPEN_FAILED"));
        return;
      }
      var ok := socket.SendString(GetHeader(file.size));
      if !ok {
        isActive := false;
        return;
      }
      StreamFile(file);
    }

    /** The chunk loop, through one reused buffer. */
    method StreamFile(file: MediaFile)
      requires Valid()
      modifies this, socket
      ensures View() == StreamLoop(old(View()), file, chunkSize, 0, true)
    {
      hide StreamLoop, Sockets.SendAll;
      var buffer := new char[chunkSize];
      var totalSent, good := 0, true;
      while true
        invariant totalSent <= file.size && totalSent <= |file.contents|
        invariant StreamLoop(View(), file, chunkSize, totalSent, good) == StreamLoop(old(View()), file, chunkSize, 0, true)
        decreases file.size - totalSent
      {
        StreamRound(View(), file, chunkSize, totalSent, good);
        var active := LoadActive();
        if !active || totalSent >= file.size || !good {
          break;
        }
        var bytesToRead := Min(chunkSize, file.size - totalSent);
        var bytesRead := Min(bytesToRead, |file.contents| - totalSent);
        forall i | 0 <= i < bytesRead {
          buffer[i] := file.contents[totalSent + i];
        }
        good := bytesRead == bytesToRead;
        if bytesRead <= 0 {
          break;
        }
        assert buffer[..bytesRead] == file.contents[totalSent..totalSent + bytesRead];
        var ok := socket.SendAll(buffer[..bytesRead]);
        if !ok {
          isActive := false;
          return;
        }
        totalSent := totalSent + bytesRead;
      }
    }
  }
}
