/** The command-line client: `do_get` and `do_list` over one connected socket. */
module Clients {
  import opened Wrappers
  import opened Text
  import opened Protocol
  import opened Replies
  import opened Sockets

  const CLIENT_CHUNK := 65536

  /** How a client command ends: it returns true or false, or an exception escapes. */
  datatype Verdict = Succeeded | GaveUp | Threw

  /** `file`: the output file's bytes, once it has been created. */
  datatype Download = Download(verdict: Verdict, file: Option<Bytes>)

  function Piece(size: nat, received: nat): nat
    requires received <= size
  {
    if CLIENT_CHUNK < size - received then CLIENT_CHUNK else size - received
  }

  /** The receive loop of do_get: whole pieces are written, a failed one is dropped. */
  function GetLoop(s: Sock, size: nat, out: Bytes): (r: (Sock, bool, Bytes))
    requires |out| <= size
    ensures r.1 <==> |r.2| == size
    ensures |r.2| <= size
    decreases size - |out|
  {
    if |out| == size then (s, true, out)
    else
      var (s1, code, data) := RecvAll(s, Piece(size, |out|));
      if code == 1 then GetLoop(s1, size, out + data) else (s1, false, out)
  }

  /** Reading the reply to a GET, once the request has been sent. */
  function ReceiveFile(s: Sock, fileCreated: bool): (Sock, Download) {
    match RecvLine(s)
    case (s1, None) => (s1, Download(GaveUp, None))
    case (s1, Some(header)) =>
      match ParseStatus(header)
      case NotOk => (s1, Download(GaveUp, None))
      case Throws => (s1, Download(Threw, None))
      case Detail(text) =>
        var size := ExtractU64(text);
        if !size.ok || !fileCreated then (s1, Download(GaveUp, None))
        else
          var (s2, ok, out) := GetLoop(s1, size.value, []);
          if ok then (SendAll(s2, "QUIT\n").0, Download(Succeeded, Some(out)))
          else (s2, Download(GaveUp, Some(out)))
  }

  function DoGet(s: Sock, name: Bytes, dirCreated: bool, fileCreated: bool): (Sock, Download) {
    if !dirCreated then (s, Download(GaveUp, None))
    else
      var (s1, ok) := SendAll(s, "GET " + name + "\n");
      if !ok then (s1, Download(GaveUp, None)) else ReceiveFile(s1, fileCreated)
  }

  /** What do_list printed. */
  datatype Listing = Listing(verdict: Verdict, shown: seq<MediaFileInfo>)

  function ListLoop(s: Sock, count: nat, shown: seq<MediaFileInfo>): (Sock, bool, seq<MediaFileInfo>)
    decreases count
  {
    if count == 0 then (s, true, shown)
    else
      match RecvLine(s)
      case (s1, None) => (s1, false, shown)
      case (s1, Some(line)) => ListLoop(s1, count - 1, shown + [ParseEntry(line)])
  }

  function ReceiveList(s: Sock): (Sock, Listing) {
    match RecvLine(s)
    case (s1, None) => (s1, Listing(GaveUp, []))
    case (s1, Some(header)) =>
      match ParseStatus(header)
      case NotOk => (s1, Listing(GaveUp, []))
      case Throws => (s1, Listing(Threw, []))
      case Detail(text) =>
        var (s2, ok, shown) := ListLoop(s1, ExtractU64(text).value, []);
        if ok then (SendAll(s2, "QUIT\n").0, Listing(Succeeded, shown)) else (s2, Listing(GaveUp, shown))
  }

  function DoList(s: Sock): (Sock, Listing) {
    var (s1, ok) := SendAll(s, "LIST\n");
    if !ok then (s1, Listing(GaveUp, [])) else ReceiveList(s1)
  }
}

/** The client's loops, proved against the functions of module Clients. */
module ClientMain {
  import opened Wrappers
  import opened Text
  import opened Protocol
  import opened Replies
  import opened Sockets
  import opened Clients
  import opened SocketClass
  import opened Asking

  method DoGet(sock: Socket, filename: Bytes, dirCreated: bool, fileCreated: bool) returns (result: Download)
    modifies sock
    ensures (sock.View(), result) == Clients.DoGet(old(sock.View()), filename, dirCreated, fileCreated)
    ensures Asks(old(sock.View()), "GET " + filename + "\n", sock.View(), result == Download(GaveUp, None), result.verdict == Succeeded)
  {
    hide Sockets.SendAll, Sockets.RecvLine, Asks;
    DoGetAsks(sock.View(), filename, dirCreated, fileCreated);
    if !dirCreated {
      return Download(GaveUp, None);
    }
    var sent := sock.SendString("GET " + filename + "\n");
    if !sent {
      return Download(GaveUp, None);
    }
    var header := sock.RecvLine();
    if header.None? {
      return Download(GaveUp, None);
    }
    match ParseStatus(header.value) {
      case NotOk => return Download(GaveUp, None);
      case Throws => return Download(Threw, None);
      case Detail(text) =>
        var size := ExtractU64(text);
        if !size.ok || !fileCreated {
          return Download(GaveUp, None);
        }
        var ok, outfile := ReceiveBody(sock, size.value);
        if !ok {
          return Download(GaveUp, Some(outfile));
        }
        sent := sock.SendString("QUIT\n");
        return Download(Succeeded, Some(outfile));
    }
  }

  /** Receives through one reused 64 KB buffer. */
  method ReceiveBody(sock: Socket, size: nat) returns (ok: bool, outfile: Bytes)
    modifies sock
    ensures (sock.View(), ok, outfile) == GetLoop(old(sock.View()), size, [])
  {
    hide Sockets.RecvAll;
    var buffer := new char[CLIENT_CHUNK];
    outfile := [];
    var totalReceived := 0;
    while totalReceived < size
      invariant totalReceived == |outfile| <= size
      invariant GetLoop(sock.View(), size, outfile) == GetLoop(old(sock.View()), size, [])
    {
      var toRecv := Piece(size, totalReceived);
      ghost var before := sock.View();
      var code := sock.RecvAll(buffer, toRecv);
      if code != 1 {
        return false, outfile;
      }
      assert buffer[..toRecv] == Sockets.RecvAll(before, toRecv).2;
      outfile := outfile + buffer[..toRecv];
      totalReceived := totalReceived + toRecv;
    }
    return true, outfile;
  }

  method DoList(sock: Socket) returns (result: Listing)
    modifies sock
    ensures (sock.View(), result) == Clients.DoList(old(sock.View()))
    ensures Asks(old(sock.View()), "LIST\n", sock.View(), result == Listing(GaveUp, []), result.verdict == Succeeded)
  {
    hide Sockets.SendAll, Sockets.RecvLine, ExtractU64, ListLoop, Asks;
    DoListAsks(sock.View());
    var sent := sock.SendString("LIST\n");
    if !sent {
      return Listing(GaveUp, []);
    }
    var header := sock.RecvLine();
    if header.None? {
      return Listing(GaveUp, []);
    }
    match ParseStatus(header.value) {
      case NotOk => return Listing(GaveUp, []);
      case Throws => return Listing(Threw, []);
      case Detail(text) =>
        var ok, shown := ReceiveEntries(sock, ExtractU64(text).value);
        if !ok {
          return Listing(GaveUp, shown);
        }
        sent := sock.SendString("QUIT\n");
        return Listing(Succeeded, shown);
    }
  }

  /** The loop over the announced number of lines. */
  method ReceiveEntries(sock: Socket, count: nat) returns (ok: bool, shown: seq<MediaFileInfo>)
    modifies sock
    ensures (sock.View(), ok, shown) == ListLoop(old(sock.View()), count, [])
  {
    hide Sockets.RecvLine, ParseEntry;
    shown := [];
    for i := 0 to count
      invariant ListLoop(sock.View(), count - i, shown) == ListLoop(old(sock.View()), count, [])
    {
      var line := sock.RecvLine();
      if line.None? {
        return false, shown;
      }
      shown := shown + [ParseEntry(line.value)];
    }
    return true, shown;
  }
}
