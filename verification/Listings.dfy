/** What `do_list` shows, when the reply arrives whole and when the connection ends inside it. */
module Listings {
  import opened Wrappers
  import opened Text
  import opened Protocol
  import opened Replies
  import opened Sockets
  import opened SocketTheorems
  import opened Clients
  import opened Sessions
  import opened SessionTheorems
  import opened ClientTheorems

  // ---------------------------------------------------------------- the loop takes lines

  lemma HealthyIsUndisturbed(s: Sock)
    requires Healthy(s)
    ensures Undisturbed(s)
  {
  }

  /** Nothing can fail before the stream has been read. */
  ghost predicate Readable(s: Sock) {
    Undisturbed(s) && (s.incoming == [] || (Healthy(s) && Moves(s.script) > |s.incoming|))
  }

  /** One recv_line on an undisturbed socket against the stream it reads. */
  lemma OneLine(s: Sock)
    requires Undisturbed(s)
    ensures var (s1, r) := RecvLine(s);
      && (r.Some? ==> Undisturbed(s1) && TakeLine(s.incoming) == Some(Line(r.value, s1.incoming)))
      && (Readable(s) ==> (r.Some? <==> TakeLine(s.incoming).Some?) && (r.Some? ==> Readable(s1)))
  {
    hide RecvLine, Healthy, Moves;
    if RecvLine(s).1.Some? {
      LineReceived(s);
    }
    EmptyStreamAsksNothing();
    if Readable(s) && s.incoming != [] {
      RecvLineExact(s);
    }
  }

  /** The entries shown are the next lines of the stream, and when nothing fails the loop succeeds
      exactly if the stream has that many lines. */
  lemma {:induction false} ListLoopTakes(s: Sock, count: nat, shown: seq<MediaFileInfo>)
    requires Undisturbed(s)
    ensures var (s', ok, all) := ListLoop(s, count, shown);
      && (ok ==> TakeEntries(count, s.incoming).Some? && all == shown + TakeEntries(count, s.incoming).value.value)
      && (ok ==> Undisturbed(s') && s'.incoming == TakeEntries(count, s.incoming).value.rest && (Readable(s) ==> Readable(s')))
      && (Readable(s) ==> (ok <==> TakeEntries(count, s.incoming).Some?))
    decreases count
  {
    hide RecvLine, TakeLine, ParseEntry, Readable, Undisturbed;
    if count > 0 {
      OneLine(s);
      var (s1, r) := RecvLine(s);
      if r.Some? {
        ListLoopTakes(s1, count - 1, shown + [ParseEntry(r.value)]);
        var more := TakeEntries(count - 1, s1.incoming);
        if more.Some? {
          assert shown + ([ParseEntry(r.value)] + more.value.value) == shown + [ParseEntry(r.value)] + more.value.value;
        }
      }
    }
  }

  /** do_list shows what TakeCatalogue reads off the stream; when nothing fails it returns true
      exactly if there is a catalogue to read. */
  lemma ListVerdict(s: Sock)
    requires Undisturbed(s)
    ensures var result := ReceiveList(s).1;
      && (result.verdict == Succeeded ==>
            TakeCatalogue(s.incoming).Some? && result.shown == TakeCatalogue(s.incoming).value.value)
      && (Readable(s) ==> (result.verdict == Succeeded <==> TakeCatalogue(s.incoming).Some?))
  {
    hide RecvLine, TakeLine, ParseStatus, ExtractU64, TakeEntries, ListLoop, SendAll, Readable, Undisturbed;
    OneLine(s);
    var (s1, r) := RecvLine(s);
    if r.Some? {
      match ParseStatus(r.value)
      case Detail(text) => ListLoopTakes(s1, ExtractU64(text).value, []);
      case _ =>
    }
  }

  // ---------------------------------------------------------------- the whole reply

  lemma FirstListAnswer(lib: Library, more: Bytes)
    ensures var requests := Requests("LIST\n" + more);
      requests != [] && requests[0] == Request(LIST, [])
      && Answers(lib, requests) == ListResponse(lib.catalogue) + Answers(lib, requests[1..])
  {
    hide Parse, TakeLine, ListResponse;
    assert "LIST\n" + more == "LIST" + "\n" + more;
    TakeLineOf("LIST", more);
    ParseList();
  }

  lemma ParseList()
    ensures Parse("LIST") == Request(LIST, [])
  {
    hide Parse;
    BareCommand("LIST");
    assert Upper("LIST") == "LIST";
  }

  // ---------------------------------------------------------------- a reply cut short

  /** Everything before the catalogue's last line. */
  function BeforeLast(files: seq<MediaFileInfo>): Bytes
    requires files != []
  {
    EntryLines(files[..|files| - 1])
  }

  lemma ListableLine(f: MediaFileInfo)
    requires Listable(f)
    ensures var line := EntryLine(f);
      '\n' !in line && line != [] && line[|line| - 1] != '\r' && |line| < MAX_LINE
  {
    var line, d := EntryLine(f), Print(f.size);
    EntryLineEnds(f);
    assert line[|line| - 1] == d[|d| - 1] && IsDigit(d[|d| - 1]);
  }

  /** Entries cut short are still accepted exactly when the cut falls in the last line, after at
      least one byte of it. */
  lemma {:induction false} CutEntries(files: seq<MediaFileInfo>, part: Bytes)
    requires files != [] && AllListable(files) && part <= EntryLines(files) && part != EntryLines(files)
    ensures TakeEntries(|files|, part).Some? <==> |part| > |BeforeLast(files)|
  {
    hide EntryLine, EntryLines, BeforeLast, TakeLine, TakeEntries, Listable, ParseEntry;
    var f, more := files[0], files[1..];
    var line := EntryLine(f);
    ListableLine(f);
    FirstLine(files);
    HeadOfPart(line, EntryLines(more), part);
    TakesOneThenMore(|more|, part);
    EmptyTakesNone(|more|);
    if |files| > 1 {
      FirstOfMany(files);
      if |part| > |line| {
        forall i | 0 <= i < |more| ensures Listable(more[i]) { assert more[i] == files[i + 1]; }
        CutEntries(more, part[|line| + 1..]);
      }
    }
  }

  /** The first line of a listing, and nothing before or after it if it is the only one. */
  lemma FirstLine(files: seq<MediaFileInfo>)
    requires files != []
    ensures EntryLines(files) == EntryLine(files[0]) + "\n" + EntryLines(files[1..])
    ensures |files| == 1 ==> BeforeLast(files) == [] && EntryLines(files[1..]) == []
  {
    if |files| == 1 { assert files[..0] == []; }
  }

  lemma FirstOfMany(files: seq<MediaFileInfo>)
    requires |files| > 1
    ensures BeforeLast(files) == EntryLine(files[0]) + "\n" + BeforeLast(files[1..])
  {
    var init := files[..|files| - 1];
    assert init[1..] == files[1..][..|files[1..]| - 1];
  }

  lemma EmptyTakesNone(count: nat)
    ensures TakeEntries(count, []).Some? <==> count == 0
  {
    EmptyStreamAsksNothing();
  }

  /** What precedes the last line of a LIST reply, counting the "OK " of a reply that has one line. */
  function BeforeLastLine(files: seq<MediaFileInfo>): Bytes {
    if files == [] then "OK " else "OK " + Print(|files|) + "\n" + BeforeLast(files)
  }

  /** A LIST reply that ends early is nevertheless accepted in exactly two places: right after the
      status line's "OK ", where the missing count reads as zero, and inside the last line, which for
      an empty catalogue means after its "OK 0". */
  lemma CutListAccepted(files: seq<MediaFileInfo>, part: Bytes)
    requires AllListable(files) && |files| < TWO_64
    requires part <= ListResponse(files) && part != ListResponse(files)
    ensures TakeCatalogue(part).Some? <==> part == "OK " || |part| > |BeforeLastLine(files)|
  {
    hide Print, ExtractU64, EntryLines, TakeEntries, AllListable, TakeCatalogue;
    var line := "OK " + Print(|files|);
    StatusText(|files|);
    HeadOfPart(line, EntryLines(files), part);
    if |part| > |line| {
      assert files != [] by { NoEntryLines(files); }
      CatalogueAfter(part, Line(line, part[|line| + 1..]), Print(|files|));
      CutEntries(files, part[|line| + 1..]);
    } else {
      CutStatusLine(|files|, part);
      if files == [] { PrintZero(); }
    }
  }

  lemma NoEntryLines(files: seq<MediaFileInfo>)
    ensures files == [] ==> EntryLines(files) == []
  {
  }

  lemma CatalogueAfter(part: Bytes, line: Line, text: Bytes)
    requires TakeLine(part) == Some(line) && ParseStatus(line.text) == Detail(text)
    ensures TakeCatalogue(part).Some? <==> TakeEntries(ExtractU64(text).value, line.rest).Some?
  {
  }

  /** A status line cut short announces a catalogue exactly if it says "OK " and no digit of a count
      that is not zero. */
  lemma CutStatusLine(n: U64, part: Bytes)
    requires part <= "OK " + Print(n)
    ensures TakeCatalogue(part).Some? <==> part == "OK " || (part == "OK 0" && n == 0)
  {
    hide Print, ExtractU64, TakeEntries;
    var line := "OK " + Print(n);
    StatusText(n);
    HeadOfPart(line, [], part);
    if part != [] {
      assert part == line[..|part|];
      if |part| >= 3 {
        var d := part[3..];
        assert d == line[3..][..|d|] && line[3..] == Print(n);
        CatalogueAfter(part, Line(part, []), d);
        CutNumber(n, d);
        EmptyTakesNone(ExtractU64(d).value);
        assert part == "OK " + d;
        if n == 0 { PrintZero(); }
      }
    }
  }

  /** So this is when do_list reports success on a reply cut short, if no call fails. */
  lemma CutListVerdict(s: Sock, files: seq<MediaFileInfo>)
    requires AllListable(files) && |files| < TWO_64 && Readable(s)
    requires s.incoming <= ListResponse(files) && s.incoming != ListResponse(files)
    ensures ReceiveList(s).1.verdict == Succeeded <==> s.incoming == "OK " || |s.incoming| > |BeforeLastLine(files)|
  {
    hide ListResponse, TakeCatalogue, ReceiveList, BeforeLastLine, AllListable;
    CutListAccepted(files, s.incoming);
    ListVerdict(s);
  }

  // ---------------------------------------------------------------- what a reply cut short shows

  lemma {:induction false} PartValue(n: nat, d: Bytes)
    requires d != [] && d <= Print(n)
    ensures AllDigits(d) && Value(d) <= n && (d != Print(n) ==> Value(d) < n)
  {
    assert forall i | 0 <= i < |d| :: d[i] == Print(n)[i];
    if d == Print(n) {
      ValueOfPrint(n);
    } else {
      assert n >= 10 && d <= Print(n / 10);
      PartValue(n / 10, d);
    }
  }

  /** The size that is read of an entry's tail cut short. */
  lemma CutSize(size: U64, m: nat)
    requires m <= 1 + |Print(size)|
    ensures ExtractU64((" " + Print(size))[..m]).value == size <==> size == 0 || m == 1 + |Print(size)|
  {
    hide Print, Value, Numeral;
    var tail := (" " + Print(size))[..m];
    if m <= 1 {
      assert tail == [] || tail == " ";
      NoNumeral();
      BlankTail();
    } else {
      var d := Print(size)[..m - 1];
      PartValue(size, d);
      assert tail == " " + d + [];
      SkipToDigits(" ", d, []);
      assert d + [] == d;
      DigitsOf(d, []);
      NumeralValue(d);
      if size == 0 { PrintZero(); assert d == "0"; }
      assert d == Print(size) <==> m == 1 + |Print(size)|;
      if d == Print(size) { ValueOfPrint(size); }
    }
  }

  lemma BlankTail()
    ensures SkipSpace(" ") == []
  {
    assert " "[1..] == [];
  }

  /** The entry that is read of a line cut short: the whole one if nothing but its newline is missing,
      or if its size, missing, is zero. */
  lemma CutEntry(f: MediaFileInfo, n: nat)
    requires Listable(f) && 0 < n <= |EntryLine(f)|
    ensures ParseEntry(EntryLine(f)[..n]) == f <==> n == |EntryLine(f)| || (f.size == 0 && n >= |f.filename|)
  {
    hide ParseEntry, Print, ExtractU64, NoSpace;
    var e, tail := EntryLine(f)[..n], " " + Print(f.size);
    assert EntryLine(f) == f.filename + tail;
    if n < |f.filename| {
      CutName(f.filename, n);
      assert e == f.filename[..n];
    } else {
      var m := n - |f.filename|;
      assert e == f.filename + tail[..m];
      ParseNamed(f.filename, tail[..m]);
      CutSize(f.size, m);
    }
  }

  lemma CutName(name: Bytes, n: nat)
    requires NoSpace(name) && 0 < n < |name|
    ensures ParseEntry(name[..n]).filename == name[..n] && name[..n] != name
  {
    hide ParseEntry;
    var part := name[..n];
    ParseNamed(part, []);
    assert part + [] == part;
  }

  /** The entries that are read of a listing cut short in its last line: all but the last are right. */
  lemma {:induction false} CutShows(files: seq<MediaFileInfo>, part: Bytes)
    requires files != [] && AllListable(files) && part <= EntryLines(files) && |BeforeLast(files)| < |part| < |EntryLines(files)|
    ensures var n, last := |part| - |BeforeLast(files)|, files[|files| - 1];
      && n <= |EntryLine(last)|
      && TakeEntries(|files|, part) == Some(Decoded(files[..|files| - 1] + [ParseEntry(EntryLine(last)[..n])], []))
  {
    hide EntryLine, EntryLines, BeforeLast, TakeLine, TakeEntries, Listable, ParseEntry;
    var f, more := files[0], files[1..];
    var line := EntryLine(f);
    ListableLine(f);
    FirstLine(files);
    HeadOfPart(line, EntryLines(more), part);
    TakesOneThenMore(|more|, part);
    TakesNone();
    if |files| == 1 {
      assert files[..0] == [] && part == line[..|part|];
      assert [] + [ParseEntry(part)] == [ParseEntry(part)] + [];
    } else {
      FirstOfMany(files);
      forall i | 0 <= i < |more| ensures Listable(more[i]) { assert more[i] == files[i + 1]; }
      var rest := part[|line| + 1..];
      CutShows(more, rest);
      FirstIsRight(f, line);
      var last := ParseEntry(EntryLine(more[|more| - 1])[..|rest| - |BeforeLast(more)|]);
      assert [f] + (more[..|more| - 1] + [last]) == files[..|files| - 1] + [last];
    }
  }

  lemma TakesNone()
    ensures forall stream: Bytes :: TakeEntries(0, stream) == Some(Decoded([], stream))
  {
  }

  lemma FirstIsRight(f: MediaFileInfo, line: Bytes)
    requires Listable(f) && line == EntryLine(f)
    ensures ParseEntry(line) == f
  {
    hide ParseEntry, EntryLine;
    ParseEntryOf(f);
  }

  /** Enough of a LIST reply has arrived for what is shown to be the catalogue: of a catalogue that is
      not empty, all but the last newline, or all but a last size that is zero. */
  predicate Arrived(files: seq<MediaFileInfo>, n: nat) {
    files == [] ||
    var last, before := files[|files| - 1], |BeforeLastLine(files)|;
    n >= before + |EntryLine(last)| || (last.size == 0 && n >= before + |last.filename|)
  }

  lemma ReplyLength(files: seq<MediaFileInfo>)
    requires files != []
    ensures |ListResponse(files)| == |BeforeLastLine(files)| + |EntryLine(files[|files| - 1])| + 1
  {
    hide Print, EntryLine;
    EntryLinesExtend(files[..|files| - 1], files[|files| - 1]);
    assert files == files[..|files| - 1] + [files[|files| - 1]];
  }

  /** A reply that ends early and is accepted nevertheless shows the catalogue exactly if enough of it
      has arrived. */
  lemma CutListIsRight(files: seq<MediaFileInfo>, part: Bytes)
    requires AllListable(files) && |files| < TWO_64
    requires part <= ListResponse(files) && part != ListResponse(files) && TakeCatalogue(part).Some?
    ensures TakeCatalogue(part).value.value == files <==> Arrived(files, |part|)
  {
    hide ListResponse, TakeCatalogue, AllListable, BeforeLastLine, EntryLine;
    CutListAccepted(files, part);
    if part == "OK " {
      OkSpaceIsEmpty();
      if files != [] { ShortOfAnything(files); }
    } else if files == [] {
      CutStatusIsEmpty(part);
    } else {
      CutLinesAreRight(files, part);
    }
  }

  lemma CutLinesAreRight(files: seq<MediaFileInfo>, part: Bytes)
    requires files != [] && AllListable(files) && |files| < TWO_64
    requires part <= ListResponse(files) && part != ListResponse(files) && |part| > |BeforeLastLine(files)|
    ensures TakeCatalogue(part).Some? && (TakeCatalogue(part).value.value == files <==> Arrived(files, |part|))
  {
    hide Print, ExtractU64, EntryLine, EntryLines, TakeEntries, TakeCatalogue, Listable, ParseEntry, TakeLine, ParseStatus;
    var line, k := "OK " + Print(|files|), |files| - 1;
    var lines, n := part[|line| + 1..], |part| - |BeforeLastLine(files)|;
    StatusText(|files|);
    ResponseParts(files, line);
    HeadOfPart(line, EntryLines(files), part);
    CatalogueTaken(part, Line(line, lines), Print(|files|));
    assert lines != EntryLines(files);
    CutShows(files, lines);
    assert Listable(files[k]);
    CutEntry(files[k], n);
    LastDecides(files, ParseEntry(EntryLine(files[k])[..n]));
  }

  lemma ResponseParts(files: seq<MediaFileInfo>, line: Bytes)
    requires files != [] && line == "OK " + Print(|files|)
    ensures ListResponse(files) == line + "\n" + EntryLines(files)
    ensures |BeforeLastLine(files)| == |line| + 1 + |BeforeLast(files)|
  {
  }

  lemma LastDecides(files: seq<MediaFileInfo>, last: MediaFileInfo)
    requires files != []
    ensures files[..|files| - 1] + [last] == files <==> last == files[|files| - 1]
  {
    assert (files[..|files| - 1] + [last])[|files| - 1] == last;
  }

  lemma ShortOfAnything(files: seq<MediaFileInfo>)
    requires files != []
    ensures |BeforeLastLine(files)| > 3
  {
  }

  lemma CatalogueTaken(part: Bytes, line: Line, text: Bytes)
    requires TakeLine(part) == Some(line) && ParseStatus(line.text) == Detail(text)
    ensures TakeCatalogue(part) == TakeEntries(ExtractU64(text).value, line.rest)
  {
  }

  /** Whatever is accepted of the reply to an empty catalogue shows none. */
  lemma CutStatusIsEmpty(part: Bytes)
    requires part <= ListResponse([]) && part != ListResponse([]) && TakeCatalogue(part).Some?
    ensures TakeCatalogue(part).value.value == []
  {
    hide TakeCatalogue, ExtractU64;
    PrintZero();
    assert ListResponse([]) == "OK 0\n";
    assert part <= "OK 0";
    CutStatusLine(0, part);
    if part == "OK " {
      OkSpaceIsEmpty();
    } else {
      TakeLastLine(part);
      assert part[3..] == "0";
      CutNumber(0, "0");
      CatalogueTaken(part, Line(part, []), "0");
      TakesNone();
    }
  }

  /** The whole reply, or a part of it, or more than it: what do_list reports as the listing is the
      catalogue exactly if enough of the reply has arrived. */
  lemma ListingIsRight(s: Sock, files: seq<MediaFileInfo>, more: Bytes)
    requires AllListable(files) && |files| < TWO_64 && Undisturbed(s) && s.incoming <= ListResponse(files) + more
    ensures ReceiveList(s).1.verdict == Succeeded ==> (ReceiveList(s).1.shown == files <==> Arrived(files, |s.incoming|))
  {
    hide Undisturbed, AllListable, TakeCatalogue, ReceiveList, ListResponse, BeforeLastLine, EntryLine;
    var response := ListResponse(files);
    ListVerdict(s);
    if files != [] { ReplyLength(files); }
    if |s.incoming| >= |response| {
      var rest := s.incoming[|response|..];
      assert s.incoming == response + rest;
      CatalogueRoundTrip(files, rest);
    } else if TakeCatalogue(s.incoming).Some? {
      assert s.incoming == response[..|s.incoming|];
      CutListIsRight(files, s.incoming);
    }
  }

  /** End to end: a client lists the catalogue, the session answers, and any part of what it has sent is
      delivered. A listing do_list reports as successful is the server's catalogue, in order, exactly
      if enough of the reply has arrived. */
  lemma DeliveredListIsFaithful(x: Session, lib: Library, chunk: nat, c: Sock, more: Bytes)
    requires chunk > 0 && AllListable(lib.catalogue) && |lib.catalogue| < TWO_64
    requires x.sock.sent == [] && x.sock.incoming == "LIST\n" + more
    requires Sticky(x.sock.script) || !Fragile(lib, Requests(x.sock.incoming))
    requires Undisturbed(c) && c.incoming <= Run(x, lib, chunk).sock.sent
    ensures DoList(c).1.verdict == Succeeded ==> (DoList(c).1.shown == lib.catalogue <==> Arrived(lib.catalogue, |c.incoming|))
  {
    hide RunLoop, Requests, Answers, RecvLine, SendAll, ReceiveList, TakeCatalogue, ListResponse, AllListable, Undisturbed;
    hide BeforeLastLine, EntryLine, Arrived;
    SentIsPrefix(x.(active := true), lib, chunk);
    FirstListAnswer(lib, more);
    if SendAll(c, "LIST\n").1 {
      SentRequest(c, "LIST\n");
      ListingIsRight(SendAll(c, "LIST\n").0, lib.catalogue, Answers(lib, Requests(x.sock.incoming)[1..]));
    }
  }

  lemma OkSpaceIsEmpty()
    ensures TakeCatalogue("OK ") == Some(Decoded([], []))
  {
    hide ExtractU64;
    TakeLastLine("OK ");
    assert "OK "[3..] == [];
    CutNumber(0, []);
  }

  /** A true verdict of do_list is no proof of a complete listing: a connection lost after "OK "
      shows an empty catalogue and reports success. */
  lemma EmptyListingBelieved(s: Sock)
    requires Healthy(s) && Moves(s.script) > 3 && s.incoming == "OK "
    ensures ReceiveList(s).1 == Listing(Succeeded, [])
  {
    hide Healthy, Moves, TakeCatalogue, ReceiveList;
    HealthyIsUndisturbed(s);
    ListVerdict(s);
    OkSpaceIsEmpty();
  }

  /** do_list ends with an exception exactly when the connection ends right after the reply's "OK". */
  lemma ListThrowsIffOnlyOk(s: Sock, files: seq<MediaFileInfo>, rest: Bytes)
    requires |files| < TWO_64 && Readable(s) && s.incoming <= ListResponse(files) + rest
    ensures ReceiveList(s).1.verdict == Threw <==> s.incoming == "OK"
  {
    hide Print, ExtractU64, RecvLine, TakeLine, ListLoop, SendAll, EntryLines, Healthy, Moves;
    var line := "OK " + Print(|files|);
    var more := EntryLines(files) + rest;
    assert ListResponse(files) + rest == line + "\n" + more;
    StatusText(|files|);
    HeadOfPart(line, more, s.incoming);
    OneLine(s);
    if 0 < |s.incoming| <= |line| {
      assert s.incoming == line[..|s.incoming|];
    }
  }
}
