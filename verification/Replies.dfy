/** The client's half of the text protocol: reading status lines and catalogues. */
module Replies {
  import opened Wrappers
  import opened Text
  import opened Protocol

  /** What the client makes of a status line: not "OK", or the text after "OK " - where a line
      shorter than three characters makes `substr(3)` throw. */
  datatype Status = NotOk | Throws | Detail(text: Bytes)

  function ParseStatus(header: Bytes): Status {
    if !("OK" <= header) then NotOk
    else if |header| < 3 then Throws
    else Detail(header[3..])
  }

  /** `line_iss >> name >> size`: a line without a word leaves both at their initial values. */
  function ParseEntry(line: Bytes): (f: MediaFileInfo)
    ensures NoSpace(f.filename)
  {
    var t := SkipSpace(line);
    var name := Word(t);
    if name == [] then MediaFileInfo([], 0) else MediaFileInfo(name, ExtractU64(t[|name|..]).value)
  }

  datatype Decoded<T> = Decoded(value: T, rest: Bytes)

  /** `do_list`'s loop over `count` lines. */
  function TakeEntries(count: nat, stream: Bytes): (r: Option<Decoded<seq<MediaFileInfo>>>)
    ensures r.Some? ==> |r.value.value| == count
  {
    if count == 0 then Some(Decoded([], stream))
    else
      match TakeLine(stream)
      case None => None
      case Some(line) =>
        match TakeEntries(count - 1, line.rest)
        case None => None
        case Some(more) => Some(Decoded([ParseEntry(line.text)] + more.value, more.rest))
  }

  // ---------------------------------------------------------------- catalogue round trip

  /** The entries the catalogue can carry: a non-empty name without white space, in a line that
      recv_line accepts. */
  predicate Listable(f: MediaFileInfo) {
    f.filename != [] && NoSpace(f.filename) && |f.filename| + 1 + |Print(f.size)| < MAX_LINE
  }

  predicate AllListable(files: seq<MediaFileInfo>) { forall i | 0 <= i < |files| :: Listable(files[i]) }

  lemma EntryLineEnds(f: MediaFileInfo)
    ensures StripCr(EntryLine(f)) == EntryLine(f)
    ensures NoSpace(f.filename) ==> '\n' !in EntryLine(f)
  {
    var line := EntryLine(f);
    var d := Print(f.size);
    assert line[|line| - 1] == d[|d| - 1] && IsDigit(d[|d| - 1]);
    if NoSpace(f.filename) {
      forall c | c in line ensures c != '\n' {
        assert c in f.filename || c == ' ' || c in d;
      }
    }
  }

  lemma NameFirst(name: Bytes, tail: Bytes)
    requires name != [] && NoSpace(name)
    ensures SkipSpace(name + tail) == name + tail
  {
    assert (name + tail)[0] == name[0];
  }

  /** A name, and whatever of a size follows it. */
  lemma ParseNamed(name: Bytes, tail: Bytes)
    requires name != [] && NoSpace(name) && (tail != [] ==> IsSpace(tail[0]))
    ensures ParseEntry(name + tail) == MediaFileInfo(name, ExtractU64(tail).value)
  {
    hide ExtractU64, Word, NoSpace;
    NameFirst(name, tail);
    WordOf(name, tail);
    assert (name + tail)[|name|..] == tail;
  }

  lemma ParseEntryOf(f: MediaFileInfo)
    requires f.filename != [] && NoSpace(f.filename)
    ensures ParseEntry(EntryLine(f)) == f
  {
    hide ParseEntry, Print, ExtractU64, NoSpace;
    var line := EntryLine(f);
    var tail := " " + Print(f.size);
    assert line == f.filename + tail;
    ParseNamed(f.filename, tail);
    assert tail == " " + Print(f.size) + [];
    DecimalRoundTrip(" ", f.size, []);
  }

  /** A nameless entry is read back under its size. */
  lemma ParseNameless(f: MediaFileInfo)
    requires f.filename == []
    ensures ParseEntry(EntryLine(f)).filename != []
  {
    var d := Print(f.size);
    assert EntryLine(f) == " " + d + [];
    SkipToDigits(" ", d, []);
    assert d + [] == d;
    assert IsDigit(d[0]);
  }

  lemma TakeFirstEntry(f: MediaFileInfo, rest: Bytes)
    requires NoSpace(f.filename)
    ensures TakeLine(EntryLine(f) + "\n" + rest) ==
      if |EntryLine(f)| < MAX_LINE then Some(Line(EntryLine(f), rest)) else None
  {
    EntryLineEnds(f);
    TakeLineOf(EntryLine(f), rest);
  }

  /** An entry's line is taken and read back exactly if the entry is listable. */
  lemma EntryRoundTrip(f: MediaFileInfo, rest: Bytes)
    ensures var line := TakeLine(EntryLine(f) + "\n" + rest);
      (line.Some? && ParseEntry(line.value.text) == f) <==> Listable(f)
    ensures Listable(f) ==> TakeLine(EntryLine(f) + "\n" + rest).value.rest == rest
  {
    hide ParseEntry, TakeLine, Print, EntryLine;
    if NoSpace(f.filename) {
      TakeFirstEntry(f, rest);
      if f.filename == [] {
        ParseNameless(f);
      } else {
        ParseEntryOf(f);
      }
      EntryLineLength(f);
    } else if TakeLine(EntryLine(f) + "\n" + rest).Some? {
      assert ParseEntry(TakeLine(EntryLine(f) + "\n" + rest).value.text) != f;
    }
  }

  lemma EntryLineLength(f: MediaFileInfo)
    ensures |EntryLine(f)| == |f.filename| + 1 + |Print(f.size)|
  {
  }

  /** The lines read back as exactly these entries. */
  predicate ReadsAs(stream: Bytes, files: seq<MediaFileInfo>) {
    TakeEntries(|files|, stream).Some? && TakeEntries(|files|, stream).value.value == files
  }

  /** The first line of several, and the lines after it. */
  lemma TakesOneThenMore(count: nat, stream: Bytes)
    ensures var line, result := TakeLine(stream), TakeEntries(count + 1, stream);
      && (result.Some? <==> line.Some? && TakeEntries(count, line.value.rest).Some?)
      && (result.Some? ==>
            var more := TakeEntries(count, line.value.rest).value;
            result.value == Decoded([ParseEntry(line.value.text)] + more.value, more.rest))
  {
    hide TakeLine, ParseEntry;
  }

  /** One more entry at the front, however many the lines after it yield. */
  lemma TakeOneMore(f: MediaFileInfo, files: seq<MediaFileInfo>, stream: Bytes)
    ensures ReadsAs(EntryLine(f) + "\n" + stream, [f] + files) <==> Listable(f) && ReadsAs(stream, files)
    ensures Listable(f) && ReadsAs(stream, files) ==>
      TakeEntries(|files| + 1, EntryLine(f) + "\n" + stream).value.rest == TakeEntries(|files|, stream).value.rest
  {
    hide EntryLine, ParseEntry, TakeLine, TakeEntries, Print;
    var all := EntryLine(f) + "\n" + stream;
    TakesOneThenMore(|files|, all);
    assert |[f] + files| == |files| + 1 && ([f] + files)[1..] == files && ([f] + files)[0] == f;
    var line := TakeLine(all);
    EntryRoundTrip(f, stream);
    if TakeEntries(|files| + 1, all).Some? {
      var more := TakeEntries(|files|, line.value.rest).value.value;
      assert ([ParseEntry(line.value.text)] + more)[1..] == more;
    }
  }

  /** The entries come back exactly, in order, if and only if every one of them can be carried; and
      then nothing is consumed beyond them. */
  lemma {:induction false} EntriesRoundTrip(files: seq<MediaFileInfo>, rest: Bytes)
    ensures ReadsAs(EntryLines(files) + rest, files) <==> AllListable(files)
    ensures AllListable(files) ==> TakeEntries(|files|, EntryLines(files) + rest).value.rest == rest
  {
    hide EntryLine, ParseEntry, TakeLine, Listable;
    if files == [] {
      assert EntryLines(files) + rest == rest;
    } else {
      var f, more := files[0], files[1..];
      EntriesRoundTrip(more, rest);
      TakeOneMore(f, more, EntryLines(more) + rest);
      assert EntryLines(files) + rest == EntryLine(f) + "\n" + (EntryLines(more) + rest);
      assert files == [f] + more;
      assert AllListable(files) <==> Listable(f) && AllListable(more) by {
        assert forall i | 1 <= i < |files| :: files[i] == more[i - 1];
      }
    }
  }

  lemma StatusLine(d: Bytes, rest: Bytes)
    requires d != [] && AllDigits(d) && |d| <= 20
    ensures TakeLine("OK " + d + "\n" + rest) == Some(Line("OK " + d, rest))
    ensures ParseStatus("OK " + d) == Detail(d)
  {
    var line := "OK " + d;
    assert line[|line| - 1] == d[|d| - 1] && IsDigit(d[|d| - 1]);
    TakeLineOf(line, rest);
    assert line[3..] == d;
  }

  /** Status lines carry any 64-bit number. */
  lemma StatusRoundTrip(n: U64, rest: Bytes)
    ensures TakeLine("OK " + Print(n) + "\n" + rest) == Some(Line("OK " + Print(n), rest))
    ensures ParseStatus("OK " + Print(n)) == Detail(Print(n))
    ensures ExtractU64(Print(n)) == Extracted(n, true)
  {
    U64Length(n);
    StatusLine(Print(n), rest);
    DecimalAlone(n);
  }

  /** `do_list`'s reading of a whole LIST response. */
  function TakeCatalogue(stream: Bytes): Option<Decoded<seq<MediaFileInfo>>> {
    match TakeLine(stream)
    case None => None
    case Some(line) =>
      match ParseStatus(line.text)
      case Detail(text) => TakeEntries(ExtractU64(text).value, line.rest)
      case _ => None
  }

  /** `do_list` reads back what `build_list_response` printed, and stops where it ends, if and only
      if every name is listable. */
  lemma CatalogueRoundTrip(files: seq<MediaFileInfo>, rest: Bytes)
    requires |files| < TWO_64
    ensures var result := TakeCatalogue(ListResponse(files) + rest);
      && ((result.Some? && result.value.value == files) <==> AllListable(files))
      && (AllListable(files) ==> result.value.rest == rest)
  {
    hide Print, ParseStatus, ExtractU64, TakeEntries, TakeLine, AllListable;
    var more := EntryLines(files) + rest;
    assert ListResponse(files) + rest == "OK " + Print(|files|) + "\n" + more;
    StatusRoundTrip(|files|, more);
    EntriesRoundTrip(files, rest);
  }
}
