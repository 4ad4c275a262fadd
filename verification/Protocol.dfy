/** The server's half of the text protocol: parsing a request line, printing replies. */
module Protocol {
  import opened Text

  datatype CommandType = LIST | GET | QUIT | UNKNOWN

  datatype Request = Request(kind: CommandType, argument: Bytes)

  datatype MediaFileInfo = MediaFileInfo(filename: Bytes, size: U64)

  // ---------------------------------------------------------------- requests

  /** What `parse_request` makes of a line: its first word names the command in any case. */
  function Parse(raw: Bytes): Request {
    var line := Strip(raw);
    if line == [] then Request(UNKNOWN, [])
    else
      var word := Word(SkipSpace(line));
      Interpret(Upper(word), SkipSpace(line)[|word|..])
  }

  function Interpret(cmd: Bytes, rest: Bytes): Request {
    if cmd == "LIST" then Request(LIST, [])
    else if cmd == "GET" then Request(GET, Argument(rest))
    else if cmd == "QUIT" || cmd == "EXIT" || cmd == "CLOSE" then Request(QUIT, [])
    else Request(UNKNOWN, cmd)
  }

  /** The rest of the line after the command, trimmed. */
  function Argument(rest: Bytes): Bytes {
    var stream := SkipSpace(rest);
    Strip(stream[..NewlineAt(stream)])
  }

  lemma StripHead(s: Bytes)
    requires s != [] && IsSpace(s[0])
    ensures Strip(s) == Strip(s[1..])
  {
  }

  lemma StripLast(s: Bytes)
    requires s != [] && !IsSpace(s[0]) && IsSpace(s[|s| - 1])
    ensures Strip(s) == Strip(s[..|s| - 1])
  {
  }

  method Trim(str: Bytes) returns (r: Bytes)
    ensures r == Strip(str)
  {
    hide Strip;
    var start := 0;
    assert str[0..] == str;
    while start < |str| && IsSpace(str[start])
      invariant 0 <= start <= |str|
      invariant Strip(str[start..]) == Strip(str)
    {
      StripHead(str[start..]);
      assert str[start..][1..] == str[start + 1..];
      start := start + 1;
    }
    var end := |str|;
    assert str[start..end] == str[start..];
    while end > start && IsSpace(str[end - 1])
      invariant start <= end <= |str|
      invariant start < end ==> !IsSpace(str[start])
      invariant Strip(str[start..end]) == Strip(str)
    {
      StripLast(str[start..end]);
      assert str[start..end][..end - start - 1] == str[start..end - 1];
      end := end - 1;
    }
    r := str[start..end];
    StripStays(r);
  }

  lemma StripStays(s: Bytes)
    requires s != [] ==> !IsSpace(s[0]) && !IsSpace(s[|s| - 1])
    ensures Strip(s) == s
  {
  }

  method ParseRequest(rawLine: Bytes) returns (req: Request)
    ensures req == Parse(rawLine)
  {
    req := Request(UNKNOWN, []);
    var line := Trim(rawLine);
    if line == [] {
      return;
    }
    var stream := SkipSpace(line);
    var cmd := Word(stream);
    stream := stream[|cmd|..];
    cmd := Upper(cmd);
    if cmd == "LIST" {
      req := req.(kind := LIST);
    } else if cmd == "GET" {
      req := req.(kind := GET);
      stream := SkipSpace(stream);
      var filename := stream[..NewlineAt(stream)];
      filename := Trim(filename);
      req := req.(argument := filename);
    } else if cmd == "QUIT" || cmd == "EXIT" || cmd == "CLOSE" {
      req := req.(kind := QUIT);
    } else {
      req := req.(kind := UNKNOWN, argument := cmd);
    }
  }

  /** Outer white space never matters. */
  lemma OuterSpaceIgnored(pre: Bytes, raw: Bytes, post: Bytes)
    requires AllSpace(pre) && AllSpace(post)
    ensures Parse(pre + raw + post) == Parse(raw)
  {
    StripOuter(pre, raw, post);
  }

  /** The file names a client can ask for. */
  predicate Requestable(name: Bytes) { name != [] && Trimmed(name) && '\n' !in name }

  lemma ArgumentOf(gap: Bytes, name: Bytes)
    requires AllSpace(gap) && Requestable(name)
    ensures Argument(gap + name) == name
  {
    SkipSpaceOver(gap, name);
    assert SkipSpace(name) == name;
    NewlineAfter(name, []);
    assert name + [] == name;
    StripOuter([], name, []);
  }

  lemma CommandThenRest(cmd: Bytes, rest: Bytes)
    requires NoSpace(cmd) && cmd != [] && rest != [] && IsSpace(rest[0]) && !IsSpace(rest[|rest| - 1])
    ensures Parse(cmd + rest) == Interpret(Upper(cmd), rest)
  {
    var line := cmd + rest;
    assert line[0] == cmd[0] && line[|line| - 1] == rest[|rest| - 1];
    StripOuter([], line, []);
    assert SkipSpace(line) == line;
    WordOf(cmd, rest);
    assert line[|cmd|..] == rest;
  }

  /** Where the outer white space at the end begins. */
  function Core(s: Bytes): (k: nat)
    ensures k <= |s| && AllSpace(s[k..]) && (k > 0 ==> !IsSpace(s[k - 1]))
    decreases |s|
  {
    if s != [] && IsSpace(s[|s| - 1]) then
      var k := Core(s[..|s| - 1]);
      assert s[k..] == s[..|s| - 1][k..] + [s[|s| - 1]];
      k
    else |s|
  }

  lemma {:induction false} SkipThenStrip(s: Bytes)
    ensures Strip(SkipSpace(s)) == Strip(s)
    ensures '\n' !in s ==> '\n' !in SkipSpace(s)
  {
    if s != [] && IsSpace(s[0]) { SkipThenStrip(s[1..]); }
  }

  lemma NewlineNone(s: Bytes)
    requires '\n' !in s
    ensures s[..NewlineAt(s)] == s
  {
    assert NewlineAt(s) == |s|;
  }

  lemma ArgumentOfLine(rest: Bytes)
    requires '\n' !in rest
    ensures Argument(rest) == Strip(rest)
  {
    hide Strip, SkipSpace, NewlineAt;
    SkipThenStrip(rest);
    NewlineNone(SkipSpace(rest));
  }

  lemma BareCommand(cmd: Bytes)
    requires NoSpace(cmd) && cmd != []
    ensures Parse(cmd) == Interpret(Upper(cmd), [])
  {
    StripOuter([], cmd, []);
    WordOf(cmd, []);
    assert [] + cmd + [] == cmd && cmd + [] == cmd && SkipSpace(cmd) == cmd && cmd[|cmd|..] == [];
  }

  lemma BlankIsUnknown(raw: Bytes)
    requires AllSpace(raw)
    ensures Parse(raw) == Request(UNKNOWN, [])
  {
    assert raw == raw + [];
    StripBefore(raw, []);
  }

  lemma CoreDecides(cmd: Bytes, core: Bytes)
    requires NoSpace(cmd) && cmd != [] && (core != [] ==> IsSpace(core[0]) && !IsSpace(core[|core| - 1]))
    ensures Parse(cmd + core) == Interpret(Upper(cmd), core)
  {
    hide Parse, Interpret;
    if core == [] {
      BareCommand(cmd);
      assert cmd + core == cmd;
    } else {
      CommandThenRest(cmd, core);
    }
  }

  /** Every line that is not blank is decided by its first word, upper-cased: what follows the word
      matters to GET alone, whose argument is the rest without outer white space. */
  lemma CommandDecides(pre: Bytes, cmd: Bytes, rest: Bytes)
    requires AllSpace(pre) && NoSpace(cmd) && cmd != [] && (rest != [] ==> IsSpace(rest[0])) && '\n' !in rest
    ensures Parse(pre + (cmd + rest)) ==
      if Upper(cmd) == "GET" then Request(GET, Strip(rest))
      else if Upper(cmd) == "LIST" then Request(LIST, [])
      else if Upper(cmd) in {"QUIT", "EXIT", "CLOSE"} then Request(QUIT, [])
      else Request(UNKNOWN, Upper(cmd))
  {
    hide Parse, Argument, Strip, Core;
    var k := Core(rest);
    var core, post := rest[..k], rest[k..];
    assert pre + (cmd + core) + post == pre + (cmd + rest);
    OuterSpaceIgnored(pre, cmd + core, post);
    CoreDecides(cmd, core);
    ArgumentOfLine(core);
    StripAfter(core, post);
    assert core + post == rest;
  }

  /** A command word in any mix of cases, any white space around it and around the argument: the
      parser finds the same GET. */
  lemma GetAnyShape(pre: Bytes, cmd: Bytes, gap: Bytes, name: Bytes, post: Bytes)
    requires AllSpace(pre) && AllSpace(post) && AllSpace(gap) && gap != []
    requires NoSpace(cmd) && Upper(cmd) == "GET" && Requestable(name)
    ensures Parse(pre + (cmd + (gap + name)) + post) == Request(GET, name)
  {
    var rest := gap + name;
    assert |cmd| == 3 && rest[0] == gap[0] && rest[|rest| - 1] == name[|name| - 1];
    OuterSpaceIgnored(pre, cmd + rest, post);
    CommandThenRest(cmd, rest);
    ArgumentOf(gap, name);
  }

  lemma UpperSpells(cmd: Bytes, capitals: Bytes, smalls: Bytes)
    requires |capitals| == |smalls|
    requires forall i | 0 <= i < |capitals| :: 'A' <= capitals[i] <= 'Z' && smalls[i] as int == capitals[i] as int + 32
    ensures Upper(cmd) == capitals <==> Spells(cmd, capitals, smalls)
  {
    assert forall c: char :: 'A' <= ToUpper(c) <= 'Z' ==> c == ToUpper(c) || c as int == ToUpper(c) as int + 32;
  }

  /** The commands, letter by letter: every line that is not blank is decided by its first word, in any mix
      of cases. An unknown word is kept, with its small letters raised (`UpperLetters`). */
  lemma LettersDecide(pre: Bytes, cmd: Bytes, rest: Bytes)
    requires AllSpace(pre) && NoSpace(cmd) && cmd != [] && (rest != [] ==> IsSpace(rest[0])) && '\n' !in rest
    ensures Parse(pre + (cmd + rest)) ==
      if Spells(cmd, "GET", "get") then Request(GET, Strip(rest))
      else if Spells(cmd, "LIST", "list") then Request(LIST, [])
      else if Spells(cmd, "QUIT", "quit") || Spells(cmd, "EXIT", "exit") || Spells(cmd, "CLOSE", "close") then Request(QUIT, [])
      else Request(UNKNOWN, Upper(cmd))
  {
    hide Parse, Strip, Spells, Upper;
    CommandDecides(pre, cmd, rest);
    UpperSpells(cmd, "GET", "get");
    UpperSpells(cmd, "LIST", "list");
    UpperSpells(cmd, "QUIT", "quit");
    UpperSpells(cmd, "EXIT", "exit");
    UpperSpells(cmd, "CLOSE", "close");
  }

  /** A carriage return, a line feed, a blank, a tab: any of the codes 9 to 13, and 32. */
  predicate Blanks(s: Bytes) { forall i | 0 <= i < |s| :: 9 <= s[i] as int <= 13 || s[i] as int == 32 }

  lemma BlanksAreSpace(s: Bytes)
    ensures Blanks(s) <==> AllSpace(s)
  {
    forall i | 0 <= i < |s| ensures IsSpace(s[i]) <==> 9 <= s[i] as int <= 13 || s[i] as int == 32 { SpaceCodes(s[i]); }
  }

  /** GET in any case, any white space around it and around the name. */
  lemma GetInAnyCase(pre: Bytes, cmd: Bytes, gap: Bytes, name: Bytes, post: Bytes)
    requires Blanks(pre) && Blanks(post) && Blanks(gap) && gap != []
    requires |cmd| == 3 && cmd[0] in "gG" && cmd[1] in "eE" && cmd[2] in "tT" && Requestable(name)
    ensures Parse(pre + (cmd + (gap + name)) + post) == Request(GET, name)
  {
    hide Parse, Requestable, AllSpace, Blanks;
    BlanksAreSpace(pre);
    BlanksAreSpace(gap);
    BlanksAreSpace(post);
    SpelledGet(cmd);
    GetAnyShape(pre, cmd, gap, name, post);
  }

  lemma SpelledGet(cmd: Bytes)
    requires |cmd| == 3 && cmd[0] in "gG" && cmd[1] in "eE" && cmd[2] in "tT"
    ensures NoSpace(cmd) && Upper(cmd) == "GET"
  {
  }

  lemma PlainGet(name: Bytes)
    requires Requestable(name)
    ensures Parse("GET " + name) == Request(GET, name)
  {
    hide Parse;
    assert Upper("GET") == "GET";
    GetAnyShape([], "GET", " ", name, []);
    assert [] + ("GET" + (" " + name)) + [] == "GET " + name;
  }

  /** The client's "GET " + name + newline, received as a line and parsed, asks for exactly that
      name; the line is readable precisely when the name has at most 4091 bytes. */
  lemma RequestRoundTrip(name: Bytes, rest: Bytes)
    requires Requestable(name)
    ensures var line := TakeLine("GET " + name + "\n" + rest);
      && (line.Some? <==> |name| <= 4091)
      && (line.Some? ==> line.value == Line("GET " + name, rest) && Parse(line.value.text) == Request(GET, name))
  {
    var line := "GET " + name;
    assert line[|line| - 1] == name[|name| - 1];
    TakeLineOf(line, rest);
    PlainGet(name);
  }

  lemma ArgumentIsRequestable(rest: Bytes)
    ensures Argument(rest) == [] || Requestable(Argument(rest))
  {
    var stream := SkipSpace(rest);
    StripTrims(stream[..NewlineAt(stream)]);
    StripSubset(stream[..NewlineAt(stream)], '\n');
  }

  lemma GetArgument(cmd: Bytes, rest: Bytes)
    requires Interpret(cmd, rest).kind == GET
    ensures Interpret(cmd, rest).argument == Argument(rest)
  {
  }

  /** Re-printing and re-parsing a parsed GET changes nothing. */
  lemma ReprintReparse(raw: Bytes)
    requires Parse(raw).kind == GET && Parse(raw).argument != []
    ensures Requestable(Parse(raw).argument)
    ensures Parse("GET " + Parse(raw).argument) == Parse(raw)
  {
    var stream := SkipSpace(Strip(raw));
    var word := Word(stream);
    GetArgument(Upper(word), stream[|word|..]);
    ArgumentIsRequestable(stream[|word|..]);
    PlainGet(Parse(raw).argument);
  }

  // ---------------------------------------------------------------- replies

  function EntryLine(f: MediaFileInfo): Bytes { f.filename + " " + Print(f.size) }

  function EntryLines(files: seq<MediaFileInfo>): Bytes {
    if files == [] then [] else EntryLine(files[0]) + "\n" + EntryLines(files[1..])
  }

  function ListResponse(files: seq<MediaFileInfo>): Bytes {
    "OK " + Print(|files|) + "\n" + EntryLines(files)
  }

  function GetHeader(size: U64): Bytes { "OK " + Print(size) + "\n" }

  function ErrorResponse(message: Bytes): Bytes { "ERROR " + message + "\n" }

  function OkResponse(message: Bytes): Bytes { if message == [] then "OK\n" else "OK " + message + "\n" }

  lemma {:induction false} EntryLinesExtend(files: seq<MediaFileInfo>, f: MediaFileInfo)
    ensures EntryLines(files + [f]) == EntryLines(files) + EntryLine(f) + "\n"
  {
    hide EntryLine;
    if files == [] {
      assert (files + [f])[1..] == [];
    } else {
      assert (files + [f])[1..] == files[1..] + [f];
      EntryLinesExtend(files[1..], f);
    }
  }

  method BuildListResponse(files: seq<MediaFileInfo>) returns (oss: Bytes)
    ensures oss == ListResponse(files)
  {
    oss := "OK " + Print(|files|) + "\n";
    for i := 0 to |files|
      invariant oss == "OK " + Print(|files|) + "\n" + EntryLines(files[..i])
    {
      EntryLinesExtend(files[..i], files[i]);
      assert files[..i + 1] == files[..i] + [files[i]];
      oss := oss + (files[i].filename + " " + Print(files[i].size) + "\n");
    }
    assert files[..|files|] == files;
  }
}
