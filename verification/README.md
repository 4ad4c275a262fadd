# Verification of the media streaming server

A Dafny model of the multi-client TCP media server and its client, with proofs about the bytes they
exchange, the threads they run, the files they reach and the descriptors they own.
`dafny verify dfyconfig.toml` checks everything.

## What is modelled

**The streaming stack.** A socket is driven by a script: one turn for each system call, saying what
another thread did to the socket just before and what the call meets (a partial transfer, EINTR, a
timeout, a reset, the end of the stream). `Sockets` holds the loops of `send_all`, `recv_line` and
`recv_all` as functions of such scripts, `SocketClass` the class that runs them, `SocketTheorems` what
they guarantee under every script. `Sessions`, `SessionClass` and `SessionTheorems` do the same for
`ClientSession`, `Clients`, `ClientTheorems`, `Downloads` and `Listings` for the client; `Asking` is what the
client itself sends, and both commands end to end. `Transfer`,
`TransferTheorems` and `TransferProgress` put both ends of one GET and the bounded channel between them
into one machine whose steps interleave freely; `TransferCode` shows its runs to be runs of the code.
`Calls` lists the system calls the code's loops make with their results, `TransferRuns` shows these calls
to be the machine's, one by one, and `TransferWeave` does so with both ends at work at once over a channel
of any capacity, and draws from it what the code's calls keep and how many there can be.

**The text protocol.** `Text`, `Protocol`, `Replies` and `Framing`: printers, parsers, and exactly when
they are inverse, up to whole pipelined sessions, which `FrameReader` reads off a socket; `Dialogues` is a
dialogue byte for byte. `SessionFragility` settles exactly when the response stream survives every failure.

**The threads.** `Lifecycle` is the accept loop, any number of callers of `Server::stop` and one worker
thread for each session as a machine of atomic steps; `LifecycleInvariant` and `LifecycleTheorems` prove
what every interleaving keeps and why shutdown ends, `LifecycleHistories` what cleanup and stop do to a
session over a run, and `Projection` what a single session sees of it.
`WorkerRefinement` connects the layers: every run of the session code is a run of that machine's worker,
moved by nothing but the session's own stops and script. `Fleet` is the whole server: these threads, with
every session answering its client's request stream out of one library, chunk by chunk, and `FleetCode`
shows that every run of the session code is a run of one of its workers, beat by beat. `FleetShutdown`
is why it shuts down. `Servers` is the imperative registry.

**Files and descriptors.** `Paths` (lexical containment), `Catalogues` (the sorted listing),
`FileManagers` (the class, and why nothing outside the root is served), `Descriptors` and
`SocketHandles` (move-only ownership of descriptors).

Assumptions: shared variables are sequentially consistent, and each operation on a Socket's descriptor
(closing it in particular) is one step; `Server::stop` runs on threads other than the one it interrupts;
a `char` is one byte; the filesystem does not change while the server runs; a script is finite, and past
its end every call fails.

## What the proofs say about the code

Where a property one would expect is false, the exact condition is proved instead.

- The registry need not be empty after shutdown. A connection accepted before `stop()` and inserted
  after it leaves one worker that nobody stops or joins (`LateWorkerExists`, `LateWorkerStays`); never
  more than one, and one exactly if the accept loop held a connection when `stop()` took the mutex
  (`AtMostOneLateWorker`). The server's own README promises a graceful join on
  shutdown (in its lines 15 and 82); the destructor of the server would then meet a joinable thread.
- The session ignores whether an error reply could be sent. After a send that times out half-way it goes
  on, and the next reply starts inside the cut one. The response stream is a prefix of the right answers
  under all scripts if and only if no error reply is followed by another reply (`PrefixIffNotFragile`);
  if send failures are sticky it always is (`SentIsPrefix`).
- A file that yields fewer bytes than its reported size leaves the session active. A reply can be cut out
  of the stream if and only if the file supplies what was announced and the listed names can be carried
  (`FrameRoundTrip`, `StreamRoundTrip`).
- `do_get` and `do_list` end with `std::out_of_range`, not an error message, exactly if the reply ends
  after its "OK" (`ThrowsIffOnlyOk`, `ListThrowsIffOnlyOk`).
- `do_list` reports success on a truncated reply exactly if it is cut right after "OK ", or in the last
  entry's line after at least one byte of it; for an empty catalogue, right after "OK " or "OK 0"
  (`CutListAccepted`, `CutListVerdict`, `EmptyListingBelieved`). What it shows then is the catalogue
  exactly if that is empty, or only the last newline is missing, or the last size is zero and the last
  name has arrived (`CutListIsRight`, `ListingIsFaithful`).
- Names with white space, and lines beyond recv_line's limit, do not survive a listing
  (`EntriesRoundTrip`).
- One failing stat ends the listing loop at the next entry, so that the catalogue depends on the order in
  which the directory is read, exactly if such an entry sits beside one that could be listed
  (`CatalogueOrder`).
- Containment also refuses names below the root whose first component begins with two dots
  (`InsideIsContainment`).

## Model

| member | source | states |
|---|---|---|
| `LifecycleInvariant.StepKeeps` | src/Server.cpp:91-174 | every atomic step of any thread keeps the invariant: one winner of the compare-exchange, mutual exclusion, the late bound, custody of every worker, the listener shut down and then closed, and each registered session treated in order: compare-exchange, shutdown, close |
| `LifecycleInvariant.RunKeeps` | src/Server.cpp:91-174 | so does every interleaved run |
| `LifecycleInvariant.WorkerStepKeeps` | src/ClientSession.cpp:38-76 | without a stop a session only goes from active to inactive; a worker whose socket is closed or that is ending stays so |
| `LifecycleTheorems.WorkersConserved` | src/Server.cpp:91-174 | in every reachable state each session issued is held by the accept loop, registered, or joined and removed after its end, in exactly one of the three; the registry is strictly increasing in session id |
| `LifecycleTheorems.JoinedExactlyOnce` | src/Server.cpp:136-138 | no thread is joined twice, whichever of cleanup and any stop reaches it; a join finds the thread ended; no other step changes who was joined |
| `LifecycleTheorems.RegistryLosesOnlyJoined` | src/Server.cpp:139-170 | whatever leaves the registry has been joined |
| `LifecycleTheorems.CleanupIsStableFilter` | src/Server.cpp:132-144 | interleaved with all other threads, the erasing loop leaves the stable filter of the registry by the activity it observed |
| `LifecycleTheorems.AtMostOneLateWorker` | src/Server.cpp:92-126 | after the flag is cleared at most one worker is registered; once the registry has been cleared and the accept loop holds nothing, it is empty if and only if no connection was held when stop took the mutex |
| `LifecycleTheorems.AllJoinedButLate` | src/Server.cpp:163-170 | when stop is done every session has ended and been joined, but for the one late session, which was held when stop took the mutex |
| `LifecycleTheorems.LateWorkerStays` | src/Server.cpp:120-170 | a worker inserted after the clear is never joined or removed in any continuation |
| `LifecycleTheorems.StopOvertakesInsertion` | src/Server.cpp:99-120 | a reachable state in which stop has finished while an accepted connection is still to be inserted |
| `LifecycleTheorems.LateWorkerExists` | src/Server.cpp:120-170 | a reachable end of accept loop and stop with one running, unjoined worker in the registry |
| `LifecycleTheorems.ReapedIsPastNetwork` | src/Server.cpp:132-144 | whenever cleanup joins a thread, that thread is past its last recv and send |
| `LifecycleTheorems.PastNetworkForGood` | src/ClientSession.cpp:42-75 | and stays past them in every continuation |
| `LifecycleTheorems.WorkerWeight` | src/ClientSession.cpp:38-76 | each step of a stopped worker brings it nearer the end of run, even when the flag set at the start of run overwrote the stop |
| `LifecycleTheorems.MeasureFalls` | src/Server.cpp:146-170 | a measure no step raises falls with every step stop can be waiting for |
| `LifecycleTheorems.StopNeverStuck` | src/Server.cpp:156-170 | until stop has returned one of those steps is enabled: joining under the mutex cannot deadlock |
| `LifecycleTheorems.ShutdownTerminates` | src/Server.cpp:146-174 | every run takes at most Measure such steps, and one that takes that many has ended stop |
| `LifecycleTheorems.StopReturns` | src/Server.cpp:146-174 | from every reachable state in which the server is not running: boundedly many counted steps, one of them enabled until stop returns, and then all sessions joined but the late one |
| `LifecycleHistories.CleanupReaps` | src/Server.cpp:111-144 | a registered worker whose session is inactive when a connection is accepted has been joined and removed when the cleanup for that connection is over, in every run |
| `LifecycleHistories.CleanupSpares` | src/Server.cpp:132-144 | one whose session is active when the cursor reaches it stays registered to the end of that cleanup, in every run |
| `LifecycleHistories.StopShutsDown` | src/ClientSession.cpp:29-36 | in every reachable state in which stop is past a session, the session has been shut down and closed, shut down before it was closed; or it had ended by itself and was not touched |
| `LifecycleHistories.StopOfOne` | src/ClientSession.cpp:29-36 | undisturbed, the machine's stop of one session makes an active one inactive, shuts it down and closes it, and leaves an inactive one as it is |
| `LifecycleHistories.EndedIsLeftAlone` | src/ClientSession.cpp:29-36 | a session that has ended by itself is never shut down, in any run |
| `LifecycleHistories.AcceptEndsByStop` | src/Server.cpp:91-104 | the accept loop ends only after a stop, not on an error of accept alone; the listener is shut down before it is closed, and closed when stop takes the mutex |
| `Projection.StepProjects` | src/Server.cpp:91-174 | a step of any thread changes a session by that session's own event - a step of its worker, an access of stop, its start, its join - or not at all |
| `Projection.RunProjects` | src/Server.cpp:91-174 | non-interference on the shared machine: in any run, each session goes through its own events alone, whatever all others do |
| `Projection.EventsAreLegitimate` | src/Server.cpp:156-170 | accesses and joins by stop come from the one stop that won, of a registered session; nothing happens to a session that has been joined |
| `Projection.WorkersCommute` | src/ClientSession.cpp:38-76 | steps of two workers neither enable, disable nor change each other |
| `WorkerRefinement.StopIsMoves` | src/ClientSession.cpp:29-36 | what stop does to an active session is a stop seen at a look and a socket closed at a call |
| `WorkerRefinement.ServeGoes` | src/ClientSession.cpp:50-70 | each handler is a run of the worker through its own looks and calls, ended by the one choice that says how it went |
| `WorkerRefinement.EndingTells` | src/ClientSession.cpp:50-70 | that choice is Sent only if the whole answer was sent, Failed only if it was not, Quiet only for a stream that a stop ended |
| `WorkerRefinement.RunRefinesWorker` | src/ClientSession.cpp:38-76 | every run of the session code is a run of the machine's worker whose choices are the commands received and how each was answered, in order, and in which the flags are otherwise moved by the session's own stops and its script's turns alone, in order |
| `WorkerRefinement.LeftAloneRefines` | src/ClientSession.cpp:38-76 | if no other thread touches the session, nothing but its own steps lowers its flag or closes its socket |
| `Servers.CleanedConserves` | src/Server.cpp:132-144 | cleanup keeps every id issued in one place: registered or joined |
| `Servers.AdmittedConserves` | src/Server.cpp:109-125 | so does admitting a connection |
| `Servers.AdmissionsConserve` | src/Server.cpp:91-130 | so does the accept loop through any sequence of rounds |
| `Servers.EmptiedJoinsAll` | src/Server.cpp:156-170 | after stop every id issued has been joined exactly once, but for the session the accept loop may hold |
| `Servers.CleanedExactly` | src/Server.cpp:132-144 | a cleanup joins exactly the workers it sees inactive and keeps exactly the others, each in registry order |
| `Servers.AdmissionsExactly` | src/Server.cpp:91-130 | each connection taken before the loop ends gets the next id and is registered last; at the end exactly those workers are registered that no cleanup since has seen inactive |
| `Servers.EmptiedStopsAll` | src/Server.cpp:156-170 | stop stops every registered session and joins every registered thread, in registry order, after those before |
| `Servers.Server.CleanupFinishedSessions` | src/Server.cpp:132-144 | the erase-while-iterating loop computes the stable filter and joins the dropped threads in order, none twice |
| `Servers.Server.AcceptLoop` | src/Server.cpp:91-130 | the loop computes Admissions of its rounds and ends with the flag false; it has issued one id for each connection, accounts for every id, and has registered exactly those that no cleanup since has seen inactive |
| `Servers.Server.Stop` | src/Server.cpp:146-174 | the first call closes the listener, stops every registered session in order, only then joins their threads in order, and clears the registry; later calls change nothing |
| `SocketClass.Socket.SendAll` | src/Socket.cpp:156-187 | the loop computes SendAll under every script |
| `SocketClass.Socket.SendString` | src/Socket.cpp:189-191 | likewise for a string |
| `SocketClass.Socket.RecvAll` | src/Socket.cpp:193-220 | the loop computes RecvAll and puts exactly the received bytes at the head of the buffer |
| `SocketClass.Socket.RecvLine` | src/Socket.cpp:222-253 | the loop computes RecvLine under every script |
| `SocketClass.Socket.Shutdown` | src/Socket.cpp:255-259 | breaks the connection of an open socket and keeps the descriptor |
| `SocketClass.Socket.Close` | src/Socket.cpp:261-266 | gives up the descriptor |
| `SocketTheorems.SendAllSound` | src/Socket.cpp:156-187 | a prefix of the data is sent, all of it if true is returned, never all of it if false is; a dead socket takes nothing |
| `SocketTheorems.RecvAllSound` | src/Socket.cpp:193-220 | the buffer holds exactly the next bytes of the stream, of the full length exactly if 1 is returned |
| `SocketTheorems.RecvAllExact` | src/Socket.cpp:193-220 | 1 and the next bytes when nothing fails and there are enough, 0 and all there were when the stream ends before; 0 never without the end of the connection, -1 at once on a closed socket |
| `SocketTheorems.RecvLineSound` | src/Socket.cpp:222-253 | a line delivered is the stream's next line and exactly it was consumed, unless the connection broke |
| `SocketTheorems.SendAllCompletes` | src/Socket.cpp:156-187 | if calls only transfer or are interrupted, everything is sent |
| `SocketTheorems.RecvLineExact` | src/Socket.cpp:222-253 | if calls only transfer or are interrupted, the result is exactly TakeLine of the stream: newline, end of stream and limit |
| `SocketTheorems.RecvLinesSplit` | src/Socket.cpp:222-253 | repeated calls split a concatenation of any number of valid lines, whatever follows, back into them and consume nothing else |
| `SocketTheorems.CrLfLineReceived` | src/Socket.cpp:240-244 | a line that ends in a carriage return and a newline arrives without either |
| `Text.TakeLineOf` | src/Socket.cpp:227-252 | a terminated line is taken, less one carriage return, exactly if it is shorter than 4096 bytes |
| `Text.TakeCrLfLine` | src/Socket.cpp:240-244 | exactly one carriage return before the newline is taken off |
| `Text.TakeLastLine` | src/Socket.cpp:235-238 | an unterminated rest is taken as it is, unless empty or too long |
| `Text.TakeLineTooLong` | src/Socket.cpp:250-252 | 4096 bytes without a newline fail |
| `Text.StripOuter` | src/Protocol.cpp:9-19 | trim ignores outer white space and keeps a trimmed string |
| `Text.DecimalRoundTrip` | src/client_main.cpp:115-117 | printing and extracting are inverse for every 64-bit number, whatever non-digit follows |
| `Text.PrintDigits` | src/Protocol.cpp:55-75 | numbers are printed in decimal notation, digit by digit |
| `Text.SignedNumbers` | src/client_main.cpp:115-117 | extracting a number with a sign or of more than 64 bits, and of no number: the minus sign negates modulo 2^64, the others fail with the largest value and with zero |
| `Text.UpperLetters` | src/Protocol.cpp:33-35 | a small letter is raised to the capital at its place in the alphabet, every other byte is kept |
| `Protocol.Trim` | src/Protocol.cpp:9-19 | the index loops compute Strip |
| `Protocol.ParseRequest` | src/Protocol.cpp:21-53 | the extraction from the stream computes Parse |
| `Protocol.BuildListResponse` | src/Protocol.cpp:55-62 | the printing loop computes ListResponse |
| `Protocol.OuterSpaceIgnored` | src/Protocol.cpp:23 | outer white space never changes a request |
| `Protocol.BlankIsUnknown` | src/Protocol.cpp:22-26 | a blank line is UNKNOWN with no argument |
| `Protocol.CommandDecides` | src/Protocol.cpp:28-50 | every other line is decided by its first word in upper case; what follows matters to GET alone, as the rest of the line trimmed |
| `Protocol.LettersDecide` | src/Protocol.cpp:28-50 | the same letter by letter: the first word spells GET, LIST, QUIT, EXIT or CLOSE in any mix of cases, or the line is unknown |
| `Protocol.GetInAnyCase` | src/Protocol.cpp:28-44 | g or G, e or E, t or T, any bytes 9 to 13 or 32 around the command and the name: a GET of that name |
| `Protocol.GetAnyShape` | src/Protocol.cpp:28-44 | GET in any mix of cases, with any white space around command and name, asks for the same name |
| `Protocol.RequestRoundTrip` | src/client_main.cpp:97 | the client's request line is readable exactly if the name has at most 4091 bytes, and then parses to that name |
| `Protocol.ReprintReparse` | src/Protocol.cpp:39-44 | printing a parsed GET and parsing it again changes nothing |
| `Replies.EntryRoundTrip` | src/client_main.cpp:70-73 | an entry's line, whatever its name, is read back exactly if the name is non-empty, without white space, and the line fits |
| `Replies.EntriesRoundTrip` | src/client_main.cpp:63-73 | all entries come back in order exactly if every one of them does |
| `Replies.StatusRoundTrip` | src/client_main.cpp:110-117 | a status line carries every 64-bit number |
| `Replies.CatalogueRoundTrip` | src/Protocol.cpp:55-62 | do_list's parsing inverts build_list_response exactly if every entry is listable, and stops at its end |
| `Framing.FrameRoundTrip` | src/Protocol.cpp:55-77 | one reply, followed by anything, is read back as meant exactly if it frames itself, and nothing is read beyond it |
| `Framing.StreamRoundTrip` | src/Protocol.cpp:55-77 | a whole response stream is recovered exactly if every reply frames itself, whatever bytes the bodies hold |
| `Framing.PipelinedSession` | src/ClientSession.cpp:38-76 | when nothing fails, what run sends cuts into exactly the replies to the requests received |
| `FrameReader.FrameIsRead` | src/client_main.cpp:42-79 | reading one reply off a socket with recv_line and recv_all, through partial receives and interruptions, takes just what TakeFrame takes off the stream |
| `FrameReader.FramesAreRead` | src/Socket.cpp:193-253 | so does reading the replies to any sequence of requests |
| `FrameReader.PipelineIsRead` | src/ClientSession.cpp:38-76 | from session to client over sockets at both ends: when nothing fails, the client reads exactly the replies meant, and nothing is left |
| `SessionClass.ClientSession.constructor` | src/ClientSession.cpp:11-23 | a session starts active; a chunk size of 0 becomes the default |
| `SessionClass.ClientSession.Stop` | src/ClientSession.cpp:29-36 | only the call that finds the session active shuts down and closes the socket |
| `SessionClass.ClientSession.Run` | src/ClientSession.cpp:38-76 | the loop computes Sessions.Run under every script and stop |
| `SessionClass.ClientSession.Answer` | src/ClientSession.cpp:50-70 | the switch computes Serve |
| `SessionClass.ClientSession.HandleList` | src/ClientSession.cpp:78-87 | sends the catalogue; ends the session if that fails |
| `SessionClass.ClientSession.HandleGet` | src/ClientSession.cpp:89-143 | refuses, or sends the header and streams the file |
| `SessionClass.ClientSession.StreamFile` | src/ClientSession.cpp:123-143 | the chunk loop over one reused buffer computes StreamLoop |
| `SessionTheorems.StreamLoopSound` | src/ClientSession.cpp:127-143 | whatever the chunk size and the failures, the chunk loop sends a prefix of what the file supplies, all of it unless the session is over |
| `SessionTheorems.ReadsAreChunks` | src/ClientSession.cpp:127-133 | every read of the chunk loop fills the chunk but for the last, and the loop reads as long as the file supplies something |
| `SessionTheorems.ServeAnswers` | src/ClientSession.cpp:50-70 | each handler sends a prefix of the one answer to its request |
| `SessionTheorems.DeadSendsNothing` | src/ClientSession.cpp:42-71 | once the socket is dead the session sends nothing more |
| `SessionTheorems.SentIsPrefix` | src/ClientSession.cpp:38-143 | what is sent is a prefix of the answers in order, under every script, with sticky send failures or unless an error reply is followed by another reply |
| `SessionTheorems.SentInPieces` | src/ClientSession.cpp:38-143 | with no assumption on failures: what is sent is, in order, a beginning of the answer to each request, and nothing else |
| `Dialogues.TestedLines` | tests/test_streaming.cpp:61-81 | what the tests expect of the parser and the printers |
| `Dialogues.Dialogue` | src/ClientSession.cpp:38-143 | a dialogue with every command, every error and a file of any contents, byte for byte, when nothing fails |
| `SessionTheorems.SentIsEverything` | src/ClientSession.cpp:38-143 | and all of the answers when nothing fails |
| `SessionFragility.CutAt` | src/ClientSession.cpp:68-94 | a script that corrupts the stream at any given error reply that is not the last reply |
| `SessionFragility.PrefixIffNotFragile` | src/ClientSession.cpp:38-143 | the prefix property holds under all scripts and stops if and only if no error reply is followed by another reply |
| `ClientMain.DoGet` | src/client_main.cpp:86-172 | the code computes Clients.DoGet: verdict, output file, socket; it sends the GET line before it reads, and after success alone "QUIT" |
| `ClientMain.ReceiveBody` | src/client_main.cpp:131-155 | the receive loop over one reused buffer computes GetLoop |
| `ClientMain.DoList` | src/client_main.cpp:36-84 | the code computes Clients.DoList: verdict, entries shown, socket; it sends the LIST line before it reads, and after success alone "QUIT" |
| `ClientMain.ReceiveEntries` | src/client_main.cpp:63-79 | the loop over the announced count computes ListLoop |
| `ClientTheorems.GetLoopSound` | src/client_main.cpp:136-155 | the output is always the head of the stream; complete exactly on success, else a multiple of 65536 bytes |
| `ClientTheorems.LineReceived` | src/client_main.cpp:105 | a line received on an undisturbed socket is the stream's next line |
| `ClientTheorems.CutNumber` | src/client_main.cpp:115-117 | a size cut short after some digit reads as zero exactly if it is zero |
| `ClientTheorems.FileIsFaithful` | src/client_main.cpp:103-171 | with the connection ending anywhere and any call failing: true means the whole body was written; otherwise an output file is a proper prefix, a multiple of 65536 long |
| `Downloads.RefusalIsSeen` | src/client_main.cpp:110-113 | an error reply, however much of it arrives, never creates an output file |
| `Downloads.AnswersAreFaithful` | src/client_main.cpp:86-172 | a client delivered any prefix of the right answers gets the file it asked for or knows that it has not |
| `Downloads.DeliveredIsFaithful` | src/client_main.cpp:105-171 | for a session whose stream begins with the request, and any delivered part of what it has sent: true means the server's file byte for byte, and a refused request never creates a file |
| `Downloads.GetLoopCompletes` | src/client_main.cpp:136-155 | when no call fails the receive loop gets the whole body |
| `Downloads.DownloadSucceeds` | src/client_main.cpp:103-171 | a complete reply and no failing call give true and the whole body |
| `Downloads.ThrowsIffOnlyOk` | src/client_main.cpp:115 | substr(3) throws exactly if the reply ends after its "OK" |
| `Listings.ListVerdict` | src/client_main.cpp:42-83 | what is shown on success is what TakeCatalogue reads; when nothing fails, true exactly if there is such a catalogue |
| `Listings.CutListIsRight` | src/client_main.cpp:63-79 | a truncated reply that is accepted shows the catalogue exactly if this is empty, or only the last newline is missing, or the last size is zero and the last name has arrived |
| `Listings.ListingIsRight` | src/client_main.cpp:36-84 | of any part of the reply, or more than it, what do_list reports as the listing is the catalogue exactly then |
| `Listings.DeliveredListIsFaithful` | src/client_main.cpp:36-84 | end to end, with any part of what the session has sent delivered: a successful listing is the server's catalogue, in order, exactly then |
| `Listings.CutListAccepted` | src/client_main.cpp:53-68 | a truncated reply is accepted exactly if cut right after "OK " or after some of its last line, the last line of an empty catalogue beginning after its "OK " |
| `Listings.CutListVerdict` | src/client_main.cpp:36-84 | and if no call fails, do_list returns true on a truncated reply exactly then |
| `Listings.ListThrowsIffOnlyOk` | src/client_main.cpp:53 | substr(3) throws in do_list exactly if the reply ends after its "OK" |
| `Listings.EmptyListingBelieved` | src/client_main.cpp:53-83 | a reply ending after "OK " shows an empty catalogue and reports success |
| `Asking.DoGetAsks` | src/client_main.cpp:86-172 | do_get sends a beginning of "GET " name newline "QUIT" newline; all of the request before it reads or returns more than plain failure; of the rest something only after success; nothing without its directory; and no file without creating one |
| `Asking.DoListAsks` | src/client_main.cpp:36-84 | do_list likewise with "LIST" |
| `Asking.DoGetCompletes` | src/client_main.cpp:86-172 | when nothing fails do_get sends both lines whole, saves the whole body, and reads nothing beyond the reply |
| `Asking.DoListCompletes` | src/client_main.cpp:36-84 | when nothing fails do_list sends both lines whole and shows the whole catalogue |
| `Asking.DownloadIsFaithful` | src/client_main.cpp:86-172 | end to end: a session that reads exactly what do_get sends, under any script and any stop with no assumption on send failures, and any delivered part of what it has sent: true means the server's file byte for byte, a failed download leaves a proper prefix cut at a multiple of 65536, and a refused request never creates a file |
| `Asking.ListingIsFaithful` | src/client_main.cpp:36-84 | the same for do_list: a successful listing is the catalogue exactly if enough of the reply has arrived |
| `TransferTheorems.StepConserves` | src/ClientSession.cpp:113-143 | every step of either end keeps: consumed ++ in flight ++ still to be sent is header ++ body |
| `TransferTheorems.StepKeeps` | src/client_main.cpp:105-155 | every step keeps this and the client's books: what it has written is what it has consumed after the header |
| `TransferTheorems.TransferIsSafe` | src/ClientSession.cpp:113-143 | in every interleaving, for every chunk size and capacity: conservation, and the verdict is right about the output file |
| `TransferProgress.SomeStepEnabled` | src/Socket.cpp:156-220 | until both ends are done or one failed, some productive step is enabled, with any capacity of at least one byte |
| `TransferProgress.MeasureFalls` | src/Socket.cpp:156-220 | every step but an interruption lowers a measure over unsent and in-flight bytes |
| `TransferProgress.RunIsBounded` | src/Socket.cpp:156-220 | so a run has boundedly many of them |
| `TransferProgress.TransferEnds` | src/client_main.cpp:136-155 | every run can go on productively until the file is saved whole, or some call failed |
| `TransferCode.ServerRunsTheCode` | src/ClientSession.cpp:113-143 | every run of the step machine is a script and stops under which handle_get has sent just what is on the wire |
| `TransferCode.ClientRunsTheCode` | src/client_main.cpp:103-171 | every run in which do_get returns is a script under which its code returns the same verdict and has written the same bytes |
| `TransferCode.TransferRunsTheCode` | src/client_main.cpp:103-171 | both ends at once, the client's code reading from what the server's code has sent |
| `TransferRuns.ServerCodeRuns` | src/ClientSession.cpp:113-143 | whatever the script and the stops, handle_get for a file that opens is a run of the machine's server alone: its calls of ::send with their results, in order, are the machine's, and its looks at is_active_ too; the channel holds the whole reply |
| `TransferRuns.ClientCodeRuns` | src/client_main.cpp:103-171 | whatever the script of a client whose socket no other thread touches, reading what a finished server has left in the channel is a run of the machine's client alone: its calls of ::recv with their results are the machine's, and verdict and file are the same; the file supplies the announced size |
| `TransferRuns.TheCodeRunsInTurn` | src/client_main.cpp:103-171 | both, the client after the server, as one run, under the conditions of both |
| `TransferWeave.Commute` | src/Socket.cpp:156-220 | a step of the client other than meeting the end of the stream can be taken before or after a step of the server, to the same effect |
| `TransferWeave.Weave` | src/Socket.cpp:156-220 | two ends that can take their steps in turn over a wide channel can take them interleaved over a narrow one, the client all of its, the server its up to a send for which the channel stays too full |
| `TransferWeave.TheCodeRunsTheTransfer` | src/client_main.cpp:103-171 | every pair of scripts is one run of the machine over a channel of any capacity that their calls fit, or that holds the reply: the calls of both ends with their results and the looks at is_active_ are the machine's, one by one, and verdict and file are the code's; the server has made all its calls, or waits, with the client gone, in a ::send for which the channel is too full; the file supplies its size and only the client's own thread touches its socket |
| `TransferWeave.HoldsAtEveryCall` | src/ClientSession.cpp:113-143 | at every step of such a run the server has made the first of its calls and the client the first of its, what they have moved is what is on the wire and what is taken, and consumed ++ in flight ++ still to be sent is the reply |
| `TransferWeave.CallsAreBounded` | src/Socket.cpp:156-220 | however long the scripts, handle_get and do_get make at most six calls for each byte of the reply and four more that are not interrupted; the server's move just the bytes sent and the client's no more |
| `Fleet.StepUnderneath` | src/Server.cpp:91-174 | every step of the whole server is a step of its threads' machine, or a send that this machine does not see |
| `Fleet.WorkerCanGoOn` | src/ClientSession.cpp:38-76 | a worker that has started and not ended is never stuck |
| `FleetShutdown.CountedIsEnabled` | src/Server.cpp:146-174 | a step of the accept loop, of stop() or of a worker whose end no longer depends on the network is possible in the whole server, whatever the worker's connection holds, when it is possible for the threads |
| `FleetShutdown.StopReturns` | src/Server.cpp:146-174 | in every run of the whole server after a stop() has won, the steps it may wait for are bounded, one of them is enabled until it has returned, and then every worker has been joined but for at most one held at the lock |
| `Fleet.SessionsDoNotInterfere` | src/ClientSession.cpp:38-143 | in any run of the whole server, with one library, one registry and any number of sessions and stops, each session's part is a run of that session alone on its own request stream |
| `Fleet.BeginsTheAnswer` | src/ClientSession.cpp:50-128 | what a handler sends first by its own decisions, and then reads from the file, is the answer to its request |
| `Fleet.SoloStepKeeps` | src/ClientSession.cpp:38-143 | each step of a session - reading a request, a partial send, reading a chunk of the file, ending a handler, a stop - keeps: sent, pending, unread of the file and still to be answered make up all its answers as long as its connection lives |
| `Fleet.EverySessionIsFramed` | src/ClientSession.cpp:38-143 | in every state of the whole server every session has sent a prefix of the answers to its own client, all of them when it waits for a request that never comes |
| `FleetCode.RunIsAWorkers` | src/ClientSession.cpp:38-143 | every run of the session code, under every script with sticky send failures and every stop, is a run of such a worker: its accesses by stop are the stops seen and the cuts of the turns, its choices the commands received and how each was answered, all in the code's order, its pushes what the calls of ::send move, and it ends with the same bytes sent |
| `FleetCode.LeftAloneIsAWorkers` | src/ClientSession.cpp:38-143 | and if no other thread touches the session, a run of the worker alone |
| `Fleet.EveryClientIsServed` | src/client_main.cpp:86-172 | every client among any number of others that is delivered any part of what its session has sent gets its file or knows that it has not |
| `Fleet.EveryDoGetIsServed` | src/client_main.cpp:86-172 | and with the stream that the client's own do_get sends |
| `Paths.InsideIsContainment` | src/FileManager.cpp:54-59 | the test on the lexically relative path (section 30.10.8.4.11 [fs.path.gen] of ISO/IEC 14882:2017, with the library issues LWG 3070 and LWG 3096 resolved) accepts exactly the paths with the root as prefix whose next component does not begin with ".." |
| `Paths.SafePathsAreContained` | src/FileManager.cpp:31-64 | a path is yielded exactly for a non-empty relative name without NUL that resolves to a contained path |
| `Paths.RelativeLeadsBack` | src/FileManager.cpp:55 | root / relative path normalises back to the candidate, inside the root or not |
| `Catalogues.SortSorts` | src/FileManager.cpp:94-96 | sorting keeps the entries and puts them in strictly ascending order of name |
| `Catalogues.LessByFirstDifference` | src/FileManager.cpp:94-96 | the order of names is by the first differing byte, a proper prefix being less |
| `Catalogues.AscendingIsUnique` | src/FileManager.cpp:94-96 | there is only one such arrangement, so the sorting algorithm does not matter |
| `Catalogues.CatalogueIsSorted` | src/FileManager.cpp:66-99 | the catalogue is what the loop collected, strictly ascending by name |
| `Catalogues.CatalogueHolds` | src/FileManager.cpp:74-92 | the catalogue holds exactly the regular files whose name does not begin with a dot, with their sizes, of the entries before the first about which the filesystem cannot be asked |
| `Catalogues.CatalogueOrder` | src/FileManager.cpp:74-92 | the catalogue is independent of the directory's order exactly if no entry has a stat error or none could be listed |
| `FileManagers.CollectFiles` | src/FileManager.cpp:74-92 | the filling loop, with its error code and its skipping of dotfiles, computes Listed |
| `FileManagers.FileManager.ResolvePath` | src/FileManager.cpp:31-64 | lets a name through exactly if it is a relative one without NUL whose canonical path is the root or lies below it, not through a component that begins with ".."; and yields that path |
| `FileManagers.LibraryHolds` | src/FileManager.cpp:111-144 | the library holds exactly the names that are let through to a regular file whose size is told, with that size and its bytes, and the root's catalogue |
| `FileManagers.FileManager.GetFileSize` | src/FileManager.cpp:111-128 | tells a size exactly for the names of the library the sessions work on |
| `FileManagers.FileManager.OpenBinaryFile` | src/FileManager.cpp:130-144 | opens a regular file exactly if its name is safe and it can be read; for the names of the library this is what the sessions take it to be |
| `FileManagers.FileManager.ListFiles` | src/FileManager.cpp:66-99 | returns the library's catalogue, empty if the root is no directory |
| `FileManagers.OutsideIsInvisible` | src/FileManager.cpp:31-64 | two filesystems that agree at and below the root, and in which names lead there and to what, make every session do the same: nothing outside the root can reach a client |
| `Descriptors.StepKeeps` | src/Socket.cpp:14-42 | construction, moves, close and destruction keep: one owner for each open descriptor, openings matched by closings |
| `Descriptors.DescriptorsAreOwned` | src/Socket.cpp:14-42 | over any sequence of operations each open descriptor has exactly one live owner, and when all sockets are destroyed each descriptor opened was closed exactly once |
| `Descriptors.OnlyItsOwnerCloses` | src/Socket.cpp:26-33 | a descriptor is closed exactly by closing, destroying or assigning over its owner; otherwise it stays open with its heir |
| `Descriptors.DescriptorFollowsItsMoves` | src/Socket.cpp:14-42 | over any run a descriptor that is not closed stays with the heirs of its owner: it changes hands by moves alone |
| `Descriptors.MovedFromOwnsNothing` | src/Socket.cpp:22-33 | a socket moved from, closed or destroyed owns no descriptor, and can close none, through any run until something is moved into it |
| `SocketHandles.Socket.Move` | src/Socket.cpp:22-24 | the move constructor is the machine's operation |
| `SocketHandles.Socket.Create` | src/Socket.cpp:35-42 | create_tcp and accept likewise, with or without a descriptor |
| `SocketHandles.Socket.Assign` | src/Socket.cpp:26-33 | move assignment likewise, onto itself as well |
| `SocketHandles.Socket.Close` | src/Socket.cpp:261-266 | close likewise: the kernel is asked once, and not again |
| `SocketHandles.Socket.Destruct` | src/Socket.cpp:18-20 | the destructor likewise |

## Left out

- System calls (`socket`, `bind`, `listen`, `setsockopt`, `connect`, `getpeername`) beyond the results of
  `send`, `recv`, `accept` and `close`; failing to start the server; `FileManager::init`.
- The signal handler, which runs `stop()` on the interrupted thread; weak memory; races on `fd_` within
  one operation, and reuse of a closed descriptor's number by another thread in between.
- Starting the same Server object twice; its destructor, which with a late worker destroys a joinable thread.
- Wrap-around of the 64-bit session id, and of `total_received * 100` in the progress display.
- Log and console output, durations, throughput, command-line parsing, scripts, tests.
- Timeout durations: a timeout is an error result the environment may choose.
- Failing writes to the client's output file, which `do_get` does not check; the parameter
  `out_bytes_sent` of `send_all`, which no caller passes.
- How `std::sort` works: only its result, which is unique.
- A directory iterator that fails between entries; symbolic links and `weakly_canonical` beyond the
  normalised path they yield.
- `file_exists`, which no modelled operation calls, and `UNKNOWN`'s argument, which is only logged.
- A send that times out but is followed by one that succeeds is outside `Fleet`; it is the subject of
  `SessionFragility`.
- A directory that `open_binary_file` opens like a file: no handler gets that far, since
  `get_file_size` has refused it.
- LifecycleTheorems.AtMostOneLateWorker: says when a late worker remains instead of that none does,
  because the code does not meet none (`LifecycleTheorems.LateWorkerExists`).
- TransferWeave.TheCodeRunsTheTransfer: over a channel smaller than the reply it takes scripts in which the
  most one ::send moves and the most one ::recv moves are together at most one byte more than the channel
  holds. Otherwise the server's next send can be too big for the channel and the client's next receive too
  big for what is in it: such a pair of scripts need be no run of two ends over that channel.
- Servers.Server.AcceptLoop: takes what other threads do as parameters; all interleavings are in module
  Lifecycle only.
