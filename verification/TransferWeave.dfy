/** The code's runs over a channel of any capacity: both ends at work at once, each making the calls its
script gives it. And what follows for the code: what its calls keep, and how many there can be. */
module TransferWeave {
  import opened Wrappers
  import opened Text
  import opened Protocol
  import opened Replies
  import opened Sockets
  import opened Sessions
  import opened Clients
  import opened ClientTheorems
  import opened Calls
  import opened Transfer
  import opened TransferTheorems
  import opened TransferProgress
  import opened TransferCode
  import opened TransferRuns
  import W = WorkerRefinement

  // ---------------------------------------------------------------- steps of the two ends commute

  /** Only a send asks how much the channel holds. */
  lemma CapacityOnlyForSends(p: Setup, capacity: nat, s: State, a: Action)
    requires ValidSetup(p) && capacity >= p.capacity
    ensures var r := Step(p, s, a); 
      r == Step(p.(capacity := capacity), s, a)
      || (r == None && a.ServerSend? && a.k <= |Pending(s.server)| && |s.channel| + a.k > p.capacity)
  {
    hide GetHeader, Receive, EndOfStream, ClientStep, AfterHeader;
  }

  /** A server's step leaves the client alone, and takes nothing out of the channel. */
  lemma ServerLeavesClient(p: Setup, s: State, a: Action, s': State)
    requires ValidSetup(p) && OfServer(a) && Step(p, s, a) == Some(s')
    ensures s'.client == s.client && s'.size == s.size && s'.out == s.out && s'.taken == s.taken && s.channel <= s'.channel
  {
  }

  /** A client's step leaves the server alone. */
  lemma ClientLeavesServer(p: Setup, s: State, a: Action, s': State)
    requires ValidSetup(p) && !OfServer(a) && Step(p, s, a) == Some(s')
    ensures s'.server == s.server && s'.total == s.total
    ensures OnWire(s') == OnWire(s)
  {
    hide AfterHeader;
    ClientStepKeeps(s);
    if a.ClientRecv? { assert s.channel == s.channel[..a.k] + s.channel[a.k..]; }
  }

  /** A client's step other than meeting the end of the stream is still possible after a server's, to
      the same effect, and the server's after it. */
  lemma Commute(p: Setup, s: State, a: Action, x: State, c: Action, s1: State)
    requires ValidSetup(p) && OfServer(a) && !OfServer(c) && !c.ClientEnd?
    requires Step(p, s, a) == Some(x) && Step(p, s, c) == Some(s1)
    ensures Step(p, x, c).Some? && Step(p, s1, a) == Step(p, x, c)
  {
    hide AfterHeader, GetHeader, Supplied, NextRead, Receive;
    ClientLeavesServer(p, s, c, s1);
    ServerLeavesClient(p, s, a, x);
    if c.ClientRecv? {
      AppendAndTake(s.channel, x.channel[|s.channel|..], c.k);
      ReceiveElsewhere(s, x, c.k);
    }
  }

  /** What the client does with bytes does not depend on what the server is at. */
  lemma ReceiveElsewhere(s: State, x: State, k: nat)
    requires 0 < k <= |s.channel| && s.channel <= x.channel
    requires x.client == s.client && x.size == s.size && x.out == s.out && x.taken == s.taken
    ensures Receive(x.(channel := x.channel[k..]), s.channel[..k])
      == Receive(s.(channel := s.channel[k..]), s.channel[..k]).(server := x.server, total := x.total, channel := x.channel[k..])
  {
    hide ParseStatus, ExtractU64;
  }

  /** Taking from the front of a channel and appending to it. */
  lemma AppendAndTake(channel: Bytes, more: Bytes, k: nat)
    requires k <= |channel|
    ensures (channel + more)[..k] == channel[..k] && (channel + more)[k..] == channel[k..] + more
  {
  }

  lemma {:induction false} CommuteAll(p: Setup, s: State, actions: seq<Action>, x: State, c: Action, s1: State)
    requires ValidSetup(p) && AllOf(true, actions) && !OfServer(c) && !c.ClientEnd?
    requires Transfer.Run(p, s, actions) == Some(x) && Step(p, s, c) == Some(s1)
    ensures Step(p, x, c).Some? && Transfer.Run(p, s1, actions) == Step(p, x, c)
    ensures ServerStops(p, s1, actions) == ServerStops(p, s, actions)
    decreases |actions|
  {
    hide Step;
    ClientLeavesServer(p, s, c, s1);
    if actions != [] {
      var next := Step(p, s, actions[0]).value;
      Commute(p, s, actions[0], next, c, s1);
      CommuteAll(p, next, actions[1..], x, c, Step(p, next, c).value);
    }
  }

  lemma {:induction false} ServerRunLeavesClient(p: Setup, s: State, actions: seq<Action>, s': State)
    requires ValidSetup(p) && AllOf(true, actions) && Transfer.Run(p, s, actions) == Some(s')
    ensures s'.client == s.client && s'.size == s.size && s'.out == s.out && s'.taken == s.taken && s.channel <= s'.channel
    ensures ClientCalls(actions) == []
    decreases |actions|
  {
    hide Step;
    if actions != [] {
      ServerLeavesClient(p, s, actions[0], Step(p, s, actions[0]).value);
      ServerRunLeavesClient(p, Step(p, s, actions[0]).value, actions[1..], s');
    }
  }

  lemma {:induction false} ClientRunLeavesServer(p: Setup, capacity: nat, s: State, actions: seq<Action>)
    requires ValidSetup(p) && capacity >= p.capacity && AllOf(false, actions)
    ensures Transfer.Run(p, s, actions) == Transfer.Run(p.(capacity := capacity), s, actions)
    ensures Transfer.Run(p, s, actions).Some? ==>
      var s' := Transfer.Run(p, s, actions).value;
      ServerStops(p, s, actions) == [] && ServerCalls(actions) == []
      && s'.server == s.server && OnWire(s') == OnWire(s)
    decreases |actions|
  {
    hide Step, OnWire;
    if actions != [] {
      CapacityOnlyForSends(p, capacity, s, actions[0]);
      if Step(p, s, actions[0]).Some? {
        var next := Step(p, s, actions[0]).value;
        ClientLeavesServer(p, s, actions[0], next);
        ClientRunLeavesServer(p, capacity, next, actions[1..]);
      }
    }
  }

  // ---------------------------------------------------------------- weaving

  /** No call moves more than this. */
  predicate AtMost(calls: seq<Outcome>, most: nat) { forall i | 0 <= i < |calls| :: calls[i].Moved? ==> calls[i].n <= most }

  /** The one end's sends and the other's receives fit the channel together: whenever it is too full for a
      send, it holds all that a receive is to take. */
  ghost predicate Fit(capacity: nat, sends: seq<Outcome>, receives: seq<Outcome>) {
    exists most: nat, atOnce: nat :: AtMost(sends, most) && AtMost(receives, atOnce) && most + atOnce <= capacity + 1
  }

  /** The server's next step is a send, for which the channel is too full. */
  predicate Blocked(p: Setup, s: State, rest: seq<Action>) {
    rest != [] && rest[0].ServerSend? && rest[0].k <= |Pending(s.server)| && |s.channel| + rest[0].k > p.capacity
  }

  /** The woven run makes all the client's calls, and the server's with their looks up to the rest, which the
      channel blocks; over the wider channel the rest would lead to where the two ends lead in turn. */
  ghost predicate Woven(p: Setup, capacity: nat, s: State, serving: seq<Action>, fetching: seq<Action>, end: State,
                        woven: seq<Action>, s': State, rest: seq<Action>)
    requires ValidSetup(p) && capacity >= p.capacity
  {
    var wide := p.(capacity := capacity);
    && Transfer.Run(p, s, woven) == Some(s') && Transfer.Run(wide, s, serving).Some?
    && Transfer.Run(wide, s', rest) == Some(end) && AllOf(true, rest) && (rest == [] || Blocked(p, s', rest))
    && ClientCalls(woven) == ClientCalls(fetching)
    && ServerCalls(woven) + ServerCalls(rest) == ServerCalls(serving)
    && ServerStops(p, s, woven) + ServerStops(wide, s', rest) == ServerStops(wide, s, serving)
  }

  lemma WovenServer(p: Setup, capacity: nat, s: State, a: Action, next: State, serving: seq<Action>, fetching: seq<Action>,
                    end: State, woven: seq<Action>, s': State, rest: seq<Action>)
    requires ValidSetup(p) && capacity >= p.capacity && OfServer(a) && Step(p, s, a) == Some(next)
    requires Woven(p, capacity, next, serving, fetching, end, woven, s', rest)
    ensures Woven(p, capacity, s, [a] + serving, fetching, end, [a] + woven, s', rest)
  {
    hide Step, ServerCall;
    var wide := p.(capacity := capacity);
    CapacityOnlyForSends(p, capacity, s, a);
    assert ([a] + serving)[1..] == serving && ([a] + woven)[1..] == woven;
    Regroup(ServerCall(a), ServerCalls(woven), ServerCalls(rest));
    var look := if a.ServerStop? then [true] else if a.ServerNext? && s.server.ChunkLoop? then [false] else [];
    Regroup(look, ServerStops(p, next, woven), ServerStops(wide, s', rest));
  }

  lemma WovenClient(p: Setup, capacity: nat, s: State, serving: seq<Action>, c: Action, next: State, fetching: seq<Action>,
                    end: State, woven: seq<Action>, s': State, rest: seq<Action>)
    requires ValidSetup(p) && capacity >= p.capacity && !OfServer(c) && Step(p, s, c) == Some(next)
    requires Transfer.Run(p.(capacity := capacity), s, serving).Some?
    requires Woven(p, capacity, next, serving, fetching, end, woven, s', rest)
    requires ServerStops(p.(capacity := capacity), next, serving) == ServerStops(p.(capacity := capacity), s, serving)
    ensures Woven(p, capacity, s, serving, [c] + fetching, end, [c] + woven, s', rest)
  {
    hide Step, ClientCall;
    assert ([c] + fetching)[1..] == fetching && ([c] + woven)[1..] == woven;
    assert ServerCall(c) + ServerCalls(woven) == ServerCalls(woven);
    assert [] + ServerStops(p, next, woven) == ServerStops(p, next, woven);
  }

  /** When a send has to wait, the client's next step can go first: what it is to receive has been sent. */
  lemma ClientFirst(p: Setup, capacity: nat, s: State, serving: seq<Action>, middle: State, c: Action, next: State, atOnce: nat)
    requires ValidSetup(p) && capacity >= p.capacity && AllOf(true, serving) && !OfServer(c)
    requires var wide := p.(capacity := capacity);
      Transfer.Run(wide, s, serving) == Some(middle) && Step(wide, middle, c) == Some(next)
    requires Blocked(p, s, serving) && (c.ClientRecv? ==> c.k <= atOnce) && atOnce + serving[0].k <= p.capacity + 1
    ensures !c.ClientEnd? && Step(p, s, c).Some?
  {
    hide Receive, EndOfStream, AfterHeader, ServerStep;
    var wide := p.(capacity := capacity);
    var next := Step(wide, s, serving[0]).value;
    ServerRunLeavesClient(wide, s, serving, middle);
    ServerRunLeavesClient(wide, next, serving[1..], middle);
  }

  lemma FirstSend(actions: seq<Action>, most: nat)
    requires actions != [] && AtMost(ServerCalls(actions), most)
    ensures AtMost(ServerCalls(actions[1..]), most) && (actions[0].ServerSend? ==> actions[0].k <= most)
  {
    FirstOf(ServerCall(actions[0]), ServerCalls(actions[1..]), most);
    assert actions[0].ServerSend? ==> ServerCall(actions[0])[0] == Moved(actions[0].k);
  }

  lemma FirstReceive(actions: seq<Action>, atOnce: nat)
    requires actions != [] && AtMost(ClientCalls(actions), atOnce)
    ensures AtMost(ClientCalls(actions[1..]), atOnce) && (actions[0].ClientRecv? ==> actions[0].k <= atOnce)
  {
    FirstOf(ClientCall(actions[0]), ClientCalls(actions[1..]), atOnce);
    assert actions[0].ClientRecv? ==> ClientCall(actions[0])[0] == Moved(actions[0].k);
  }

  lemma FirstOf(call: seq<Outcome>, calls: seq<Outcome>, most: nat)
    requires AtMost(call + calls, most)
    ensures AtMost(call, most) && AtMost(calls, most)
  {
    forall i | 0 <= i < |call| ensures call[i].Moved? ==> call[i].n <= most { assert (call + calls)[i] == call[i]; }
    forall i | 0 <= i < |calls| ensures calls[i].Moved? ==> calls[i].n <= most { assert (call + calls)[|call| + i] == calls[i]; }
  }

  /** Two ends that can do all their steps one after the other over a wider channel can do them woven over
      this one: the server first wherever there is room, and else the client. */
  lemma {:induction false} Weave(p: Setup, capacity: nat, s: State, serving: seq<Action>, middle: State,
                                 fetching: seq<Action>, end: State, most: nat, atOnce: nat)
      returns (woven: seq<Action>, s': State, rest: seq<Action>)
    requires ValidSetup(p) && capacity >= p.capacity && AllOf(true, serving) && AllOf(false, fetching)
    requires var wide := p.(capacity := capacity);
      Transfer.Run(wide, s, serving) == Some(middle) && Transfer.Run(wide, middle, fetching) == Some(end)
    requires capacity == p.capacity
      || (AtMost(ServerCalls(serving), most) && AtMost(ClientCalls(fetching), atOnce) && most + atOnce <= p.capacity + 1)
    ensures Woven(p, capacity, s, serving, fetching, end, woven, s', rest)
    decreases |serving| + |fetching|
  {
    hide Step, Woven, AtMost, ServerCalls, ClientCalls, ServerStops;
    var wide := p.(capacity := capacity);
    if serving == [] {
      woven, s', rest := fetching, end, [];
      WovenRest(p, capacity, s, fetching, end);
    } else {
      var a := serving[0];
      CapacityOnlyForSends(p, capacity, s, a);
      if capacity != p.capacity { FirstSend(serving, most); }
      if Step(p, s, a).Some? {
        var next := Step(p, s, a).value;
        woven, s', rest := Weave(p, capacity, next, serving[1..], middle, fetching, end, most, atOnce);
        WovenServer(p, capacity, s, a, next, serving[1..], fetching, end, woven, s', rest);
        assert [a] + serving[1..] == serving;
        woven := [a] + woven;
      } else if fetching == [] {
        woven, s', rest := [], s, serving;
        NoneWoven(p, capacity, s, serving, end);
      } else {
        var c := fetching[0];
        FirstReceive(fetching, atOnce);
        var beyond := Step(wide, middle, c).value;
        ClientFirst(p, capacity, s, serving, middle, c, beyond, atOnce);
        CapacityOnlyForSends(p, capacity, s, c);
        var next := Step(p, s, c).value;
        CommuteAll(wide, s, serving, middle, c, next);
        woven, s', rest := Weave(p, capacity, next, serving, beyond, fetching[1..], end, most, atOnce);
        WovenClient(p, capacity, s, serving, c, next, fetching[1..], end, woven, s', rest);
        assert [c] + fetching[1..] == fetching;
        woven := [c] + woven;
      }
    }
  }

  lemma WovenRest(p: Setup, capacity: nat, s: State, fetching: seq<Action>, end: State)
    requires ValidSetup(p) && capacity >= p.capacity && AllOf(false, fetching)
    requires Transfer.Run(p.(capacity := capacity), s, fetching) == Some(end)
    ensures Woven(p, capacity, s, [], fetching, end, fetching, end, [])
  {
    ClientRunLeavesServer(p, capacity, s, fetching);
  }

  lemma NoneWoven(p: Setup, capacity: nat, s: State, serving: seq<Action>, end: State)
    requires ValidSetup(p) && capacity >= p.capacity && AllOf(true, serving) && Blocked(p, s, serving)
    requires Transfer.Run(p.(capacity := capacity), s, serving) == Some(end)
    ensures Woven(p, capacity, s, serving, [], end, [], s, serving)
  {
    assert [] + ServerCalls(serving) == ServerCalls(serving);
    var looks := ServerStops(p.(capacity := capacity), s, serving);
    assert [] + looks == looks;
  }

  // ---------------------------------------------------------------- the code, over any channel

  lemma FirstLooks(stops: seq<bool>, looks: seq<bool>, more: seq<bool>)
    requires looks + more == W.Ahead(stops, |looks| + |more|, false)
    ensures looks == W.Ahead(stops, |looks|, false)
  {
    forall i | 0 <= i < |looks| ensures looks[i] == W.Ahead(stops, |looks|, false)[i] {
      assert (looks + more)[i] == looks[i];
    }
  }

  lemma WideNeverBlocks(p: Setup, s: State, rest: seq<Action>)
    requires Wide(p) && Inv(p, s)
    ensures !Blocked(p, s, rest)
  {
    hide Whole, Ahead;
    assert |s.taken| + |s.channel| + |Unsent(p, s)| == |Whole(p)|;
  }

  lemma AsWide(p: Setup, capacity: nat)
    ensures Initial(p.(capacity := capacity)) == Initial(p) && Whole(p.(capacity := capacity)) == Whole(p)
  {
  }

  /** Where a woven run ends, and where the two ends lead in turn. */
  lemma WovenEnds(p: Setup, capacity: nat, s: State, serving: seq<Action>, middle: State, fetching: seq<Action>, end: State,
                  woven: seq<Action>, s': State, rest: seq<Action>)
    requires ValidSetup(p) && capacity >= p.capacity && Woven(p, capacity, s, serving, fetching, end, woven, s', rest)
    requires AllOf(false, fetching) && Transfer.Run(p.(capacity := capacity), middle, fetching) == Some(end)
    ensures s'.client == end.client && s'.out == end.out
    ensures rest == [] ==> s'.server == middle.server && OnWire(s') == OnWire(middle) && ServerCalls(rest) == []
    ensures rest != [] ==>
      OnWire(s') <= OnWire(middle)
      && ServerCalls(rest) != [] && ServerCalls(rest)[0] == Moved(rest[0].k) && |s'.channel| + rest[0].k > p.capacity
  {
    hide Step, ServerStops, ClientCalls;
    var wide := p.(capacity := capacity);
    ServerRunLeavesClient(wide, s', rest, end);
    ClientRunLeavesServer(wide, capacity, middle, fetching);
  }

  lemma WovenLooks(p: Setup, capacity: nat, s: State, serving: seq<Action>, middle: State, fetching: seq<Action>, end: State,
                   woven: seq<Action>, s': State, rest: seq<Action>, stops: seq<bool>, stops': seq<bool>, calls: seq<Outcome>)
    requires ValidSetup(p) && capacity >= p.capacity && Woven(p, capacity, s, serving, fetching, end, woven, s', rest)
    requires Serves(p.(capacity := capacity), s, serving, middle, stops, stops', calls)
    ensures var looks := ServerStops(p, s, woven);
      && looks == W.Ahead(stops, |looks|, false)
      && (rest == [] ==> stops' == W.Beyond(stops, |looks|))
    ensures ServerCalls(woven) + ServerCalls(rest) == calls
  {
    hide Inv, Transfer.Run, ServerCalls, ClientCalls, AllOf;
    FirstLooks(stops, ServerStops(p, s, woven), ServerStops(p.(capacity := capacity), s', rest));
  }

  /** Whatever the scripts and the stops, and whatever the channel holds, as long as the calls the scripts
      allow fit it: the code of both ends at work at once is one run of the machine. The client makes all
      its calls and returns what its code returns. The server makes its calls, with its looks at
      is_active_, up to its end; or up to a send for which the channel stays too full, as the client
      has returned. */
  lemma TheCodeRunsTheTransfer(p: Setup, lib: Library, name: Bytes, stops: seq<bool>,
                               serverScript: seq<Turn>, clientScript: seq<Turn>)
      returns (actions: seq<Action>, s: State, waiting: seq<Outcome>)
    requires Supplies(p) && name != [] && name in lib.files && lib.files[name] == p.file && p.file.opens
    requires NoCuts(clientScript)
    requires var x := Session(true, stops, Sock(true, false, [], [], serverScript));
      var client := Sock(true, false, HandleGet(x, lib, p.chunk, name).sock.sent, [], clientScript);
      Wide(p) || Fit(p.capacity, ServeCalls(x, lib, p.chunk, Request(GET, name)), ReplyCalls(client))
    ensures Transfer.Run(p, Initial(p), actions) == Some(s)
    ensures var x := Session(true, stops, Sock(true, false, [], [], serverScript));
      var end := HandleGet(x, lib, p.chunk, name);
      var client := Sock(true, false, end.sock.sent, [], clientScript);
      var looks := ServerStops(p, Initial(p), actions);
      && ServerCalls(actions) + waiting == ServeCalls(x, lib, p.chunk, Request(GET, name))
      && ClientCalls(actions) == ReplyCalls(client)
      && looks == W.Ahead(stops, |looks|, false)
      && Returned(s) && Matches(ReceiveFile(client, true).1, s)
      && (if waiting == [] then ServerGone(s) && OnWire(s) == end.sock.sent && end.stops == W.Beyond(stops, |looks|)
          else OnWire(s) <= end.sock.sent && waiting[0].Moved? && |s.channel| + waiting[0].n > p.capacity)
    ensures Wide(p) ==> waiting == []
  {
    hide HandleGet, ReceiveFile, Inv, ServeCalls, ReplyCalls, Whole, Fit, AtMost, Initial,
      Transfer.Run, ServerCalls, ClientCalls, ServerStops, AllOf;
    var capacity := if Wide(p) then p.capacity else |Whole(p)|;
    var wide := p.(capacity := capacity);
    var serving: seq<Action>, middle: State, fetching: seq<Action>, end: State, rest: seq<Action>;
    AsWide(p, capacity);
    serving, middle, fetching, end := TheCodeRunsInTurn(wide, lib, name, stops, serverScript, clientScript);
    actions, s, rest := WeaveThese(p, capacity, Initial(p), serving, middle, fetching, end);
    WovenEnds(p, capacity, Initial(p), serving, middle, fetching, end, actions, s, rest);
    var x := Session(true, stops, Sock(true, false, [], [], serverScript));
    WovenLooks(p, capacity, Initial(p), serving, middle, fetching, end, actions, s, rest,
      stops, HandleGet(x, lib, p.chunk, name).stops, ServeCalls(x, lib, p.chunk, Request(GET, name)));
    waiting := ServerCalls(rest);
    if Wide(p) { WovenWide(p, s, actions, rest); }
    assert [] + middle.channel == middle.channel;
  }

  lemma WeaveThese(p: Setup, capacity: nat, s: State, serving: seq<Action>, middle: State, fetching: seq<Action>, end: State)
      returns (woven: seq<Action>, s': State, rest: seq<Action>)
    requires ValidSetup(p) && capacity >= p.capacity && AllOf(true, serving) && AllOf(false, fetching)
    requires var wide := p.(capacity := capacity);
      Transfer.Run(wide, s, serving) == Some(middle) && Transfer.Run(wide, middle, fetching) == Some(end)
    requires capacity == p.capacity || Fit(p.capacity, ServerCalls(serving), ClientCalls(fetching))
    ensures Woven(p, capacity, s, serving, fetching, end, woven, s', rest)
  {
    hide Woven, AtMost, AllOf, Transfer.Run, ServerCalls, ClientCalls;
    var most: nat, atOnce: nat :| capacity == p.capacity
      || (AtMost(ServerCalls(serving), most) && AtMost(ClientCalls(fetching), atOnce) && most + atOnce <= p.capacity + 1);
    woven, s', rest := Weave(p, capacity, s, serving, middle, fetching, end, most, atOnce);
  }

  lemma WovenWide(p: Setup, s: State, woven: seq<Action>, rest: seq<Action>)
    requires Wide(p) && Transfer.Run(p, Initial(p), woven) == Some(s) && (rest == [] || Blocked(p, s, rest))
    ensures rest == []
  {
    hide Inv, Transfer.Run, Initial, Blocked;
    InitialInv(p);
    RunKeeps(p, Initial(p), woven, s);
    WideNeverBlocks(p, s, rest);
  }

  // ---------------------------------------------------------------- what that says of the code's calls

  function Sum(counts: seq<nat>): nat { if counts == [] then 0 else counts[0] + Sum(counts[1..]) }

  lemma {:induction false} SumSplit(a: seq<nat>, b: seq<nat>)
    ensures Sum(a + b) == Sum(a) + Sum(b)
  {
    if a == [] {
      assert a + b == b;
    } else {
      assert (a + b)[1..] == a[1..] + b;
      SumSplit(a[1..], b);
    }
  }

  /** How many bytes the calls have moved. */
  function MovedBy(calls: seq<Outcome>): nat { Sum(Counts(calls)) }

  lemma MovedByMore(calls: seq<Outcome>, more: seq<Outcome>)
    ensures MovedBy(calls + more) == MovedBy(calls) + MovedBy(more)
  {
    hide Counts, Sum;
    CountsSplit(calls, more);
    SumSplit(Counts(calls), Counts(more));
  }

  lemma MovedByOne(call: Outcome)
    ensures MovedBy([call]) == (if call.Moved? then call.n else 0) && MovedBy([]) == 0
  {
    CountsOne(call);
    if call.Moved? {
      assert [call.n][1..] == [];
      assert Sum([call.n]) == call.n;
    }
  }

  /** What a step's calls move is what it puts into the channel and takes out of it. */
  lemma StepMoves(p: Setup, s: State, a: Action, s': State)
    requires ValidSetup(p) && Step(p, s, a) == Some(s')
    ensures |OnWire(s')| == |OnWire(s)| + MovedBy(ServerCall(a))
    ensures |s'.taken| == |s.taken| + MovedBy(ClientCall(a))
  {
    hide AfterHeader, MovedBy;
    MovedByOne(Retry);
    match a
    case ServerSend(k) => MovedByOne(Moved(k));
    case ClientRecv(k) => MovedByOne(Moved(k));
    case ClientEnd => MovedByOne(Moved(0));
    case ServerFail => MovedByOne(Error);
    case ClientFail => MovedByOne(Error);
    case _ => ClientStepKeeps(s);
  }

  lemma {:induction false} RunMoves(p: Setup, s: State, actions: seq<Action>, s': State)
    requires ValidSetup(p) && Transfer.Run(p, s, actions) == Some(s')
    ensures |OnWire(s')| == |OnWire(s)| + MovedBy(ServerCalls(actions))
    ensures |s'.taken| == |s.taken| + MovedBy(ClientCalls(actions))
    decreases |actions|
  {
    hide Step, OnWire, MovedBy, ServerCall, ClientCall;
    MovedByOne(Retry);
    if actions != [] {
      var next := Step(p, s, actions[0]).value;
      StepMoves(p, s, actions[0], next);
      RunMoves(p, next, actions[1..], s');
      MovedByMore(ServerCall(actions[0]), ServerCalls(actions[1..]));
      MovedByMore(ClientCall(actions[0]), ClientCalls(actions[1..]));
    }
  }

  /** After every single step, and so after every call: the server has made the first of its calls and the
      client the first of its, what the one's have moved is on the wire and what the other's have moved is
      taken; bytes taken, in flight and unsent make up the reply; and what has been written is right. */
  lemma HoldsAtEveryCall(p: Setup, actions: seq<Action>, s: State, i: nat) returns (now: State)
    requires ValidSetup(p) && Transfer.Run(p, Initial(p), actions) == Some(s) && i <= |actions|
    ensures Transfer.Run(p, Initial(p), actions[..i]) == Some(now) && Inv(p, now)
    ensures ServerCalls(actions[..i]) <= ServerCalls(actions) && ClientCalls(actions[..i]) <= ClientCalls(actions)
    ensures |now.taken| + |now.channel| == MovedBy(ServerCalls(actions[..i])) && |now.taken| == MovedBy(ClientCalls(actions[..i]))
    ensures now.taken + now.channel + Unsent(p, now) == Whole(p)
  {
    hide Step, Inv, ServerCalls, ClientCalls, MovedBy, Initial;
    RunTo(p, Initial(p), actions, i);
    now := Transfer.Run(p, Initial(p), actions[..i]).value;
    InitialInv(p);
    RunKeeps(p, Initial(p), actions[..i], now);
    assert Conserved(p, now) by { ItConserves(p, now); }
    RunMoves(p, Initial(p), actions[..i], now);
    CallsSplit(actions[..i], actions[i..]);
    assert actions[..i] + actions[i..] == actions;
    assert OnWire(Initial(p)) == [] by { NothingYet(p); }
  }

  lemma ItConserves(p: Setup, s: State)
    requires Inv(p, s)
    ensures Conserved(p, s)
  {
  }

  lemma NothingYet(p: Setup)
    ensures OnWire(Initial(p)) == [] && Initial(p).taken == []
  {
  }

  lemma {:induction false} RunTo(p: Setup, s: State, actions: seq<Action>, i: nat)
    requires ValidSetup(p) && Transfer.Run(p, s, actions).Some? && i <= |actions|
    ensures Transfer.Run(p, s, actions[..i]).Some?
    decreases i
  {
    hide Step;
    if i > 0 {
      assert actions[..i][1..] == actions[1..][..i - 1];
      RunTo(p, Step(p, s, actions[0]).value, actions[1..], i - 1);
    }
  }

  /** The calls that were not interrupted. */
  function Landed(calls: seq<Outcome>): nat {
    if calls == [] then 0 else (if calls[0].Retry? then 0 else 1) + Landed(calls[1..])
  }

  lemma {:induction false} LandedSplit(a: seq<Outcome>, b: seq<Outcome>)
    ensures Landed(a + b) == Landed(a) + Landed(b)
  {
    if a == [] {
      assert a + b == b;
    } else {
      assert (a + b)[1..] == a[1..] + b;
      LandedSplit(a[1..], b);
    }
  }

  lemma {:induction false} LandedIsEffective(actions: seq<Action>)
    ensures Landed(ServerCalls(actions)) + Landed(ClientCalls(actions)) <= Effective(actions)
  {
    if actions != [] {
      LandedSplit(ServerCall(actions[0]), ServerCalls(actions[1..]));
      LandedSplit(ClientCall(actions[0]), ClientCalls(actions[1..]));
      LandedIsEffective(actions[1..]);
    }
  }

  /** However long the scripts, handle_get and do_get together make boundedly many calls that are not
      interrupted; and their calls move just the bytes that are sent, and no more than that. */
  lemma CallsAreBounded(p: Setup, lib: Library, name: Bytes, stops: seq<bool>, serverScript: seq<Turn>, clientScript: seq<Turn>)
    requires Supplies(p) && name != [] && name in lib.files && lib.files[name] == p.file && p.file.opens
    requires NoCuts(clientScript)
    ensures var x := Session(true, stops, Sock(true, false, [], [], serverScript));
      var sent := HandleGet(x, lib, p.chunk, name).sock.sent;
      var sends := ServeCalls(x, lib, p.chunk, Request(GET, name));
      var receives := ReplyCalls(Sock(true, false, sent, [], clientScript));
      && Landed(sends) + Landed(receives) <= Measure(p, Initial(p)) == 6 * |Whole(p)| + 4
      && MovedBy(sends) == |sent| && MovedBy(receives) <= |sent|
  {
    hide HandleGet, ServeCalls, ReplyCalls, Whole, Measure, Landed, MovedBy, Transfer.Run, Effective, Inv, ServerCalls, ClientCalls;
    var wide := p.(capacity := |Whole(p)| + 1);
    AsWide(p, |Whole(p)| + 1);
    var actions, s, waiting := TheCodeRunsTheTransfer(wide, lib, name, stops, serverScript, clientScript);
    assert ServerCalls(actions) + [] == ServerCalls(actions);
    LandedIsEffective(actions);
    InitialInv(wide);
    RunIsBounded(wide, Initial(p), actions, s);
    MeasureOfAny(p, |Whole(p)| + 1, Initial(p));
    FirstMeasure(p);
    RunMoves(wide, Initial(p), actions, s);
    NothingYet(p);
  }

  lemma MeasureOfAny(p: Setup, capacity: nat, s: State)
    ensures Measure(p.(capacity := capacity), s) == Measure(p, s)
  {
  }

  lemma FirstMeasure(p: Setup)
    ensures Measure(p, Initial(p)) == 6 * |Whole(p)| + 4
  {
    hide Supplied, Print;
    assert Supplied(p.file)[0..] == Supplied(p.file);
  }
}
