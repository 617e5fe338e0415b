/** The prototype client (`rust/src/bin/proto_client.rs`): how it reacts to each message, and how much
    of the Rust daemon's answer it reads before it stops. */
module ProtoClient {
  import opened Options
  import opened Framing
  import opened RustProtocol
  import opened RustTasks

  datatype Verdict = Continue | End

  /** `handle_message` of the client, without its output. */
  function React(m: Msg): Verdict {
    match m
    case ProcessLaunched(_) => Continue
    case TCPSocketListening(_) => Continue
    case ExecveTerminated(_, _, _) => Continue
    case ChildCreationError(_) => End
    case ProcessTerminated(_, _) => End
    case SocketWatched(_) => Continue
    case SocketWatchTerminated(_, _) => Continue
    case InotifyPathUpdated(_, _, _, _) => Continue
  }

  /** How many of the messages the client handles: up to and including the first that ends it. */
  function Handled(ms: seq<Msg>): (n: nat)
    ensures n <= |ms|
    ensures forall i :: 0 <= i < n - 1 ==> React(ms[i]) == Continue
    ensures n < |ms| ==> 0 < n && React(ms[n - 1]) == End
  {
    if ms == [] then 0
    else if React(ms[0]) == End then 1
    else 1 + Handled(ms[1..])
  }

  /** The count is the position of the first ending message, whatever follows it. */
  lemma {:induction false} HandledAt(ms: seq<Msg>, more: seq<Msg>, n: nat)
    requires n < |ms| && React(ms[n]) == End
    requires forall i :: 0 <= i < n ==> React(ms[i]) == Continue
    ensures Handled(ms + more) == n + 1
  {
    assert (ms + more)[0] == ms[0];
    if n > 0 {
      HandledAt(ms[1..], more, n - 1);
      assert (ms + more)[1..] == ms[1..] + more;
    }
  }

  /** The client stops at the first error or termination, and at nothing else that the daemon sends. */
  lemma HandledExactly(ms: seq<Msg>)
    ensures forall i :: 0 <= i < Handled(ms) - 1 ==> !ms[i].ChildCreationError? && !ms[i].ProcessTerminated?
    ensures Handled(ms) < |ms| ==>
              Handled(ms) > 0 && (ms[Handled(ms) - 1].ChildCreationError? || ms[Handled(ms) - 1].ProcessTerminated?)
  {
    assert forall m: Msg :: React(m) == End <==> m.ChildCreationError? || m.ProcessTerminated?;
  }

  // ----- the receive loop -----

  function Parsed(parse: bytes -> Msg, ms: seq<bytes>): (r: seq<Msg>)
    ensures |r| == |ms| && forall i :: 0 <= i < |ms| ==> r[i] == parse(ms[i])
  {
    if ms == [] then [] else [parse(ms[0])] + Parsed(parse, ms[1..])
  }

  /** The messages in the complete frames of a stream. */
  function Incoming(parse: bytes -> Msg, stream: bytes): seq<Msg> {
    Parsed(parse, Decode(stream).messages)
  }

  lemma IncomingHead(parse: bytes -> Msg, stream: bytes)
    requires !Incomplete(stream)
    ensures Incoming(parse, stream) == [parse(Head(stream))] + Incoming(parse, Tail(stream))
    ensures Decode(stream).rest == Decode(Tail(stream)).rest
  {
    assert Decode(stream).messages[1..] == Decode(Tail(stream)).messages;
  }

  lemma HandledHead(m: Msg, ms: seq<Msg>)
    ensures Handled([m] + ms) == if React(m) == End then 1 else 1 + Handled(ms)
  {
    assert ([m] + ms)[1..] == ms;
  }

  /** The loop has handled `handled`, none of which ended it, and `rest` is still to be read. */
  ghost predicate Reached(parse: bytes -> Msg, stream: bytes, handled: seq<Msg>, rest: bytes) {
    var all := Incoming(parse, stream);
    && all == handled + Incoming(parse, rest)
    && Handled(all) == |handled| + Handled(Incoming(parse, rest))
    && Decode(rest).rest == Decode(stream).rest
  }

  /** One turn of the loop: the next message moves from the stream to the handled ones. */
  lemma Advance(parse: bytes -> Msg, stream: bytes, handled: seq<Msg>, rest: bytes)
    requires !Incomplete(rest) && Reached(parse, stream, handled, rest)
    ensures var m, all := parse(Head(rest)), Incoming(parse, stream);
            if React(m) == End then all[..Handled(all)] == handled + [m]
            else Reached(parse, stream, handled + [m], Tail(rest))
  {
    IncomingHead(parse, rest);
    AdvanceOver(Incoming(parse, stream), handled, parse(Head(rest)), Incoming(parse, Tail(rest)));
  }

  lemma AdvanceOver(all: seq<Msg>, handled: seq<Msg>, m: Msg, later: seq<Msg>)
    requires all == handled + ([m] + later) && Handled(all) == |handled| + Handled([m] + later)
    ensures all == handled + [m] + later
    ensures if React(m) == End then all[..Handled(all)] == handled + [m]
            else Handled(all) == |handled + [m]| + Handled(later)
  {
    HandledHead(m, later);
  }

  /** The receive loop on a byte stream: one frame after the other until a message ends it.  `ended` is
      false when the stream ran out first. */
  method Receive(stream: bytes, parse: bytes -> Msg) returns (handled: seq<Msg>, rest: bytes, ended: bool)
    ensures handled == Incoming(parse, stream)[..Handled(Incoming(parse, stream))]
    ensures ended <==> handled != [] && React(handled[|handled| - 1]) == End
    ensures !ended ==> handled == Incoming(parse, stream) && rest == Decode(stream).rest
  {
    handled, rest, ended := [], stream, false;
    while !Incomplete(rest)
      invariant !ended
      invariant Reached(parse, stream, handled, rest)
      invariant handled != [] ==> React(handled[|handled| - 1]) == Continue
      decreases |rest|
    {
      var m := parse(Head(rest));
      Advance(parse, stream, handled, rest);
      rest := Tail(rest);
      handled := handled + [m];
      if React(m) == End {
        ended := true;
        return;
      }
    }
    assert Incoming(parse, rest) == [];
  }

  // ----- composed with the daemon -----

  /** The watch's second message ends the client: always for a path, on failure for a port. */
  predicate EndsClient(w: Watch, r: WatchResult) {
    w.InotifyWatch? || r.WatchFailed?
  }

  /** The first watch that ends the client; the number of watches when none does. */
  function FirstEnding(watches: seq<Watch>, results: seq<WatchResult>, i: nat := 0): (k: nat)
    requires i <= |watches| == |results|
    ensures i <= k <= |watches|
    ensures forall j :: i <= j < k ==> !EndsClient(watches[j], results[j])
    ensures k < |watches| ==> EndsClient(watches[k], results[k])
    decreases |watches| - i
  {
    if i == |watches| || EndsClient(watches[i], results[i]) then i else FirstEnding(watches, results, i + 1)
  }

  /** How many messages of the response to a command the client handles. */
  function StopsAfter(watches: seq<Watch>, o: Outcome): nat
    requires o.OfRun? && |o.results| == |watches|
  {
    if o.spawn.SpawnError? then 2
    else
      var k := FirstEnding(watches, o.results);
      if k < |watches| then 2 + 2 * (k + 1) else 3 + 2 * |watches|
  }

  lemma ConclusionEnds(w: Watch, r: WatchResult)
    requires Suits(w, r)
    ensures React(Announcement(w)) == Continue
    ensures React(Conclusion(w, r)) == End <==> EndsClient(w, r)
  {
  }

  /** The watch reports in a response follow its first two messages. */
  lemma ReportAt(path: string, watches: seq<Watch>, o: Outcome, i: nat)
    requires Matches(RunCommand(path, watches), o) && i < 2 * |watches|
    ensures var w, r := watches[i / 2], o.results[i / 2];
            Response(RunCommand(path, watches), o)[2 + i] == if i % 2 == 0 then Announcement(w) else Conclusion(w, r)
  {
    var reports := WatchReports(watches, o.results, |watches|);
    assert Response(RunCommand(path, watches), o)[2 + i] == reports[i];
    assert i == 2 * (i / 2) || i == 2 * (i / 2) + 1;
  }

  lemma ContinuesAt(path: string, watches: seq<Watch>, o: Outcome, i: nat)
    requires Matches(RunCommand(path, watches), o)
    requires i < 2 * |watches| && i <= 2 * FirstEnding(watches, o.results)
    ensures React(Response(RunCommand(path, watches), o)[2 + i]) == Continue
  {
    var j, k := i / 2, FirstEnding(watches, o.results);
    assert j < k || (j == k && i % 2 == 0);
    ReportAt(path, watches, o, i);
    ConclusionEnds(watches[j], o.results[j]);
  }

  lemma EndsAt(path: string, watches: seq<Watch>, o: Outcome)
    requires Matches(RunCommand(path, watches), o)
    ensures var r, n := Response(RunCommand(path, watches), o), StopsAfter(watches, o);
            0 < n <= |r| && React(r[n - 1]) == End
  {
    var k := FirstEnding(watches, o.results);
    if !o.spawn.SpawnError? && k < |watches| {
      ReportAt(path, watches, o, 2 * k + 1);
      ConclusionEnds(watches[k], o.results[k]);
    }
  }

  lemma ContinuesBefore(path: string, watches: seq<Watch>, o: Outcome, i: nat)
    requires Matches(RunCommand(path, watches), o) && i < StopsAfter(watches, o) - 1
    ensures i < ResponseLength(RunCommand(path, watches))
    ensures React(Response(RunCommand(path, watches), o)[i]) == Continue
  {
    if i >= 2 { ContinuesAt(path, watches, o, i - 2); }
  }

  /** No message before the stopping point ends the client, and the one there does. */
  lemma StopsThere(path: string, watches: seq<Watch>, o: Outcome)
    requires Matches(RunCommand(path, watches), o)
    ensures var r, n := Response(RunCommand(path, watches), o), StopsAfter(watches, o);
            && 0 < n <= |r| && React(r[n - 1]) == End
            && forall i :: 0 <= i < n - 1 ==> React(r[i]) == Continue
  {
    var r, n := Response(RunCommand(path, watches), o), StopsAfter(watches, o);
    EndsAt(path, watches, o);
    forall i | 0 <= i < n - 1
      ensures React(r[i]) == Continue
    {
      ContinuesBefore(path, watches, o, i);
    }
  }

  /** A client that sent one command and was answered in full, on a connection where no write was cut
      short, stops; it has handled the greeting and `StopsAfter` messages of the response, which is
      the whole response exactly when a child was created or its program was not found, no path was
      watched, and every port watch succeeded. */
  lemma ClientStops(port: int, path: string, watches: seq<Watch>, o: Outcome, more: seq<Msg>)
    requires Matches(RunCommand(path, watches), o)
    ensures var r := Response(RunCommand(path, watches), o);
            && Handled([TCPSocketListening(port)] + r + more) == 1 + StopsAfter(watches, o)
            && (StopsAfter(watches, o) == |r| <==>
                  && !o.spawn.SpawnError?
                  && forall j :: 0 <= j < |watches| ==> watches[j].TcpWatch? && o.results[j].Reached?)
  {
    var r, n := Response(RunCommand(path, watches), o), StopsAfter(watches, o);
    StopsThere(path, watches, o);
    var ms := [TCPSocketListening(port)] + r;
    forall i | 0 <= i < n
      ensures React(ms[i]) == Continue
    {
      if i > 0 { assert ms[i] == r[i - 1]; }
    }
    assert ms[n] == r[n - 1];
    HandledAt(ms, more, n);
    var k := FirstEnding(watches, o.results);
    forall j | 0 <= j < |watches|
      ensures EndsClient(watches[j], o.results[j]) <==> !(watches[j].TcpWatch? && o.results[j].Reached?)
    {
      assert Suits(watches[j], o.results[j]);
    }
  }

  /** Where the client stops, counting the greeting: after the creation error; or after the second message of
      the first watch that is a path or fails; or at the end. */
  lemma ClientStopsAt(port: int, path: string, watches: seq<Watch>, o: Outcome, k: nat)
    requires Matches(RunCommand(path, watches), o) && k <= |watches|
    requires forall j :: 0 <= j < k ==> watches[j].TcpWatch? && o.results[j].Reached?
    requires k < |watches| ==> !(watches[k].TcpWatch? && o.results[k].Reached?)
    ensures Handled([TCPSocketListening(port)] + Response(RunCommand(path, watches), o)) ==
            if o.spawn.SpawnError? then 3
            else if k < |watches| then 5 + 2 * k
            else 4 + 2 * |watches|
  {
    ClientStops(port, path, watches, o, []);
    var all := [TCPSocketListening(port)] + Response(RunCommand(path, watches), o);
    assert all + [] == all;
    assert forall j :: 0 <= j < |watches| ==> Suits(watches[j], o.results[j]);
    var f := FirstEnding(watches, o.results);
    assert !(f < k) && !(k < f);
  }

  lemma OneResponse(c: Conn)
    requires Consistent(c) && c.pc.Reading? && |c.asked| == 1
    ensures |c.outcomes| == 1 && Matches(c.asked[0], c.outcomes[0])
    ensures Said(c) == [TCPSocketListening(c.port)] + Response(c.asked[0], c.outcomes[0])
  {
    assert |c.asked[|c.outcomes|..]| == 0;
    assert c.asked[..1] == c.asked && c.asked[..0] == [] && c.outcomes[..0] == [];
    assert Responses(c.asked, c.outcomes) == Responses(c.asked[..0], c.outcomes[..0]) + Response(c.asked[0], c.outcomes[0]);
  }

  lemma ParsedEncoded(enc: Serializer, parse: bytes -> Msg, ms: seq<Msg>)
    requires forall m :: m in ms ==> parse(enc(m)) == m
    ensures Parsed(parse, Encoded(enc, ms)) == ms
  {
  }

  /** The parser gets back every one of the messages, from its encoding and from its frame. */
  ghost predicate Understands(parse: bytes -> Msg, enc: Serializer, ms: seq<Msg>) {
    Fit(enc, ms) && forall m :: m in ms ==> parse(enc(m)) == m
  }

  /** Byte level: when the client understands what was said on the connection, its receive loop handles
      exactly that prefix of what the daemon wrote. */
  lemma ClientReadsWire(enc: Serializer, parse: bytes -> Msg, es: seq<Event>, i: nat, c: Conn)
    requires After(enc, es).Some? && i < |After(enc, es).value| && c == After(enc, es).value[i]
    requires c.whole && c.pc.Reading? && |c.asked| == 1 && c.asked[0].RunCommand?
    ensures Consistent(c) && |c.outcomes| == 1 && Matches(c.asked[0], c.outcomes[0])
    ensures Understands(parse, enc, Said(c)) ==>
              && Incoming(parse, c.written) == [TCPSocketListening(c.port)] + Response(c.asked[0], c.outcomes[0])
              && Handled(Incoming(parse, c.written)) == 1 + StopsAfter(c.asked[0].watches, c.outcomes[0])
  {
    ReceiverSees(enc, es, i, c);
    OneResponse(c);
    if Understands(parse, enc, Said(c)) {
      ParsedEncoded(enc, parse, Said(c));
      ClientStops(c.port, c.asked[0].path, c.asked[0].watches, c.outcomes[0], []);
      assert Said(c) + [] == Said(c);
    }
  }

  // ----- an instance -----

  /** Encodings that tell apart the messages of one plain command. */
  function OneByte(m: Msg): bytes {
    [if m.TCPSocketListening? then 0 else if m.ProcessLaunched? then 1 else if m.ExecveTerminated? then 2 else 3]
  }

  function FromByte(b: bytes): Msg {
    if b == [0] then TCPSocketListening(8080)
    else if b == [1] then ProcessLaunched(5)
    else if b == [2] then ExecveTerminated(5, "p", true)
    else ProcessTerminated(5, 0)
  }

  /** The only connection resumes, and its frame, if any, is taken whole. */
  lemma Resumed(es: seq<Event>, c: Conn, a: Action) returns (es': seq<Event>, c': Conn)
    requires After(OneByte, es) == Some([c]) && CanAct(c, a) && c.whole
    ensures After(OneByte, es') == Some([c']) && c'.whole
    ensures c'.pc == Moved(c, a).pc && c'.asked == Moved(c, a).asked && c'.outcomes == Moved(c, a).outcomes
    ensures c'.port == c.port
  {
    es', c' := es + [Resume(0, a, 5)], Act(OneByte, c, a, 5);
    AfterAppend(OneByte, es, Resume(0, a, 5));
    assert [c][0 := c'] == [c'];
  }

  lemma PlainCommand() returns (es: seq<Event>, c: Conn)
    ensures After(OneByte, es) == Some([c]) && c.whole && c.pc.Reading? && c.port == 8080
    ensures c.asked == [RunCommand("p", [])] && c.outcomes == [OfRun(Spawned(5, Exit(Some(0))), [])]
  {
    es, c := [Accept(8080, 5)], Greeted(OneByte, 8080, 5);
    AfterAppend(OneByte, [], Accept(8080, 5));
    assert [] + es == es && [] + [c] == [c];
    es, c := Resumed(es, c, Read(RunCommand("p", [])));
    es, c := Resumed(es, c, Spawn(Spawned(5, Exit(Some(0)))));
    es, c := Resumed(es, c, Report);
    es, c := Resumed(es, c, Finish);
  }

  /** A client that runs one command without watches, every frame taken whole: it understands all that
      is said to it, so `ClientReadsWire` is not idle. */
  lemma PlainCommandIsRead() returns (es: seq<Event>, c: Conn)
    ensures After(OneByte, es) == Some([c]) && c.whole && c.pc.Reading? && c.asked == [RunCommand("p", [])]
    ensures Consistent(c) && Understands(FromByte, OneByte, Said(c))
    ensures Handled(Incoming(FromByte, c.written)) == 1 + StopsAfter([], OfRun(Spawned(5, Exit(Some(0))), [])) == 4
  {
    es, c := PlainCommand();
    ClientReadsWire(OneByte, FromByte, es, 0, c);
    OneResponse(c);
    PlainSaid(c);
  }

  lemma PlainSaid(c: Conn)
    requires Consistent(c)
    requires Said(c) == [TCPSocketListening(8080)] + Response(RunCommand("p", []), OfRun(Spawned(5, Exit(Some(0))), []))
    ensures Understands(FromByte, OneByte, Said(c))
  {
    assert Said(c) == [TCPSocketListening(8080), ProcessLaunched(5), ExecveTerminated(5, "p", true), ProcessTerminated(5, 0)];
  }
}
