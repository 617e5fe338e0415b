/** The Rust daemon's connection tasks: the handler as it is written, and all tasks together, switching
    at every await, for every order in which the runtime may resume them. */
module RustTasks {
  import opened Framing
  import opened Machine
  import opened Options
  import opened RustProtocol

  /** How a message is laid out in a buffer. */
  type Serializer = Msg -> bytes

  function Encoded(enc: Serializer, ms: seq<Msg>): (r: seq<bytes>)
    ensures |r| == |ms| && forall i :: 0 <= i < |ms| ==> r[i] == enc(ms[i])
  {
    if ms == [] then [] else Encoded(enc, ms[..|ms| - 1]) + [enc(ms[|ms| - 1])]
  }

  /** The bytes of a list of messages, each in its frame. */
  function Wire(enc: Serializer, ms: seq<Msg>): bytes
  {
    Frames(Encoded(enc, ms))
  }

  lemma WireAppend(enc: Serializer, ms: seq<Msg>, m: Msg)
    ensures Wire(enc, ms + [m]) == Wire(enc, ms) + Frame(enc(m))
  {
    assert (ms + [m])[..|ms|] == ms;
    FramesConcat(Encoded(enc, ms), [enc(m)]);
    assert Frames([enc(m)]) == Frame(enc(m)) + Frames([]);
    assert Frame(enc(m)) + [] == Frame(enc(m));
  }

  // ----- the handler -----

  /** A connection's socket, with everything written on it; here every write takes the whole buffer. */
  class Socket {
    var written: seq<Msg>

    constructor ()
      ensures written == []
    {
      written := [];
    }

    method Send(m: Msg)
      modifies this
      ensures written == old(written) + [m]
    {
      written := written + [m];
    }

    /** `handle_surveillance_event` for a known kind of watch. */
    method HandleSurveillanceEvent(w: Watch, r: WatchResult)
      requires Suits(w, r)
      modifies this
      ensures written == old(written) + [Announcement(w), Conclusion(w, r)]
    {
      match w {
        case InotifyWatch(path, mask, size) =>
          var trigger := Accessed;
          if mask & CREATE != 0 { trigger := Created; }
          if mask & DELETE != 0 { trigger := Deleted; }
          if mask & MODIFY != 0 { trigger := Modified; }
          if mask & (CLOSE_NOWRITE | CLOSE_WRITE) != 0 { trigger := SizeReached; }
          Send(InotifyPathUpdated(path, trigger, 0, size));
          match r {
            case Triggered(pid) => Send(ProcessTerminated(AsI32(pid), 0));
            case WatchFailed(pid, errno) => Send(ProcessTerminated(AsI32(pid), AsU32(errno)));
          }
        case TcpWatch(port) =>
          Send(SocketWatched(AsI32(port)));
          match r {
            case Reached(state) =>
              var toSend := Unknown;
              match state {
                case Listen => toSend := PortListening;
                case Established => toSend := PortCreated;
                case OtherState => toSend := Unknown;
              }
              Send(SocketWatchTerminated(AsI32(port), toSend));
            case WatchFailed(pid, errno) => Send(ProcessTerminated(AsI32(pid), AsU32(errno)));
          }
      }
    }

    /** The run-command case of `handle_message`. */
    method HandleRunCommand(path: string, watches: seq<Watch>, spawn: SpawnResult, results: seq<WatchResult>)
      requires |results| == |watches| && forall i :: 0 <= i < |watches| ==> Suits(watches[i], results[i])
      modifies this
      ensures written == old(written) + SpawnReport(path, spawn) + WatchReports(watches, results, |watches|) + [FinalReport(spawn)]
    {
      var pid := 0;
      var res: WaitResult;
      match spawn {
        case Spawned(childPid, wait) =>
          pid := childPid;
          Send(ProcessLaunched(AsI32(pid)));
          Send(ExecveTerminated(AsI32(pid), path, true));
          res := wait;
        case CommandNotFound(self) =>
          Send(ProcessLaunched(self));
          Send(ExecveTerminated(self, path, false));
          res := WaitError(None);
        case SpawnError(self, raw) =>
          Send(ProcessLaunched(self));
          Send(ChildCreationError(AsU32(UnwrapOr(raw, 1))));
          res := WaitError(raw);
      }
      ghost var before := old(written) + SpawnReport(path, spawn);
      assert written == before;
      WatchAll(watches, results);
      match res {
        case Exit(code) => Send(ProcessTerminated(AsI32(pid), AsU32(UnwrapOr(code, 1))));
        case WaitError(raw) => Send(ProcessTerminated(AsI32(pid), AsU32(UnwrapOr(raw, 1))));
      }
    }

    /** The loop over the watches of a command. */
    method WatchAll(watches: seq<Watch>, results: seq<WatchResult>)
      requires |results| == |watches| && forall i :: 0 <= i < |watches| ==> Suits(watches[i], results[i])
      modifies this
      ensures written == old(written) + WatchReports(watches, results, |watches|)
    {
      for i := 0 to |watches|
        invariant written == old(written) + WatchReports(watches, results, i)
      {
        HandleSurveillanceEvent(watches[i], results[i]);
      }
    }

    /** `handle_message`. */
    method HandleMessage(req: Request, o: Outcome)
      requires Matches(req, o)
      modifies this
      ensures written == old(written) + Response(req, o)
    {
      match req {
        case KillProcess(_) =>
          match o.kill {
            case Killed(self) => Send(ProcessLaunched(AsI32(self)));
            case KillFailed(self, errno) => Send(ProcessTerminated(AsI32(self), AsU32(errno)));
          }
        case RunCommand(path, watches) =>
          HandleRunCommand(path, watches, o.spawn, o.results);
          Associate(old(written), SpawnReport(path, o.spawn), WatchReports(watches, o.results, |watches|), [FinalReport(o.spawn)]);
        case OtherRequest =>
          Send(ChildCreationError(ENODATA));
      }
    }
  }

  lemma Associate(a: seq<Msg>, b: seq<Msg>, c: seq<Msg>, d: seq<Msg>)
    ensures a + b + c + d == a + (b + c + d)
  {
  }

  // ----- tasks -----

  /** Where a connection's task is: at the read, or before the next write of the current request.
      `Reporting` has sent the launch, `Announcing` has finished `|results|` watches, `Watching` has
      announced one more. */
  datatype Pc =
    | Reading
    | Replying(req: Request)
    | Spawning(path: string, watches: seq<Watch>)
    | Reporting(path: string, watches: seq<Watch>, spawn: SpawnResult)
    | Announcing(path: string, watches: seq<Watch>, spawn: SpawnResult, results: seq<WatchResult>)
    | Watching(path: string, watches: seq<Watch>, spawn: SpawnResult, results: seq<WatchResult>)

  /** A connection: its task, the requests read, the outcomes of those answered, the bytes the kernel
      took, and whether it took every frame whole. */
  datatype Conn = Conn(port: int, pc: Pc, asked: seq<Request>, outcomes: seq<Outcome>, written: bytes, whole: bool)

  /** What a task does when it is resumed. */
  datatype Action =
    | Read(req: Request)
    | Reply(outcome: Outcome)
    | Spawn(spawn: SpawnResult)
    | Report
    | Announce
    | Conclude(result: WatchResult)
    | Finish

  predicate CanAct(c: Conn, a: Action) {
    match a
    case Read(_) => c.pc.Reading?
    case Reply(o) => c.pc.Replying? && Matches(c.pc.req, o)
    case Spawn(_) => c.pc.Spawning?
    case Report => c.pc.Reporting?
    case Announce => c.pc.Announcing? && |c.pc.results| < |c.pc.watches|
    case Conclude(r) => c.pc.Watching? && |c.pc.results| < |c.pc.watches| && Suits(c.pc.watches[|c.pc.results|], r)
    case Finish => c.pc.Announcing? && |c.pc.results| == |c.pc.watches|
  }

  /** The message an action writes, if any. */
  function ToWrite(c: Conn, a: Action): Option<Msg>
    requires CanAct(c, a)
  {
    match a
    case Read(_) => None
    case Reply(o) => Some(Response(c.pc.req, o)[0])
    case Spawn(spawn) => Some(SpawnReport(c.pc.path, spawn)[0])
    case Report => Some(SpawnReport(c.pc.path, c.pc.spawn)[1])
    case Announce => Some(Announcement(c.pc.watches[|c.pc.results|]))
    case Conclude(r) => Some(Conclusion(c.pc.watches[|c.pc.results|], r))
    case Finish => Some(FinalReport(c.pc.spawn))
  }

  function Moved(c: Conn, a: Action): Conn
    requires CanAct(c, a)
  {
    match a
    case Read(req) =>
      c.(asked := c.asked + [req], pc := if req.RunCommand? then Spawning(req.path, req.watches) else Replying(req))
    case Reply(o) => c.(pc := Reading, outcomes := c.outcomes + [o])
    case Spawn(spawn) => c.(pc := Reporting(c.pc.path, c.pc.watches, spawn))
    case Report => c.(pc := Announcing(c.pc.path, c.pc.watches, c.pc.spawn, []))
    case Announce => c.(pc := Watching(c.pc.path, c.pc.watches, c.pc.spawn, c.pc.results))
    case Conclude(r) => c.(pc := Announcing(c.pc.path, c.pc.watches, c.pc.spawn, c.pc.results + [r]))
    case Finish => c.(pc := Reading, outcomes := c.outcomes + [OfRun(c.pc.spawn, c.pc.results)])
  }

  /** `socket.write` takes a prefix of the frame, of a length the kernel chooses. */
  function Put(enc: Serializer, c: Conn, m: Msg, taken: nat): Conn
  {
    var f := Frame(enc(m));
    if taken < |f| then c.(written := c.written + f[..taken], whole := false)
    else c.(written := c.written + f)
  }

  function Act(enc: Serializer, c: Conn, a: Action, taken: nat): Conn
    requires CanAct(c, a)
  {
    match ToWrite(c, a)
    case None => Moved(c, a)
    case Some(m) => Moved(Put(enc, c, m, taken), a)
  }

  /** A connection just accepted and greeted. */
  function Greeted(enc: Serializer, port: int, taken: nat): Conn
  {
    Put(enc, Conn(port, Reading, [], [], [], true), TCPSocketListening(port), taken)
  }

  // ----- what a task has said -----

  /** The messages of the current request that have been written. */
  function Partial(pc: Pc): seq<Msg>
    requires PcOk(pc)
  {
    match pc
    case Reading => []
    case Replying(_) => []
    case Spawning(_, _) => []
    case Reporting(path, _, spawn) => SpawnReport(path, spawn)[..1]
    case Announcing(path, watches, spawn, results) =>
      SpawnReport(path, spawn) + WatchReports(watches, results, |results|)
    case Watching(path, watches, spawn, results) =>
      SpawnReport(path, spawn) + WatchReports(watches, results, |results|) + [Announcement(watches[|results|])]
  }

  predicate PcOk(pc: Pc) {
    match pc
    case Replying(req) => !req.RunCommand?
    case Announcing(_, watches, _, results) =>
      |results| <= |watches| && forall i :: 0 <= i < |results| ==> Suits(watches[i], results[i])
    case Watching(_, watches, _, results) =>
      |results| < |watches| && forall i :: 0 <= i < |results| ==> Suits(watches[i], results[i])
    case _ => true
  }

  function CurrentRequest(pc: Pc): seq<Request> {
    match pc
    case Reading => []
    case Replying(req) => [req]
    case Spawning(path, watches) => [RunCommand(path, watches)]
    case Reporting(path, watches, _) => [RunCommand(path, watches)]
    case Announcing(path, watches, _, _) => [RunCommand(path, watches)]
    case Watching(path, watches, _, _) => [RunCommand(path, watches)]
  }

  /** The outcomes belong to the requests answered, and the task is at the one after them. */
  predicate Consistent(c: Conn) {
    && PcOk(c.pc)
    && |c.outcomes| <= |c.asked| && c.asked[|c.outcomes|..] == CurrentRequest(c.pc)
    && forall i :: 0 <= i < |c.outcomes| ==> Matches(c.asked[i], c.outcomes[i])
  }

  /** The greeting, the response to every request answered, and the part of the current one so far. */
  function Said(c: Conn): seq<Msg>
    requires Consistent(c)
  {
    [TCPSocketListening(c.port)] + Responses(c.asked[..|c.outcomes|], c.outcomes) + Partial(c.pc)
  }

  /** The bytes are those of what was said exactly when no write was cut short. */
  ghost predicate ConnInv(enc: Serializer, c: Conn)
  {
    && Consistent(c)
    && (c.whole ==> c.written == Wire(enc, Said(c)))
    && (!c.whole ==> |c.written| < |Wire(enc, Said(c))|)
  }

  lemma AnsweredSaid(c: Conn, req: Request, o: Outcome)
    requires |c.outcomes| < |c.asked| && c.asked[|c.outcomes|] == req && Matches(req, o)
    requires forall i :: 0 <= i < |c.outcomes| ==> Matches(c.asked[i], c.outcomes[i])
    ensures Responses(c.asked[..|c.outcomes| + 1], c.outcomes + [o]) ==
            Responses(c.asked[..|c.outcomes|], c.outcomes) + Response(req, o)
  {
    var n := |c.outcomes|;
    assert c.asked[..n + 1][..n] == c.asked[..n];
    assert (c.outcomes + [o])[..n] == c.outcomes;
  }

  lemma Regroup(g: seq<Msg>, done: seq<Msg>, partial: seq<Msg>, response: seq<Msg>, last: seq<Msg>)
    requires response == partial + last
    ensures g + (done + response) + [] == g + done + partial + last
  {
  }

  lemma AnsweringConsistent(c: Conn, req: Request, o: Outcome)
    requires Consistent(c) && CurrentRequest(c.pc) == [req] && Matches(req, o)
    ensures Consistent(c.(pc := Reading, outcomes := c.outcomes + [o]))
    ensures var n := |c.outcomes|; |c.asked| == n + 1 && c.asked[n] == req && c.asked[..n + 1] == c.asked
  {
    var n := |c.outcomes|;
    assert c.asked[n..] == [req];
    assert c.asked[n] == c.asked[n..][0];
  }

  /** Answering the current request adds the rest of its response. */
  lemma AnsweringSays(c: Conn, req: Request, o: Outcome, last: Msg)
    requires Consistent(c) && CurrentRequest(c.pc) == [req] && Matches(req, o)
    requires Response(req, o) == Partial(c.pc) + [last]
    ensures var c' := c.(pc := Reading, outcomes := c.outcomes + [o]);
            Consistent(c') && Said(c') == Said(c) + [last]
  {
    var n := |c.outcomes|;
    var done := Responses(c.asked[..n], c.outcomes);
    AnsweringConsistent(c, req, o);
    AnsweredSaid(c, req, o);
    SaidWhenReading(c.(pc := Reading, outcomes := c.outcomes + [o]));
    Regroup([TCPSocketListening(c.port)], done, Partial(c.pc), Response(req, o), [last]);
  }

  lemma SaidWhenReading(c: Conn)
    requires Consistent(c) && c.pc.Reading?
    ensures |c.asked| == |c.outcomes|
    ensures Said(c) == [TCPSocketListening(c.port)] + Responses(c.asked, c.outcomes) + []
  {
    assert c.asked[..|c.outcomes|] == c.asked;
  }

  lemma ReplySays(c: Conn, o: Outcome)
    requires Consistent(c) && CanAct(c, Reply(o))
    ensures var c' := Moved(c, Reply(o));
            Consistent(c') && Said(c') == Said(c) + [Response(c.pc.req, o)[0]]
  {
    var r := Response(c.pc.req, o);
    assert r == [] + [r[0]];
    AnsweringSays(c, c.pc.req, o, r[0]);
  }

  lemma FinishSays(c: Conn)
    requires Consistent(c) && CanAct(c, Finish)
    ensures var c' := Moved(c, Finish);
            Consistent(c') && Said(c') == Said(c) + [FinalReport(c.pc.spawn)]
  {
    AnsweringSays(c, RunCommand(c.pc.path, c.pc.watches), OfRun(c.pc.spawn, c.pc.results), FinalReport(c.pc.spawn));
  }

  lemma StillAnswered(c: Conn, c': Conn, m: seq<Msg>)
    requires Consistent(c) && c'.port == c.port && c'.outcomes == c.outcomes && c.asked <= c'.asked
    requires PcOk(c'.pc) && c'.asked[|c.outcomes|..] == CurrentRequest(c'.pc)
    requires Partial(c'.pc) == Partial(c.pc) + m
    ensures Consistent(c') && Said(c') == Said(c) + m
  {
    assert c'.asked[..|c.outcomes|] == c.asked[..|c.outcomes|];
  }

  function Written(c: Conn, a: Action): seq<Msg>
    requires CanAct(c, a)
  {
    match ToWrite(c, a)
    case None => []
    case Some(m) => [m]
  }

  lemma PartialGrows(c: Conn, a: Action)
    requires PcOk(c.pc) && CanAct(c, a) && !a.Reply? && !a.Finish?
    ensures PcOk(Moved(c, a).pc) && Partial(Moved(c, a).pc) == Partial(c.pc) + Written(c, a)
  {
    if a.Conclude? { ConcludeSays(c.pc, a.result); }
  }

  /** Acting says exactly the message that is written. */
  lemma MovedSays(c: Conn, a: Action)
    requires Consistent(c) && CanAct(c, a)
    ensures Consistent(Moved(c, a))
    ensures Said(Moved(c, a)) == Said(c) + Written(c, a)
  {
    if a.Reply? {
      ReplySays(c, a.outcome);
    } else if a.Finish? {
      FinishSays(c);
    } else {
      PartialGrows(c, a);
      StillAnswered(c, Moved(c, a), Written(c, a));
    }
  }

  lemma ConcludeSays(pc: Pc, r: WatchResult)
    requires PcOk(pc) && pc.Watching? && Suits(pc.watches[|pc.results|], r)
    ensures var pc' := Announcing(pc.path, pc.watches, pc.spawn, pc.results + [r]);
            PcOk(pc') && Partial(pc') == Partial(pc) + [Conclusion(pc.watches[|pc.results|], r)]
  {
    var n := |pc.results|;
    LastReports(pc.watches, pc.results, r);
    Spread(SpawnReport(pc.path, pc.spawn), WatchReports(pc.watches, pc.results, n),
           Announcement(pc.watches[n]), Conclusion(pc.watches[n], r));
  }

  lemma Spread(a: seq<Msg>, b: seq<Msg>, x: Msg, y: Msg)
    ensures a + (b + [x, y]) == a + b + [x] + [y]
  {
  }

  lemma LastReports(watches: seq<Watch>, results: seq<WatchResult>, r: WatchResult)
    requires |results| < |watches| && Suits(watches[|results|], r)
    requires forall i :: 0 <= i < |results| ==> Suits(watches[i], results[i])
    ensures WatchReports(watches, results + [r], |results| + 1) ==
            WatchReports(watches, results, |results|) + [Announcement(watches[|results|]), Conclusion(watches[|results|], r)]
  {
    ReportsPrefix(watches, results, r, |results|);
  }

  lemma {:induction false} ReportsPrefix(watches: seq<Watch>, results: seq<WatchResult>, r: WatchResult, n: nat)
    requires n <= |results| && n <= |watches|
    requires forall i :: 0 <= i < n ==> Suits(watches[i], results[i])
    ensures WatchReports(watches, results + [r], n) == WatchReports(watches, results, n)
  {
    if n > 0 { ReportsPrefix(watches, results, r, n - 1); }
  }

  /** A write that the kernel cuts short makes the bytes fall behind for good. */
  lemma PutKeeps(enc: Serializer, c: Conn, m: Msg, taken: nat, ms: seq<Msg>)
    requires c.whole ==> c.written == Wire(enc, ms)
    requires !c.whole ==> |c.written| < |Wire(enc, ms)|
    ensures var c' := Put(enc, c, m, taken);
            && (c'.whole ==> c'.written == Wire(enc, ms + [m]))
            && (!c'.whole ==> |c'.written| < |Wire(enc, ms + [m])|)
  {
    WireAppend(enc, ms, m);
  }

  /** What was said does not depend on what the kernel took. */
  lemma SaidIgnoresBytes(c: Conn, c': Conn)
    requires Consistent(c) && c'.(written := c.written, whole := c.whole) == c
    ensures Consistent(c') && Said(c') == Said(c)
  {
    assert c'.asked == c.asked && c'.outcomes == c.outcomes && c'.pc == c.pc && c'.port == c.port;
  }

  lemma ActMoves(enc: Serializer, c: Conn, a: Action, taken: nat)
    requires CanAct(c, a)
    ensures Act(enc, c, a, taken).(written := c.written, whole := c.whole) == Moved(c, a)
    ensures Moved(c, a).written == c.written && Moved(c, a).whole == c.whole
    ensures match ToWrite(c, a)
            case None => Act(enc, c, a, taken).written == c.written && Act(enc, c, a, taken).whole == c.whole
            case Some(m) =>
              && Act(enc, c, a, taken).written == Put(enc, c, m, taken).written
              && Act(enc, c, a, taken).whole == Put(enc, c, m, taken).whole
  {
  }

  lemma ActKeepsConn(enc: Serializer, c: Conn, a: Action, taken: nat)
    requires ConnInv(enc, c) && CanAct(c, a)
    ensures ConnInv(enc, Act(enc, c, a, taken))
  {
    MovedSays(c, a);
    var c' := Act(enc, c, a, taken);
    var moved := Moved(c, a);
    ActMoves(enc, c, a, taken);
    SaidIgnoresBytes(moved, c');
    match ToWrite(c, a)
    case None =>
      assert Said(c) + [] == Said(c);
    case Some(m) =>
      PutKeeps(enc, c, m, taken, Said(c));
  }

  lemma GreetedConn(enc: Serializer, port: int, taken: nat)
    ensures ConnInv(enc, Greeted(enc, port, taken))
  {
    var c := Greeted(enc, port, taken);
    assert Said(c) == [TCPSocketListening(port)];
    WireAppend(enc, [], TCPSocketListening(port));
    assert [] + [TCPSocketListening(port)] == [TCPSocketListening(port)];
  }

  // ----- all tasks together -----

  /** Accept and greet one more client, or resume the task of connection `i`. */
  datatype Event = Accept(port: int, taken: nat) | Resume(i: nat, action: Action, taken: nat)

  predicate CanHappen(cs: seq<Conn>, e: Event) {
    match e
    case Accept(_, _) => true
    case Resume(i, a, _) => i < |cs| && CanAct(cs[i], a)
  }

  function Happen(enc: Serializer, cs: seq<Conn>, e: Event): seq<Conn>
    requires CanHappen(cs, e)
  {
    match e
    case Accept(port, taken) => cs + [Greeted(enc, port, taken)]
    case Resume(i, a, taken) => cs[i := Act(enc, cs[i], a, taken)]
  }

  /** The connections after a history of events, if all of them could happen. */
  function After(enc: Serializer, es: seq<Event>): Option<seq<Conn>>
  {
    if es == [] then Some([])
    else
      match After(enc, es[..|es| - 1])
      case None => None
      case Some(cs) => if CanHappen(cs, es[|es| - 1]) then Some(Happen(enc, cs, es[|es| - 1])) else None
  }

  lemma {:induction false} ConnAlways(enc: Serializer, es: seq<Event>, i: nat)
    requires After(enc, es).Some? && i < |After(enc, es).value|
    ensures ConnInv(enc, After(enc, es).value[i])
  {
    var e, before := es[|es| - 1], After(enc, es[..|es| - 1]).value;
    if e.Accept? && i == |before| {
      GreetedConn(enc, e.port, e.taken);
    } else {
      ConnAlways(enc, es[..|es| - 1], i);
      if e.Resume? && e.i == i { ActKeepsConn(enc, before[i], e.action, e.taken); }
    }
  }

  /** For every interleaving, the bytes on each connection are the greeting and the responses to its
      requests, in order, up to the message its task has reached - exactly when no write on it was
      cut short. */
  lemma OutputInOrder(enc: Serializer, es: seq<Event>, i: nat, c: Conn)
    requires After(enc, es).Some? && i < |After(enc, es).value|
    requires c == After(enc, es).value[i]
    ensures Consistent(c) && (c.whole <==> c.written == Wire(enc, Said(c)))
    ensures c.whole && c.pc.Reading? ==>
              && |c.asked| == |c.outcomes|
              && c.written == Wire(enc, [TCPSocketListening(c.port)] + Responses(c.asked, c.outcomes))
  {
    ConnAlways(enc, es, i);
    if c.pc.Reading? {
      assert c.asked[..|c.outcomes|] == c.asked;
      assert Said(c) == [TCPSocketListening(c.port)] + Responses(c.asked, c.outcomes);
    }
  }

  /** Every message of the list has a length that 32 bits can hold. */
  ghost predicate Fit(enc: Serializer, ms: seq<Msg>) {
    forall m :: m in ms ==> |enc(m)| < TWO_32
  }

  /** What a receiver decodes from a connection on which no write was cut short is what was said, exactly
      when no length was cut either. */
  lemma ReceiverSees(enc: Serializer, es: seq<Event>, i: nat, c: Conn)
    requires After(enc, es).Some? && i < |After(enc, es).value|
    requires c == After(enc, es).value[i] && c.whole
    ensures Consistent(c) && (Decode(c.written) == Decoded(Encoded(enc, Said(c)), []) <==> Fit(enc, Said(c)))
  {
    OutputInOrder(enc, es, i, c);
    FramesDecodeIff(Encoded(enc, Said(c)), []);
    FitFramable(enc, Said(c));
    assert c.written + [] == c.written;
  }

  lemma FitFramable(enc: Serializer, ms: seq<Msg>)
    ensures Fit(enc, ms) <==> Framable(Encoded(enc, ms))
  {
    if Framable(Encoded(enc, ms)) {
      forall m | m in ms
        ensures |enc(m)| < TWO_32
      {
        var i :| 0 <= i < |ms| && ms[i] == m;
        assert Encoded(enc, ms)[i] == enc(m);
      }
    }
  }

  /** No task is ever stuck: whatever it waits for may come, and what it does itself it can do. */
  lemma NeverStuck(c: Conn)
    requires PcOk(c.pc)
    ensures match c.pc
            case Reading => forall req :: CanAct(c, Read(req))
            case Replying(req) => !req.RunCommand? && forall o :: Matches(req, o) ==> CanAct(c, Reply(o))
            case Spawning(_, _) => forall spawn :: CanAct(c, Spawn(spawn))
            case Reporting(_, _, _) => CanAct(c, Report)
            case Announcing(_, watches, _, results) =>
              |results| <= |watches| && if |results| < |watches| then CanAct(c, Announce) else CanAct(c, Finish)
            case Watching(_, watches, _, results) =>
              |results| < |watches| && forall r :: Suits(watches[|results|], r) ==> CanAct(c, Conclude(r))
  {
  }

  // ----- independence -----

  /** The history of connection `i` alone: its own acceptance, renumbered, and its own resumptions. */
  function Own(es: seq<Event>, i: nat): seq<Event> {
    if es == [] then []
    else
      var e, front := es[|es| - 1], Own(es[..|es| - 1], i);
      match e
      case Accept(_, _) => if Accepted(es[..|es| - 1]) == i then front + [e] else front
      case Resume(j, a, taken) => if j == i then front + [Resume(0, a, taken)] else front
  }

  /** How many connections a history accepts. */
  function Accepted(es: seq<Event>): nat {
    if es == [] then 0 else Accepted(es[..|es| - 1]) + if es[|es| - 1].Accept? then 1 else 0
  }

  lemma {:induction false} AcceptedCounts(enc: Serializer, es: seq<Event>)
    requires After(enc, es).Some?
    ensures |After(enc, es).value| == Accepted(es)
  {
    if es != [] { AcceptedCounts(enc, es[..|es| - 1]); }
  }

  lemma AfterAppend(enc: Serializer, es: seq<Event>, e: Event)
    requires After(enc, es).Some? && CanHappen(After(enc, es).value, e)
    ensures After(enc, es + [e]) == Some(Happen(enc, After(enc, es).value, e))
  {
    assert (es + [e])[..|es|] == es;
  }

  /** Resuming a connection does to it what it would do if it were alone. */
  lemma ResumeAlone(enc: Serializer, cs: seq<Conn>, i: nat, a: Action, taken: nat)
    requires i < |cs| && CanHappen(cs, Resume(i, a, taken))
    ensures CanHappen([cs[i]], Resume(0, a, taken))
    ensures Happen(enc, [cs[i]], Resume(0, a, taken)) == [Happen(enc, cs, Resume(i, a, taken))[i]]
  {
  }

  /** Whatever the other tasks do, a connection is in the state its own history alone would lead to. */
  lemma {:induction false} TasksIndependent(enc: Serializer, es: seq<Event>, i: nat)
    requires After(enc, es).Some?
    ensures i < |After(enc, es).value| ==> After(enc, Own(es, i)) == Some([After(enc, es).value[i]])
    ensures |After(enc, es).value| <= i ==> After(enc, Own(es, i)) == Some([])
  {
    if es != [] {
      var e, before := es[|es| - 1], es[..|es| - 1];
      var cs := After(enc, before).value;
      TasksIndependent(enc, before, i);
      AcceptedCounts(enc, before);
      if e.Accept? {
        if |cs| == i {
          AfterAppend(enc, Own(before, i), e);
          assert cs + [Greeted(enc, e.port, e.taken)] == After(enc, es).value;
          assert [] + [Greeted(enc, e.port, e.taken)] == [Greeted(enc, e.port, e.taken)];
        }
      } else if e.i == i {
        ResumeAlone(enc, cs, i, e.action, e.taken);
        AfterAppend(enc, Own(before, i), Resume(0, e.action, e.taken));
      }
    }
  }
}
