/** What the Rust daemon answers to each request (`rust/src/bin/main.rs`), as messages. */
module RustProtocol {
  import opened Machine
  import opened Options

  // ----- requests -----

  datatype Watch = InotifyWatch(path: string, mask: bv32, size: nat) | TcpWatch(port: int)

  datatype Request =
    | KillProcess(pid: int)
    | RunCommand(path: string, watches: seq<Watch>)
    | OtherRequest

  // ----- what the environment answers -----

  /** How waiting for a child ends: an exit code (none when a signal killed it) or an I/O error. */
  datatype WaitResult = Exit(code: Option<int>) | WaitError(raw: Option<int>)

  /** How spawning ends; `self` is the daemon's own pid. */
  datatype SpawnResult =
    | Spawned(pid: nat, wait: WaitResult)
    | CommandNotFound(self: int)
    | SpawnError(self: int, raw: Option<int>)

  datatype TcpState = Listen | Established | OtherState

  /** How watching ends: for a path with a pid, for a port with a state, or with an error. */
  datatype WatchResult = Triggered(pid: nat) | Reached(state: TcpState) | WatchFailed(pid: nat, errno: nat)

  datatype KillResult = Killed(self: nat) | KillFailed(self: nat, errno: nat)

  /** Everything the environment decided while a request was handled. */
  datatype Outcome =
    | OfKill(kill: KillResult)
    | OfRun(spawn: SpawnResult, results: seq<WatchResult>)
    | OfOther

  /** A watched path is never reached by a TCP state, nor a port by a pid. */
  predicate Suits(w: Watch, r: WatchResult) {
    match w
    case InotifyWatch(_, _, _) => !r.Reached?
    case TcpWatch(_) => !r.Triggered?
  }

  predicate Matches(req: Request, o: Outcome) {
    match req
    case KillProcess(_) => o.OfKill?
    case RunCommand(_, watches) =>
      o.OfRun? && |o.results| == |watches| && forall i :: 0 <= i < |watches| ==> Suits(watches[i], o.results[i])
    case OtherRequest => o.OfOther?
  }

  // ----- messages -----

  datatype Trigger = Modified | Created | SizeReached | Deleted | Accessed

  datatype PortState = Unknown | PortCreated | PortListening

  datatype Msg =
    | TCPSocketListening(port: int)
    | ProcessLaunched(pid: int)
    | ExecveTerminated(pid: int, command: string, success: bool)
    | ChildCreationError(code: int)
    | ProcessTerminated(pid: int, code: int)
    | InotifyPathUpdated(path: string, trigger: Trigger, size: int, limit: int)
    | SocketWatched(port: int)
    | SocketWatchTerminated(port: int, state: PortState)

  function UnwrapOr(o: Option<int>, default: int): int {
    match o
    case Some(v) => v
    case None => default
  }

  const MODIFY: bv32 := 0x2
  const CLOSE_WRITE: bv32 := 0x8
  const CLOSE_NOWRITE: bv32 := 0x10
  const CREATE: bv32 := 0x100
  const DELETE: bv32 := 0x200
  const ENODATA := 61

  /** The trigger announced for a mask: the last test that succeeds wins. */
  function TriggerOf(mask: bv32): Trigger {
    if mask & (CLOSE_NOWRITE | CLOSE_WRITE) != 0 then SizeReached
    else if mask & MODIFY != 0 then Modified
    else if mask & DELETE != 0 then Deleted
    else if mask & CREATE != 0 then Created
    else Accessed
  }

  // ----- responses -----

  function Announcement(w: Watch): Msg {
    match w
    case InotifyWatch(path, mask, size) => InotifyPathUpdated(path, TriggerOf(mask), 0, size)
    case TcpWatch(port) => SocketWatched(AsI32(port))
  }

  function Conclusion(w: Watch, r: WatchResult): Msg
    requires Suits(w, r)
  {
    match r
    case Triggered(pid) => ProcessTerminated(AsI32(pid), 0)
    case Reached(state) =>
      SocketWatchTerminated(AsI32(w.port),
        match state case Listen => PortListening case Established => PortCreated case OtherState => Unknown)
    case WatchFailed(pid, errno) => ProcessTerminated(AsI32(pid), AsU32(errno))
  }

  function SpawnReport(path: string, spawn: SpawnResult): seq<Msg> {
    match spawn
    case Spawned(pid, _) => [ProcessLaunched(AsI32(pid)), ExecveTerminated(AsI32(pid), path, true)]
    case CommandNotFound(self) => [ProcessLaunched(self), ExecveTerminated(self, path, false)]
    case SpawnError(self, raw) => [ProcessLaunched(self), ChildCreationError(AsU32(UnwrapOr(raw, 1)))]
  }

  /** The last message: the child's pid and code, or pid 0 when there never was a child. */
  function FinalReport(spawn: SpawnResult): Msg {
    match spawn
    case Spawned(pid, Exit(code)) => ProcessTerminated(AsI32(pid), AsU32(UnwrapOr(code, 1)))
    case Spawned(pid, WaitError(raw)) => ProcessTerminated(AsI32(pid), AsU32(UnwrapOr(raw, 1)))
    case CommandNotFound(_) => ProcessTerminated(0, 1)
    case SpawnError(_, raw) => ProcessTerminated(0, AsU32(UnwrapOr(raw, 1)))
  }

  /** The messages of the first `n` watches. */
  function WatchReports(watches: seq<Watch>, results: seq<WatchResult>, n: nat): (r: seq<Msg>)
    requires n <= |watches| && n <= |results|
    requires forall i :: 0 <= i < n ==> Suits(watches[i], results[i])
    ensures |r| == 2 * n
    ensures forall i :: 0 <= i < n ==> r[2 * i] == Announcement(watches[i]) && r[2 * i + 1] == Conclusion(watches[i], results[i])
  {
    if n == 0 then []
    else WatchReports(watches, results, n - 1) + [Announcement(watches[n - 1]), Conclusion(watches[n - 1], results[n - 1])]
  }

  /** How many messages a request produces, whatever happens. */
  function ResponseLength(req: Request): nat {
    if req.RunCommand? then 3 + 2 * |req.watches| else 1
  }

  /** Every message a request is answered with: a fixed number, whatever the outcome, and for a command
      first its launch and last its termination. */
  function Response(req: Request, o: Outcome): (r: seq<Msg>)
    requires Matches(req, o)
    ensures |r| == ResponseLength(req)
    ensures req.RunCommand? ==> r[0].ProcessLaunched? && r[|r| - 1].ProcessTerminated?
  {
    match req
    case KillProcess(_) =>
      (match o.kill
       case Killed(self) => [ProcessLaunched(AsI32(self))]
       case KillFailed(self, errno) => [ProcessTerminated(AsI32(self), AsU32(errno))])
    case RunCommand(path, watches) =>
      SpawnReport(path, o.spawn) + WatchReports(watches, o.results, |watches|) + [FinalReport(o.spawn)]
    case OtherRequest => [ChildCreationError(ENODATA)]
  }

  // ----- what the responses say -----

  /** The answer to a command: the pid first, the child's or for want of one the daemon's own; then whether
      the program was executed, or why there is no child; at the end the child's exit code, or pid 0 and
      what went wrong. */
  lemma CommandAnswered(path: string, watches: seq<Watch>, spawn: SpawnResult, results: seq<WatchResult>)
    requires Matches(RunCommand(path, watches), OfRun(spawn, results))
    ensures var r := Response(RunCommand(path, watches), OfRun(spawn, results));
            && |r| == 3 + 2 * |watches|
            && match spawn
               case Spawned(pid, wait) =>
                 && r[0] == ProcessLaunched(AsI32(pid)) && r[1] == ExecveTerminated(AsI32(pid), path, true)
                 && r[|r| - 1].ProcessTerminated? && r[|r| - 1].pid == AsI32(pid)
                 && r[|r| - 1].code == (match wait
                      case Exit(Some(code)) => AsU32(code)
                      case Exit(None) => 1
                      case WaitError(Some(raw)) => AsU32(raw)
                      case WaitError(None) => 1)
               case CommandNotFound(self) =>
                 && r[0] == ProcessLaunched(self) && r[1] == ExecveTerminated(self, path, false)
                 && r[|r| - 1] == ProcessTerminated(0, 1)
               case SpawnError(self, Some(raw)) =>
                 && r[0] == ProcessLaunched(self) && r[1] == ChildCreationError(AsU32(raw))
                 && r[|r| - 1] == ProcessTerminated(0, AsU32(raw))
               case SpawnError(self, None) =>
                 r[0] == ProcessLaunched(self) && r[1] == ChildCreationError(1) && r[|r| - 1] == ProcessTerminated(0, 1)
  {
  }

  /** The answer to the `i`th watch of a command: what is watched, with the strongest trigger that the mask
      asks for, and how the watching ended. */
  lemma WatchAnswered(path: string, watches: seq<Watch>, spawn: SpawnResult, results: seq<WatchResult>, i: nat)
    requires Matches(RunCommand(path, watches), OfRun(spawn, results)) && i < |watches|
    ensures var r := Response(RunCommand(path, watches), OfRun(spawn, results));
            && |r| == 3 + 2 * |watches|
            && match watches[i]
               case InotifyWatch(p, mask, size) =>
                 && r[2 + 2 * i].InotifyPathUpdated? && r[2 + 2 * i].path == p
                 && r[2 + 2 * i].size == 0 && r[2 + 2 * i].limit == size && TriggerFits(r[2 + 2 * i].trigger, mask)
                 && (match results[i]
                     case Triggered(pid) => r[3 + 2 * i] == ProcessTerminated(AsI32(pid), 0)
                     case WatchFailed(pid, errno) => r[3 + 2 * i] == ProcessTerminated(AsI32(pid), AsU32(errno))
                     case Reached(_) => false)
               case TcpWatch(port) =>
                 && r[2 + 2 * i] == SocketWatched(AsI32(port))
                 && (match results[i]
                     case Reached(Listen) => r[3 + 2 * i] == SocketWatchTerminated(AsI32(port), PortListening)
                     case Reached(Established) => r[3 + 2 * i] == SocketWatchTerminated(AsI32(port), PortCreated)
                     case Reached(OtherState) => r[3 + 2 * i] == SocketWatchTerminated(AsI32(port), Unknown)
                     case WatchFailed(pid, errno) => r[3 + 2 * i] == ProcessTerminated(AsI32(pid), AsU32(errno))
                     case Triggered(_) => false)
  {
    var w, r := watches[i], results[i];
    var reports := WatchReports(watches, results, |watches|);
    assert Suits(w, r);
    assert Response(RunCommand(path, watches), OfRun(spawn, results))[2 + 2 * i] == reports[2 * i];
    assert Response(RunCommand(path, watches), OfRun(spawn, results))[3 + 2 * i] == reports[2 * i + 1];
    if w.InotifyWatch? { TriggerIsStrongest(w.mask); }
  }

  /** Closing over modification over deletion over creation over access, by the bits of the mask. */
  predicate TriggerFits(t: Trigger, mask: bv32) {
    && (t == SizeReached <==> mask & 0x18 != 0)
    && (mask & 0x18 == 0 ==> (t == Modified <==> mask & 0x2 != 0))
    && (mask & 0x1A == 0 ==> (t == Deleted <==> mask & 0x200 != 0))
    && (mask & 0x21A == 0 ==> t == if mask & 0x100 != 0 then Created else Accessed)
  }

  lemma TriggerIsStrongest(mask: bv32)
    ensures TriggerFits(TriggerOf(mask), mask)
  {
  }

  /** The answers to a kill and to any other request. */
  lemma OthersAnswered(pid: int, kill: KillResult)
    ensures match kill
            case Killed(self) => Response(KillProcess(pid), OfKill(kill)) == [ProcessLaunched(AsI32(self))]
            case KillFailed(self, errno) =>
              Response(KillProcess(pid), OfKill(kill)) == [ProcessTerminated(AsI32(self), AsU32(errno))]
    ensures Response(OtherRequest, OfOther) == [ChildCreationError(61)]
  {
  }

  // ----- one connection's output -----

  /** The responses to a list of requests, one after the other. */
  function Responses(reqs: seq<Request>, os: seq<Outcome>): seq<Msg>
    requires |reqs| == |os| && forall i :: 0 <= i < |reqs| ==> Matches(reqs[i], os[i])
  {
    if reqs == [] then []
    else Responses(reqs[..|reqs| - 1], os[..|os| - 1]) + Response(reqs[|reqs| - 1], os[|os| - 1])
  }

  /** Cutting an output into pieces of the lengths that the requests determine. */
  function Split(reqs: seq<Request>, out: seq<Msg>): (r: Option<seq<seq<Msg>>>)
    decreases |reqs|
  {
    if reqs == [] then if out == [] then Some([]) else None
    else
      var n := ResponseLength(reqs[|reqs| - 1]);
      if |out| < n then None
      else
        match Split(reqs[..|reqs| - 1], out[..|out| - n])
        case None => None
        case Some(front) => Some(front + [out[|out| - n..]])
  }

  /** The response to each request, in order. */
  function Pieces(reqs: seq<Request>, os: seq<Outcome>): (r: seq<seq<Msg>>)
    requires |reqs| == |os| && forall i :: 0 <= i < |reqs| ==> Matches(reqs[i], os[i])
    ensures |r| == |reqs|
  {
    if reqs == [] then []
    else Pieces(reqs[..|reqs| - 1], os[..|os| - 1]) + [Response(reqs[|reqs| - 1], os[|os| - 1])]
  }

  lemma {:induction false} PieceIs(reqs: seq<Request>, os: seq<Outcome>, i: nat)
    requires |reqs| == |os| && forall j :: 0 <= j < |reqs| ==> Matches(reqs[j], os[j])
    requires i < |reqs|
    ensures Pieces(reqs, os)[i] == Response(reqs[i], os[i])
    decreases |reqs|
  {
    if i < |reqs| - 1 { PieceIs(reqs[..|reqs| - 1], os[..|os| - 1], i); }
  }

  /** From the requests alone, an output splits back into the response to each request. */
  lemma {:induction false} SplitResponses(reqs: seq<Request>, os: seq<Outcome>)
    requires |reqs| == |os| && forall i :: 0 <= i < |reqs| ==> Matches(reqs[i], os[i])
    ensures Split(reqs, Responses(reqs, os)) == Some(Pieces(reqs, os))
  {
    if reqs != [] {
      var k := |reqs| - 1;
      SplitResponses(reqs[..k], os[..k]);
      SplitLast(reqs, Responses(reqs[..k], os[..k]), Response(reqs[k], os[k]));
    }
  }

  lemma SplitLast(reqs: seq<Request>, front: seq<Msg>, last: seq<Msg>)
    requires reqs != [] && |last| == ResponseLength(reqs[|reqs| - 1])
    requires Split(reqs[..|reqs| - 1], front).Some?
    ensures Split(reqs, front + last) == Some(Split(reqs[..|reqs| - 1], front).value + [last])
  {
    var out := front + last;
    assert out[..|out| - |last|] == front;
    assert out[|out| - |last|..] == last;
  }

  /** Two ways of answering the same requests that give the same output gave the same response to each. */
  lemma OutputDeterminesResponses(reqs: seq<Request>, os: seq<Outcome>, os': seq<Outcome>, i: nat)
    requires |reqs| == |os| == |os'| && i < |reqs|
    requires forall j :: 0 <= j < |reqs| ==> Matches(reqs[j], os[j]) && Matches(reqs[j], os'[j])
    requires Responses(reqs, os) == Responses(reqs, os')
    ensures Response(reqs[i], os[i]) == Response(reqs[i], os'[i])
  {
    SplitResponses(reqs, os);
    SplitResponses(reqs, os');
    PieceIs(reqs, os, i);
    PieceIs(reqs, os', i);
  }
}
