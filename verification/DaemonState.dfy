/** The C daemon as a state machine: its epoll loop (`c/daemon-core.c`), the handlers the loop
    calls (`c/daemon-features/events.c`), the launch protocol (`c/daemon-features/clone.c`), and
    the kernel and child processes they talk to.  One label is one handler run or one action of
    a child; every choice that the kernel, a child or a client makes is part of the label. */
module DaemonState {
  import opened Options
  import opened ProcessManager

  // ----- descriptors -----

  /** What a descriptor refers to.  `Plain` stands for the listening socket, the trace file, the
      epoll instance and the signal descriptor. */
  datatype File =
    | Std
    | Plain
    | Watcher
    | Connection
    | ErrorFile
    | PipeRead(pipe: nat)
    | PipeWrite(pipe: nat)

  type FdTable = map<nat, File>

  function AtLeast(used: set<nat>, i: nat): set<nat> { set j | j in used && i <= j }

  /** The lowest descriptor from `i` on that is not in use: what open, accept and pipe hand out. */
  function LowestFree(used: set<nat>, i: nat := 0): (fd: nat)
    ensures i <= fd && fd !in used
    ensures forall j :: i <= j < fd ==> j in used
    decreases |AtLeast(used, i)|
  {
    if i !in used then i
    else
      assert AtLeast(used, i + 1) == AtLeast(used, i) - {i};
      LowestFree(used, i + 1)
  }

  // ----- children -----

  datatype ExitStatus = Exited(code: int) | Signaled(signal: int)

  /** How far a child has come: `Cloned` before it touched its descriptors, `Ready` when it is about
      to call execve, `Running` once execve replaced it, `ExecFailed` when execve returned, `Wrote`
      once the error number went into the pipe; then dead, and then waited for. */
  datatype Phase =
    | Cloned
    | Ready
    | Running
    | ExecFailed(errno: int)
    | Wrote
    | Zombie(status: ExitStatus)
    | Reaped(status: ExitStatus)
  {
    predicate Dead() { Zombie? || Reaped? }
  }

  /** One launched child with its own descriptor table.  `wrote` is the error number it put into its
      pipe, `slot` the record the manager gave it at launch, and `merged` says that its SIGCHLD was
      dropped because another was pending; the daemon stores none of these three. */
  datatype Child = Child(
    pid: int, path: string, stack: nat,
    errFile: nat, readFd: nat, writeFd: nat, pipe: nat,
    fds: FdTable, phase: Phase,
    wrote: Option<int>, slot: Option<nat>, merged: bool)
  {
    predicate Live() { !phase.Reaped? }
  }

  // ----- messages and registrations -----

  datatype Msg =
    | Listening
    | Launched(pid: int)
    | ExecTerminated(pid: int, path: string, success: bool)
    | Terminated(pid: int, code: int)
    | CreationError(errno: int)
    | WatchListUpdated(path: string)
    | PathUpdated(path: string)

  /** A message given to `send_message`: the descriptor it was sent on and, for the proofs, the
      child it is about. */
  datatype Sent = Sent(dest: Option<nat>, msg: Msg, about: Option<nat>)

  /** The data attached to an epoll registration; `child` numbers the launch it was made for. */
  datatype Reg =
    | Listener
    | Signals
    | Inotify(limit: nat)
    | Conn
    | Exec(pid: int, path: string, child: nat)

  // ----- states -----

  /** `comm` is the `communication_socket` variable (never written at first), `heap` the stacks
      allocated and not freed, `pipes` the unread error numbers of every pipe ever made, `pending`
      the child named by the SIGCHLD waiting in the signal descriptor, `accepted` the number of
      connections accepted so far. */
  datatype State = State(
    slots: seq<Slot>, nb: int, comm: Option<nat>, regs: map<nat, Reg>,
    fds: FdTable, heap: set<nat>, pipes: seq<seq<int>>,
    children: seq<Child>, pending: Option<nat>,
    out: seq<Sent>, accepted: nat)

  /** The state when the loop is entered: 0 to 2 on /dev/null, then the listening socket, the trace
      file, the epoll instance, the shared inotify instance and the signal descriptor. */
  function Initial(): State {
    State(seq(MAX_PROCESS, _ => Fresh), 0, None,
          map[3 := Listener, 6 := Inotify(0), 7 := Signals],
          map[0 := Std, 1 := Std, 2 := Std, 3 := Plain, 4 := Plain, 5 := Plain, 6 := Watcher, 7 := Plain],
          {}, [], [], None, [], 0)
  }

  /** The children launched and not yet waited for. */
  function LiveSet(children: seq<Child>): set<nat> {
    set c: nat | c < |children| && children[c].Live()
  }

  // ----- steps -----

  datatype Label =
    | Accept
    | Hangup(fd: nat)
    | Launch(conn: nat, path: string, openOk: bool, stack: nat, pid: int)
    | LaunchFails(conn: nat, openOk: bool, piped: bool, errno: int)
    | WatchPath(conn: nat, path: string, limit: nat, initOk: bool)
    | Notify(fd: nat, path: string)
    | Prepare(c: nat)
    | ExecSucceeds(c: nat)
    | ExecFails(c: nat, errno: int)
    | WriteErrno(c: nat)
    | Die(c: nat, status: ExitStatus)
    | ReadSignal(c: nat)
    | ReadReport(fd: nat)

  /** What goes wrong when a step does something C does not define, or gives back a stack or a
      descriptor that is not (or no longer) the record's. */
  datatype FaultKind = BadScan | DoubleFree | StrayClose

  /** The labels that are actions of a child. */
  predicate ChildAction(l: Label) {
    l.Prepare? || l.ExecSucceeds? || l.ExecFails? || l.WriteErrno? || l.Die?
  }

  /** What launch fixed about a child and nothing changes later. */
  predicate SameIdentity(a: Child, b: Child) {
    && a.pid == b.pid && a.path == b.path && a.stack == b.stack && a.slot == b.slot
    && a.errFile == b.errFile && a.readFd == b.readFd && a.writeFd == b.writeFd && a.pipe == b.pipe
  }

  datatype Outcome = Next(state: State) | Fault(kind: FaultKind)

  /** No descriptor of the daemon or of any child refers to the write end of pipe `p`. */
  ghost predicate NoWriter(s: State, p: nat) {
    && (forall f | f in s.fds :: s.fds[f] != PipeWrite(p))
    && (forall c, f | 0 <= c < |s.children| && f in s.children[c].fds :: s.children[c].fds[f] != PipeWrite(p))
  }

  /** epoll reports an exec registration: there is something to read, or nobody left to write. */
  ghost predicate ReportReady(s: State, fd: nat) {
    && fd in s.regs && s.regs[fd].Exec?
    && fd in s.fds && s.fds[fd].PipeRead? && s.fds[fd].pipe < |s.pipes|
    && (s.pipes[s.fds[fd].pipe] != [] || NoWriter(s, s.fds[fd].pipe))
  }

  /** No child that has not been waited for bears the pid. */
  ghost predicate PidFree(children: seq<Child>, pid: int) {
    forall c :: 0 <= c < |children| && children[c].Live() ==> children[c].pid != pid
  }

  /** What the kernel lets happen.  A pid is not handed out again before its bearer has been waited
      for; malloc never returns a block in use; requests arrive on accepted connections; inotify reports
      nothing before a client has asked for a watch. */
  ghost predicate Enabled(s: State, l: Label) {
    match l
    case Accept => true
    case Hangup(fd) => fd in s.regs && s.regs[fd].Conn?
    case Launch(conn, path, openOk, stack, pid) =>
      && conn in s.regs && s.regs[conn].Conn?
      && stack !in s.heap
      && PidFree(s.children, pid)
    case LaunchFails(conn, openOk, piped, errno) => conn in s.regs && s.regs[conn].Conn?
    case WatchPath(conn, path, limit, initOk) => conn in s.regs && s.regs[conn].Conn?
    case Notify(fd, path) => fd in s.regs && s.regs[fd].Inotify? && s.accepted > 0
    case Prepare(c) => c < |s.children| && s.children[c].phase == Cloned
    case ExecSucceeds(c) => c < |s.children| && s.children[c].phase == Ready
    case ExecFails(c, errno) => c < |s.children| && s.children[c].phase == Ready
    case WriteErrno(c) => c < |s.children| && s.children[c].phase.ExecFailed?
    case Die(c, status) => c < |s.children| && !s.children[c].phase.Dead()
    case ReadSignal(c) => s.pending == Some(c) && c < |s.children| && s.children[c].phase.Zombie?
    case ReadReport(fd) => ReportReady(s, fd)
  }

  /** The descriptor of a freshly opened error file; standard output when the open fails. */
  function ErrorFd(fds: FdTable, openOk: bool): nat {
    if openOk then LowestFree(fds.Keys) else STDOUT_FILENO
  }

  function WithErrorFile(fds: FdTable, openOk: bool): FdTable {
    if openOk then fds[LowestFree(fds.Keys) := ErrorFile] else fds
  }

  /** The two ends that pipe hands out: first the read end, then the write end. */
  function ReadEnd(fds: FdTable): nat { LowestFree(fds.Keys) }

  function WriteEnd(fds: FdTable): nat { LowestFree(fds.Keys + {ReadEnd(fds)}) }

  function WithPipe(fds: FdTable, p: nat): FdTable {
    fds[ReadEnd(fds) := PipeRead(p)][WriteEnd(fds) := PipeWrite(p)]
  }

  /** The child that a successful launch creates, still sharing every descriptor with the daemon. */
  function NewChild(s: State, path: string, openOk: bool, stack: nat, pid: int): Child {
    var fds := WithErrorFile(s.fds, openOk);
    Child(pid, path, stack, ErrorFd(s.fds, openOk), ReadEnd(fds), WriteEnd(fds), |s.pipes|,
          WithPipe(fds, |s.pipes|), Cloned, None, Placement(s.slots, s.nb), false)
  }

  /** `process_command_request` when clone succeeds. */
  function LaunchStep(s: State, conn: nat, path: string, openOk: bool, stack: nat, pid: int): State {
    var ch := NewChild(s, path, openOk, stack, pid);
    s.(slots := Added(s.slots, pid, ch.errFile, stack, s.nb),
       nb := s.nb + 1,
       regs := s.regs[ch.readFd := Exec(pid, path, |s.children|)],
       fds := ch.fds - {ch.writeFd},
       heap := s.heap + {stack},
       pipes := s.pipes + [[]],
       children := s.children + [ch],
       out := s.out + [Sent(Some(conn), Launched(pid), Some(|s.children|))])
  }

  /** `process_command_request` when an allocation or clone fails: the error file, and the pipe if it
      was made, stay open. */
  function LaunchFailsStep(s: State, conn: nat, openOk: bool, piped: bool, errno: int): State {
    var fds := WithErrorFile(s.fds, openOk);
    s.(fds := if piped then WithPipe(fds, |s.pipes|) else fds,
       pipes := if piped then s.pipes + [[]] else s.pipes,
       out := s.out + [Sent(Some(conn), CreationError(errno), None)])
  }

  /** The inotify case of `process_surveillance_requests`: a positive limit gets its own instance, if one
      can be had; a failure only shows in the log. */
  function WatchStep(s: State, conn: nat, path: string, limit: nat, initOk: bool): State {
    var fd := LowestFree(s.fds.Keys);
    var s' := if limit > 0 && initOk then s.(fds := s.fds[fd := Watcher], regs := s.regs[fd := Inotify(limit)]) else s;
    s'.(out := s.out + [Sent(Some(conn), WatchListUpdated(path), None)])
  }

  function AcceptStep(s: State): State {
    var fd := LowestFree(s.fds.Keys);
    s.(fds := s.fds[fd := Connection], regs := s.regs[fd := Conn], comm := Some(fd),
       accepted := s.accepted + 1, out := s.out + [Sent(Some(fd), Listening, None)])
  }

  function WithChild(s: State, c: nat, ch: Child): State
    requires c < |s.children|
  {
    s.(children := s.children[c := ch])
  }

  /** The first two calls of `child_function`: close the descriptor below the write end, then put the
      error file on standard output. */
  function PreparedFds(ch: Child): FdTable {
    var fds := ch.fds - {ch.writeFd - 1};
    if ch.errFile in fds then fds[STDOUT_FILENO := fds[ch.errFile]] else fds
  }

  /** Close-on-exec: only pipe write ends carry the flag. */
  function AfterExec(fds: FdTable): FdTable {
    map f | f in fds && !fds[f].PipeWrite? :: fds[f]
  }

  /** The write of the error number, through whatever the child's descriptor `writeFd` refers to. */
  function WriteStep(s: State, c: nat): State
    requires c < |s.children| && s.children[c].phase.ExecFailed?
  {
    var ch := s.children[c];
    var s' := WithChild(s, c, ch.(phase := Wrote, wrote := Some(ch.phase.errno)));
    if ch.writeFd in ch.fds && ch.fds[ch.writeFd].PipeWrite? && ch.fds[ch.writeFd].pipe < |s.pipes| then
      var p := ch.fds[ch.writeFd].pipe;
      s'.(pipes := s.pipes[p := s.pipes[p] + [ch.phase.errno]])
    else s'
  }

  /** A child dies: its descriptors go, and SIGCHLD is raised unless one is pending already. */
  function DieStep(s: State, c: nat, status: ExitStatus): State
    requires c < |s.children|
  {
    var ch := s.children[c].(phase := Zombie(status), fds := map[], merged := s.pending.Some?);
    WithChild(s, c, ch).(pending := if s.pending.None? then Some(c) else s.pending)
  }

  /** The number reported for a dead child: its exit code, or the signal that killed it. */
  function StatusCode(status: ExitStatus): int {
    match status
    case Exited(code) => code
    case Signaled(signal) => signal
  }

  /** `handle_SIGCHLD`: wait for the child, release a record, count down, report. */
  function ReapStep(s: State, c: nat): Outcome
    requires c < |s.children| && s.children[c].phase.Zombie?
  {
    var ch := s.children[c];
    var waited := WithChild(s, c, ch.(phase := Reaped(ch.phase.status))).(pending := None, nb := s.nb - 1,
      out := s.out + [Sent(s.comm, Terminated(ch.pid, StatusCode(ch.phase.status)), Some(c))]);
    match Scan(s.slots, ch.pid, s.nb)
    case Undefined => Fault(BadScan)
    case NotFound => Next(waited)
    case Found(k) =>
      var r := s.slots[k];
      if r.stack.Some? && r.stack.value !in s.heap then Fault(DoubleFree)
      else if r.errFile != STDOUT_FILENO && !(r.Occupied() && r.errFile in s.fds && s.fds[r.errFile].ErrorFile?) then
        Fault(StrayClose)
      else
        Next(waited.(
          slots := Released(s.slots, k),
          heap := if r.stack.Some? then s.heap - {r.stack.value} else s.heap,
          fds := if r.errFile != STDOUT_FILENO then s.fds - {r.errFile} else s.fds))
  }

  /** The exec case of the loop: report what the pipe said, drop the registration, close the pipe. */
  function ReportStep(s: State, fd: nat): State
    requires fd in s.regs && s.regs[fd].Exec? && fd in s.fds && s.fds[fd].PipeRead? && s.fds[fd].pipe < |s.pipes|
  {
    var p := s.fds[fd].pipe;
    var reg := s.regs[fd];
    s.(regs := s.regs - {fd}, fds := s.fds - {fd},
       pipes := if s.pipes[p] == [] then s.pipes else s.pipes[p := s.pipes[p][1..]],
       out := s.out + [Sent(s.comm, ExecTerminated(reg.pid, reg.path, s.pipes[p] == []), Some(reg.child))])
  }

  ghost function Step(s: State, l: Label): Outcome
    requires Enabled(s, l)
  {
    match l
    case Accept => Next(AcceptStep(s))
    case Hangup(fd) => Next(s.(regs := s.regs - {fd}, fds := s.fds - {fd}))
    case Launch(conn, path, openOk, stack, pid) => Next(LaunchStep(s, conn, path, openOk, stack, pid))
    case LaunchFails(conn, openOk, piped, errno) => Next(LaunchFailsStep(s, conn, openOk, piped, errno))
    case WatchPath(conn, path, limit, initOk) => Next(WatchStep(s, conn, path, limit, initOk))
    case Notify(fd, path) => Next(s.(out := s.out + [Sent(s.comm, PathUpdated(path), None)]))
    case Prepare(c) =>
      var ch := s.children[c];
      Next(WithChild(s, c, ch.(phase := Ready, fds := PreparedFds(ch))))
    case ExecSucceeds(c) =>
      var ch := s.children[c];
      Next(WithChild(s, c, ch.(phase := Running, fds := AfterExec(ch.fds))))
    case ExecFails(c, errno) => Next(WithChild(s, c, s.children[c].(phase := ExecFailed(errno))))
    case WriteErrno(c) => Next(WriteStep(s, c))
    case Die(c, status) => Next(DieStep(s, c, status))
    case ReadSignal(c) => ReapStep(s, c)
    case ReadReport(fd) => Next(ReportStep(s, fd))
  }

  /** The step from `s` to `s'` is possible and does not fault. */
  ghost predicate Follows(s: State, l: Label, s': State) {
    Enabled(s, l) && Step(s, l) == Next(s')
  }

  /** An action of a child changes that child, its pipe and the pending signal, nothing else. */
  lemma ChildActionFrame(s: State, l: Label, s': State)
    requires ChildAction(l) && Follows(s, l, s')
    ensures s' == s.(children := s'.children, pipes := s'.pipes, pending := s'.pending)
    ensures l.c < |s.children| && s'.children == s.children[l.c := s'.children[l.c]]
    ensures SameIdentity(s.children[l.c], s'.children[l.c])
    ensures s.children[l.c].Live() && s'.children[l.c].Live()
    ensures !l.WriteErrno? ==> s'.pipes == s.pipes
    ensures !l.Die? ==> s'.pending == s.pending
  {
  }

  // ----- runs -----

  ghost predicate StepAt(ss: seq<State>, ls: seq<Label>, i: nat)
    requires i < |ls| && |ss| == |ls| + 1
  {
    Follows(ss[i], ls[i], ss[i + 1])
  }

  /** `ss` are the states and `ls` the labels of a run from the initial state, none of which faults. */
  ghost predicate Run(ss: seq<State>, ls: seq<Label>) {
    && |ss| == |ls| + 1 && ss[0] == Initial()
    && forall i {:trigger StepAt(ss, ls, i)} :: 0 <= i < |ls| ==> StepAt(ss, ls, i)
  }

  lemma ExtendRun(ss: seq<State>, ls: seq<Label>, l: Label)
    requires Run(ss, ls) && Enabled(ss[|ls|], l) && Step(ss[|ls|], l).Next?
    ensures Run(ss + [Step(ss[|ls|], l).state], ls + [l])
  {
    var ss', ls' := ss + [Step(ss[|ls|], l).state], ls + [l];
    forall i: nat | i < |ls'|
      ensures StepAt(ss', ls', i)
    {
      if i < |ls| { assert StepAt(ss, ls, i); }
    }
  }

  /** `ExtendRun` as a way to build a run step by step. */
  lemma Extend(ss: seq<State>, ls: seq<Label>, l: Label) returns (ss': seq<State>, ls': seq<Label>)
    requires Run(ss, ls) && Enabled(ss[|ls|], l) && Step(ss[|ls|], l).Next?
    ensures ss' == ss + [Step(ss[|ls|], l).state] && ls' == ls + [l] && Run(ss', ls')
  {
    ss', ls' := ss + [Step(ss[|ls|], l).state], ls + [l];
    ExtendRun(ss, ls, l);
  }

  /** Taking the steps `ls` one after the other leads from `s` to `s'`. */
  ghost predicate Executes(s: State, ls: seq<Label>, s': State)
    decreases |ls|
  {
    if ls == [] then s == s'
    else Enabled(s, ls[0]) && Step(s, ls[0]).Next? && Executes(Step(s, ls[0]).state, ls[1..], s')
  }

  lemma {:induction false} ExecutesAppend(s: State, ls: seq<Label>, m: State, l: Label, s': State)
    requires Executes(s, ls, m) && Follows(m, l, s')
    ensures Executes(s, ls + [l], s')
    decreases |ls|
  {
    if ls == [] {
      assert Executes(s', [], s');
    } else {
      ExecutesAppend(Step(s, ls[0]).state, ls[1..], m, l, s');
      assert (ls + [l])[1..] == ls[1..] + [l];
    }
  }

  /** A run followed by such steps is again a run. */
  lemma {:induction false} ExecutesExtendsRun(ss: seq<State>, ls: seq<Label>, more: seq<Label>, s': State) returns (tail: seq<State>)
    requires Run(ss, ls) && Executes(ss[|ls|], more, s')
    ensures Run(ss + tail, ls + more) && (ss + tail)[|ls + more|] == s'
    decreases |more|
  {
    if more == [] {
      tail := [];
      assert ss + tail == ss && ls + more == ls;
    } else {
      var next := Step(ss[|ls|], more[0]).state;
      ExtendRun(ss, ls, more[0]);
      var rest := ExecutesExtendsRun(ss + [next], ls + [more[0]], more[1..], s');
      tail := [next] + rest;
      assert ss + [next] + rest == ss + tail;
      assert ls + [more[0]] + more[1..] == ls + more;
    }
  }

  /** At no point of the run are more than 256 children waiting to be reaped. */
  ghost predicate WithinLimit(ss: seq<State>) {
    forall i :: 0 <= i < |ss| ==> |LiveSet(ss[i].children)| <= MAX_PROCESS
  }
}
