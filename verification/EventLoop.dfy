/** The handlers of the epoll loop as the C code writes them: ordered system calls on mutable state.
    Each is proved to take exactly the steps that `DaemonState` gives it. */
module EventLoop {
  import opened Options
  import opened ProcessManager
  import opened DaemonState
  import opened Events
  import opened TableSafety
  import opened RunSafety

  /** The `info_child` that `launch_process` returns. */
  datatype InfoChild = InfoChild(stack: nat, childId: int, pipe: nat)

  /** What releasing the record that a scan found changes. */
  ghost predicate Releases(r: Lookup, slots: seq<Slot>, heap: set<nat>, fds: FdTable,
                           slots': seq<Slot>, heap': set<nat>, fds': FdTable) {
    match r
    case Found(k) =>
      && k < |slots| && slots[k].Used?
      && slots' == Released(slots, k)
      && heap' == (if slots[k].stack.Some? then heap - {slots[k].stack.value} else heap)
      && fds' == (if slots[k].errFile != STDOUT_FILENO then fds - {slots[k].errFile} else fds)
    case _ => slots' == slots && heap' == heap && fds' == fds
  }

  /** The reap step, put together from its parts. */
  lemma ReapParts(s: State, c: nat, slots: seq<Slot>, heap: set<nat>, fds: FdTable)
    requires c < |s.children| && s.children[c].phase.Zombie? && ReapStep(s, c).Next?
    requires Releases(Scan(s.slots, s.children[c].pid, s.nb), s.slots, s.heap, s.fds, slots, heap, fds)
    ensures var ch := s.children[c];
            ReapStep(s, c).state ==
            State(slots, s.nb - 1, s.comm, s.regs, fds, heap, s.pipes,
                  s.children[c := ch.(phase := Reaped(ch.phase.status))], None,
                  s.out + [Sent(s.comm, Terminated(ch.pid, StatusCode(ch.phase.status)), Some(c))], s.accepted)
  {
  }

  /** The launch step, put together from its parts. */
  lemma LaunchParts(s: State, conn: nat, path: string, openOk: bool, stack: nat, pid: int)
    ensures var table := WithErrorFile(s.fds, openOk);
            var errFile, r, w, made := ErrorFd(s.fds, openOk), ReadEnd(table), WriteEnd(table), WithPipe(table, |s.pipes|);
            LaunchStep(s, conn, path, openOk, stack, pid) ==
            State(Added(s.slots, pid, errFile, stack, s.nb), s.nb + 1, s.comm,
                  s.regs[r := Exec(pid, path, |s.children|)], made - {w}, s.heap + {stack}, s.pipes + [[]],
                  s.children + [Child(pid, path, stack, errFile, r, w, |s.pipes|, made, Phase.Cloned, None,
                                      Placement(s.slots, s.nb), false)],
                  s.pending, s.out + [Sent(Some(conn), Launched(pid), Some(|s.children|))], s.accepted)
  {
  }

  lemma FailureParts(s: State, conn: nat, openOk: bool, piped: bool, errno: int)
    ensures var table := WithErrorFile(s.fds, openOk);
            LaunchFailsStep(s, conn, openOk, piped, errno) ==
            State(s.slots, s.nb, s.comm, s.regs, if piped then WithPipe(table, |s.pipes|) else table, s.heap,
                  if piped then s.pipes + [[]] else s.pipes, s.children, s.pending,
                  s.out + [Sent(Some(conn), CreationError(errno), None)], s.accepted)
  {
  }

  class Daemon {
    // the daemon's variables
    const manager: Manager
    var nbProcess: int
    var communicationSocket: Option<nat>
    // the kernel's side of them
    var regs: map<nat, Reg>
    var fds: FdTable
    var heap: set<nat>
    var pipes: seq<seq<int>>
    var children: seq<Child>
    var pending: Option<nat>
    var out: seq<Sent>
    var accepted: nat

    ghost function View(): State
      reads this, manager.records
    {
      State(manager.records[..], nbProcess, communicationSocket, regs, fds, heap, pipes, children, pending, out, accepted)
    }

    /** Everything that `main` sets up before the loop. */
    constructor ()
      ensures fresh(manager.records) && View() == Initial()
    {
      manager := new Manager(MAX_PROCESS);
      nbProcess, communicationSocket := 0, None;
      regs := map[3 := Listener, 6 := Inotify(0), 7 := Signals];
      fds := map[0 := Std, 1 := Std, 2 := Std, 3 := Plain, 4 := Plain, 5 := Plain, 6 := Watcher, 7 := Plain];
      heap, pipes, children, pending, out, accepted := {}, [], [], None, [], 0;
      new;
      assert manager.records[..] == seq(MAX_PROCESS, _ => Fresh);
    }

    // ----- system calls -----

    /** open: the lowest free descriptor, or -1. */
    method Open(ok: bool) returns (fd: int)
      modifies `fds
      ensures fds == WithErrorFile(old(fds), ok)
      ensures fd == if ok then LowestFree(old(fds).Keys) else -1
    {
      if !ok { return -1; }
      fd := LowestFree(fds.Keys);
      fds := fds[fd := ErrorFile];
    }

    method Pipe() returns (r: nat, w: nat)
      modifies `fds, `pipes
      ensures r == ReadEnd(old(fds)) && w == WriteEnd(old(fds))
      ensures fds == WithPipe(old(fds), |old(pipes)|) && pipes == old(pipes) + [[]]
    {
      r := LowestFree(fds.Keys);
      fds := fds[r := PipeRead(|pipes|)];
      w := LowestFree(fds.Keys);
      fds := fds[w := PipeWrite(|pipes|)];
      assert old(fds).Keys + {r} == old(fds)[r := PipeRead(|pipes|)].Keys;
      pipes := pipes + [[]];
    }

    method Close(fd: int)
      modifies `fds
      ensures fds == old(fds) - {fd}
    {
      fds := fds - {fd};
    }

    method Free(stack: nat)
      modifies `heap
      ensures heap == old(heap) - {stack}
    {
      heap := heap - {stack};
    }

    method SendMessage(dest: Option<nat>, msg: Msg, about: Option<nat>)
      modifies `out
      ensures out == old(out) + [Sent(dest, msg, about)]
    {
      out := out + [Sent(dest, msg, about)];
    }

    // ----- launching -----

    /** `launch_process`: allocate the stack, make the pipe, clone, close the write end. */
    method LaunchProcess(path: string, errFile: nat, choice: LaunchChoice) returns (info: Option<InfoChild>)
      requires !choice.NoMemory? ==> choice.stack !in heap
      modifies `fds, `heap, `pipes, `children
      ensures var r, w, made := ReadEnd(old(fds)), WriteEnd(old(fds)), WithPipe(old(fds), |old(pipes)|);
              match choice
              case Cloned(stack, pid) =>
                && info == Some(InfoChild(stack, pid, r))
                && fds == made - {w} && heap == old(heap) + {stack} && pipes == old(pipes) + [[]]
                && children == old(children) + [Child(pid, path, stack, errFile, r, w, |old(pipes)|, made,
                     Phase.Cloned, None, Placement(manager.records[..], nbProcess), false)]
              case NoMemory(_) =>
                info == None && fds == old(fds) && heap == old(heap) && pipes == old(pipes) && children == old(children)
              case CloneFailed(_, _) =>
                info == None && fds == made && heap == old(heap) && pipes == old(pipes) + [[]] && children == old(children)
    {
      if choice.NoMemory? {
        return None;
      }
      heap := heap + {choice.stack};
      var r, w := Pipe();
      if choice.CloneFailed? {
        Free(choice.stack);
        return None;
      }
      children := children + [Child(choice.pid, path, choice.stack, errFile, r, w, |pipes| - 1, fds,
        Phase.Cloned, None, Placement(manager.records[..], nbProcess), false)];
      Close(w);
      info := Some(InfoChild(choice.stack, choice.pid, r));
    }

    /** The error file of a launch, or standard output when there can be none. */
    method OpenErrorFile(ok: bool) returns (errFile: nat)
      modifies `fds
      ensures fds == WithErrorFile(old(fds), ok) && errFile == ErrorFd(old(fds), ok)
    {
      var fd := Open(ok);
      errFile := if fd == -1 then STDOUT_FILENO else fd;
    }

    /** `process_command_request`. */
    method ProcessCommandRequest(conn: nat, path: string, openOk: bool, choice: LaunchChoice)
      requires manager.records.Length == MAX_PROCESS
      requires !choice.NoMemory? ==> choice.stack !in heap
      modifies `fds, `heap, `pipes, `children, `nbProcess, `out, `regs, manager.records
      ensures View() == LaunchResult(old(View()), conn, path, openOk, choice)
    {
      ghost var before := View();
      var errFile := OpenErrorFile(openOk);
      var info := LaunchProcess(path, errFile, choice);
      if info.None? {
        SendMessage(Some(conn), CreationError(choice.errno), None);
        FailureParts(before, conn, openOk, choice.CloneFailed?, choice.errno);
      } else {
        TrackChild(conn, path, errFile, info.value);
        LaunchParts(before, conn, path, openOk, choice.stack, choice.pid);
      }
    }

    /** What follows a successful launch: record it, count it, report it, watch its pipe. */
    method TrackChild(conn: nat, path: string, errFile: int, child: InfoChild)
      requires manager.records.Length == MAX_PROCESS && children != []
      modifies `nbProcess, `out, `regs, manager.records
      ensures nbProcess == old(nbProcess) + 1
      ensures manager.records[..] == Added(old(manager.records[..]), child.childId, errFile, child.stack, old(nbProcess))
      ensures out == old(out) + [Sent(Some(conn), Launched(child.childId), Some(|children| - 1))]
      ensures regs == old(regs)[child.pipe := Exec(child.childId, path, |children| - 1)]
    {
      var added := manager.Add(child.childId, errFile, child.stack, nbProcess);
      if added != 0 {
        nbProcess := nbProcess + 1;
      }
      SendMessage(Some(conn), Launched(child.childId), Some(|children| - 1));
      regs := regs[child.pipe := Exec(child.childId, path, |children| - 1)];
    }

    /** The inotify watches of `process_surveillance_requests`. */
    method ProcessSurveillanceRequests(conn: nat, watches: seq<Watch>) returns (ghost own: seq<Option<nat>>)
      requires conn in fds && conn in regs && regs[conn].Conn? && regs.Keys <= fds.Keys
      modifies this
      ensures manager.records[..] == old(manager.records[..])
      ensures Executes(old(View()), WatchLabels(conn, watches), View())
      ensures Watched(old(View()), conn, watches, own, View())
    {
      assert Executes(View(), [], View());
      for i := 0 to |watches|
        invariant conn in fds && conn in regs && regs[conn].Conn? && regs.Keys <= fds.Keys
        invariant manager.records[..] == old(manager.records[..])
        invariant Executes(old(View()), WatchLabels(conn, watches[..i]), View())
      {
        ghost var before := View();
        if watches[i].limit > 0 {
          if watches[i].initOk {
            var inotifyFd := LowestFree(fds.Keys);
            fds := fds[inotifyFd := Watcher];
            regs := regs[inotifyFd := Inotify(watches[i].limit)];
          }  // otherwise epoll refuses the descriptor -1
        }
        SendMessage(Some(conn), WatchListUpdated(watches[i].path), None);
        assert View() == WatchStep(before, conn, watches[i].path, watches[i].limit, watches[i].initOk);
        ExecutesAppend(old(View()), WatchLabels(conn, watches[..i]), before,
                       WatchPath(conn, watches[i].path, watches[i].limit, watches[i].initOk), View());
        assert watches[..i + 1][..i] == watches[..i];
      }
      assert watches[..|watches|] == watches;
      own := WatchLabelsDo(old(View()), conn, watches, View());
    }

    // ----- children -----

    /** `manager_remove_process` with what its calls of free and close do. */
    method ReleaseRecord(pid: int)
      requires Scan(manager.records[..], pid, nbProcess) != Undefined
      modifies `heap, `fds, manager.records
      ensures Releases(Scan(old(manager.records[..]), pid, nbProcess),
                       old(manager.records[..]), old(heap), old(fds), manager.records[..], heap, fds)
    {
      var found, effect := manager.Remove(pid, nbProcess);
      if |effect.freed| == 1 { Free(effect.freed[0]); }
      if |effect.closed| == 1 { Close(effect.closed[0]); }
    }

    /** waitpid, and what it says of the child. */
    method WaitFor(c: nat) returns (pid: int, exitStatus: int)
      requires c < |children| && children[c].phase.Zombie?
      modifies `pending, `children
      ensures pending == None
      ensures children == old(children)[c := old(children)[c].(phase := Reaped(old(children)[c].phase.status))]
      ensures pid == old(children)[c].pid
      ensures match old(children)[c].phase.status
              case Exited(code) => exitStatus == code
              case Signaled(signal) => exitStatus == signal
    {
      pending := None;
      var status := children[c].phase.status;
      pid := children[c].pid;
      children := children[c := children[c].(phase := Reaped(status))];
      if status.Exited? {
        exitStatus := status.code;
      } else {
        exitStatus := status.signal;
      }
    }

    /** `handle_SIGCHLD` for the zombie that the signal names, and the sending of its result. */
    method HandleSigchld(c: nat)
      requires Enabled(View(), ReadSignal(c)) && ReapStep(View(), c).Next?
      modifies `pending, `children, `heap, `fds, `nbProcess, `out, manager.records
      ensures View() == ReapStep(old(View()), c).state
    {
      ghost var before := View();
      var pid, exitStatus := WaitFor(c);
      ReleaseRecord(pid);
      nbProcess := nbProcess - 1;
      SendMessage(communicationSocket, Terminated(pid, exitStatus), Some(c));
      ReapParts(before, c, manager.records[..], heap, fds);
    }

    /** The exec entry of the loop.  `input` tells which branch runs: the kernel sets EPOLLIN when the
        pipe holds something and only EPOLLHUP when it is empty and nobody can write. */
    method HandleReport(fd: nat, input: bool)
      requires Enabled(View(), ReadReport(fd))
      requires input <==> pipes[fds[fd].pipe] != []
      modifies this
      ensures View() == ReportStep(old(View()), fd)
    {
      if input {
        var edata := regs[fd];
        var n := ReadPipe(fd);
        var success;
        if n > 0 { success := false; } else { success := true; }
        SendMessage(communicationSocket, ExecTerminated(edata.pid, edata.path, success), Some(edata.child));
        regs := regs - {fd};
        Close(fd);
      } else {
        var edata := regs[fd];
        var n := ReadPipe(fd);
        var success;
        if n > 0 { success := false; } else { success := true; }
        SendMessage(communicationSocket, ExecTerminated(edata.pid, edata.path, success), Some(edata.child));
        regs := regs - {fd};
        Close(fd);
      }
    }

    /** read of four bytes from a pipe that has something to read or no writer. */
    method ReadPipe(fd: nat) returns (n: nat)
      requires fd in fds && fds[fd].PipeRead? && fds[fd].pipe < |pipes|
      modifies `pipes
      ensures var p := fds[fd].pipe;
              if old(pipes)[p] == [] then n == 0 && pipes == old(pipes)
              else n == 4 && pipes == old(pipes)[p := old(pipes)[p][1..]]
    {
      var p := fds[fd].pipe;
      if pipes[p] == [] { return 0; }
      pipes := pipes[p := pipes[p][1..]];
      n := 4;
    }

    // ----- connections -----

    method AcceptConnection()
      modifies this
      ensures manager.records[..] == old(manager.records[..])
      ensures View() == AcceptStep(old(View()))
    {
      var fd := LowestFree(fds.Keys);
      fds := fds[fd := Connection];
      regs := regs[fd := Conn];
      communicationSocket := Some(fd);
      accepted := accepted + 1;
      SendMessage(Some(fd), Listening, None);
    }

    /** The case of an empty frame: drop the registration, close the connection. */
    method HangUp(fd: nat)
      modifies `regs, `fds
      ensures regs == old(regs) - {fd} && fds == old(fds) - {fd}
    {
      regs := regs - {fd};
      Close(fd);
    }

    /** The run-command case: launch, then watch. */
    method HandleCommand(conn: nat, path: string, openOk: bool, choice: LaunchChoice, watches: seq<Watch>)
      returns (ghost own: seq<Option<nat>>)
      requires Intact(View()) && Enabled(View(), LaunchLabel(conn, path, openOk, choice))
      requires conn in regs && regs[conn].Conn? && (!choice.NoMemory? ==> choice.stack !in heap)
      modifies this, manager.records
      ensures Executes(old(View()), [LaunchLabel(conn, path, openOk, choice)] + WatchLabels(conn, watches), View())
      ensures Watched(LaunchResult(old(View()), conn, path, openOk, choice), conn, watches, own, View())
    {
      ghost var before := View();
      ProcessCommandRequest(conn, path, openOk, choice);
      ghost var l := LaunchLabel(conn, path, openOk, choice);
      assert Follows(before, l, View());
      LaunchKeepsConnection(before, l, View(), conn);
      own := ProcessSurveillanceRequests(conn, watches);
      assert ([l] + WatchLabels(conn, watches))[1..] == WatchLabels(conn, watches);
    }

    // ----- inotify and kill -----

    /** The messages of `handle_inotify_event`, one for each record. */
    method HandleInotify(fd: nat, paths: seq<string>)
      requires fd in regs && regs[fd].Inotify? && accepted > 0
      modifies `out
      ensures Executes(old(View()), NotifyLabels(fd, paths), View())
      ensures Notified(old(View()), paths, View())
    {
      assert Executes(View(), [], View());
      for i := 0 to |paths|
        invariant Executes(old(View()), NotifyLabels(fd, paths[..i]), View())
      {
        ghost var before := View();
        SendMessage(communicationSocket, PathUpdated(paths[i]), None);
        ExecutesAppend(old(View()), NotifyLabels(fd, paths[..i]), before, Notify(fd, paths[i]), View());
        assert paths[..i + 1][..i] == paths[..i];
      }
      assert paths[..|paths|] == paths;
      NotifyLabelsDo(old(View()), fd, paths, View());
    }

    /** The kernel ends a child, and raises SIGCHLD unless one is pending. */
    method EndChild(c: nat, status: ExitStatus)
      requires c < |children|
      modifies `children, `pending
      ensures View() == DieStep(old(View()), c, status)
    {
      children := children[c := children[c].(phase := Zombie(status), fds := map[], merged := pending.Some?)];
      if pending.None? { pending := Some(c); }
    }

    /** The kill case: a positive pid is killed, zero gives everything back and ends the daemon, and a
        negative one, also a refused message, is ignored. */
    method HandleKill(pid: int, victim: Option<nat>) returns (shutdown: Option<Effect>)
      requires Finds(children, pid, victim) && (pid == 0 ==> 0 <= nbProcess <= manager.records.Length)
      modifies `children, `pending
      ensures View() == if pid > 0 && victim.Some? then DieStep(old(View()), victim.value, Signaled(SIGKILL)) else old(View())
      ensures shutdown == if pid == 0 then Some(ShutdownEffect(View().slots, View().nb)) else None
    {
      shutdown := None;
      if pid > 0 {
        if victim.Some? { EndChild(victim.value, Signaled(SIGKILL)); }
      } else if pid == 0 {
        var effect := manager.FreeManager(nbProcess);
        shutdown := Some(effect);
      }
    }

    /** The socket-message case of the loop. */
    method HandleMessage(fd: nat, incoming: Incoming) returns (shutdown: Option<Effect>)
      requires Intact(View()) && Due(View(), Readable(fd, incoming)) && Harmless(View(), Readable(fd, incoming))
      modifies this, manager.records
      ensures Executes(old(View()), EventLabels(Readable(fd, incoming)), View())
      ensures shutdown == if Shutdown(Readable(fd, incoming)) then Some(ShutdownEffect(View().slots, View().nb)) else None
    {
      ghost var before := View();
      shutdown := None;
      match incoming {
        case EmptyFrame =>
          HangUp(fd);
          OneStep(before, Hangup(fd), View());
        case RunCommand(path, openOk, choice, watches) =>
          ghost var own := HandleCommand(fd, path, openOk, choice, watches);
        case KillProcess(pid, victim) =>
          shutdown := HandleKill(pid, victim);
          if pid > 0 && victim.Some? {
            OneStep(before, Die(victim.value, Signaled(SIGKILL)), View());
          }
        case UnknownRequest =>
      }
    }

    // ----- the loop -----

    /** One turn of the inner loop of `main`, from any state of any run: exactly the steps of the event.
        A shutdown gives back what the records hold. */
    method Dispatch(e: Event) returns (shutdown: Option<Effect>)
      requires Intact(View()) && Due(View(), e) && Harmless(View(), e)
      modifies this, manager.records
      ensures Executes(old(View()), EventLabels(e), View())
      ensures shutdown == if Shutdown(e) then Some(ShutdownEffect(View().slots, View().nb)) else None
    {
      ghost var before := View();
      shutdown := None;
      match e {
        case Connecting =>
          AcceptConnection();
          OneStep(before, Accept, View());
        case ChildSignal(c) =>
          HandleSigchld(c);
          OneStep(before, ReadSignal(c), View());
        case Readable(fd, incoming) =>
          shutdown := HandleMessage(fd, incoming);
        case ReportInput(fd) =>
          HandleReport(fd, true);
          OneStep(before, ReadReport(fd), View());
        case ReportHangup(fd) =>
          HandleReport(fd, false);
          OneStep(before, ReadReport(fd), View());
        case InotifyInput(fd, paths) =>
          HandleInotify(fd, paths);
      }
    }

    /** What a child does between two turns. */
    method ChildActs(l: Label)
      requires ChildAction(l) && Enabled(View(), l)
      modifies `children, `pipes, `pending
      ensures Follows(old(View()), l, View())
    {
      var ch := children[l.c];
      if l.Prepare? {
        children := children[l.c := ch.(phase := Ready, fds := PreparedFds(ch))];
      } else if l.ExecSucceeds? {
        children := children[l.c := ch.(phase := Running, fds := AfterExec(ch.fds))];
      } else if l.ExecFails? {
        children := children[l.c := ch.(phase := ExecFailed(l.errno))];
      } else if l.WriteErrno? {
        children := children[l.c := ch.(phase := Wrote, wrote := Some(ch.phase.errno))];
        if ch.writeFd in ch.fds && ch.fds[ch.writeFd].PipeWrite? && ch.fds[ch.writeFd].pipe < |pipes| {
          var p := ch.fds[ch.writeFd].pipe;
          pipes := pipes[p := pipes[p] + [ch.phase.errno]];
        }
      } else {
        EndChild(l.c, l.status);
      }
    }

    /** One turn, in a run within the limit: whatever happens, it does no harm, and the run goes on. */
    method Turn(t: Happening, ghost ss: seq<State>, ghost ls: seq<Label>)
      returns (shutdown: Option<Effect>, ghost ss': seq<State>)
      requires Run(ss, ls) && WithinLimit(ss) && ss[|ls|] == View() && Possible(View(), t)
      modifies this, manager.records
      ensures Executes(old(View()), HappeningLabels(t), View())
      ensures Run(ss', ls + HappeningLabels(t)) && ss <= ss' && ss'[|ls + HappeningLabels(t)|] == View()
      ensures shutdown.Some? <==> t.Handle? && Shutdown(t.event)
      ensures shutdown.Some? ==> GivenBackOnce(shutdown.value, View())
    {
      ghost var before := View();
      RunSafe(ss, ls, |ls|);
      CounterIsLive(ss, ls, |ls|);
      shutdown := None;
      match t {
        case Handle(e) =>
          if e.ChildSignal? { ReapNeverFaults(before, e.c); }
          shutdown := Dispatch(e);
        case Act(l) =>
          ChildActs(l);
          OneStep(before, l, View());
      }
      ghost var tail := ExecutesExtendsRun(ss, ls, HappeningLabels(t), View());
      ss' := ss + tail;
      if shutdown.Some? {
        ShutdownFreesOnce(ss', ls + HappeningLabels(t), |ls + HappeningLabels(t)|);
        assert View() == before;
      }
    }

    method NextTurn(script: seq<Happening>, n: nat, ghost ss: seq<State>) returns (shutdown: Option<Effect>, ghost ss': seq<State>)
      requires n < |script| && Served(script, n, View(), ss, None)
      modifies this, manager.records
      ensures Served(script, n + 1, View(), ss', shutdown)
    {
      ghost var before := View();
      assert script[n] == script[n..][0];
      shutdown, ss' := Turn(script[n], ss, ScriptLabels(script[..n]));
      OneMoreServed(script, n, before, ss, View(), ss', shutdown);
    }

    /** The loop of `main`, from the start: events that come when they are due, and whatever the children
        do in between, while at most 256 of them wait to be reaped.  The daemon's states are those of a run
        within the limit, so everything proved of runs holds of them; only a shutdown ends it early. */
    method Serve(script: seq<Happening>) returns (n: nat, shutdown: Option<Effect>, ghost ss: seq<State>)
      requires View() == Initial() && Feasible(View(), script)
      modifies this, manager.records
      ensures Served(script, n, View(), ss, shutdown) && (shutdown.None? ==> n == |script|)
    {
      n, shutdown, ss := 0, None, [View()];
      StartServing(script, View());
      while n < |script| && shutdown.None?
        invariant Served(script, n, View(), ss, shutdown)
        decreases |script| - n
      {
        shutdown, ss := NextTurn(script, n, ss);
        n := n + 1;
      }
    }
  }

  // ----- whole scripts -----

  /** What happens next: the loop handles an event, or a child acts. */
  datatype Happening = Handle(event: Event) | Act(action: Label)

  function HappeningLabels(t: Happening): seq<Label> {
    match t
    case Handle(e) => EventLabels(e)
    case Act(l) => [l]
  }

  function ScriptLabels(script: seq<Happening>): seq<Label> {
    if script == [] then []
    else ScriptLabels(script[..|script| - 1]) + HappeningLabels(script[|script| - 1])
  }

  ghost predicate Possible(s: State, t: Happening) {
    match t
    case Handle(e) => Due(s, e)
    case Act(l) => ChildAction(l) && Enabled(s, l)
  }

  /** From `s` on, everything in the script is possible when its turn comes, and there are never more than
      256 children waiting to be reaped. */
  ghost predicate Feasible(s: State, script: seq<Happening>)
    decreases |script|
  {
    script == [] ||
    (Possible(s, script[0]) &&
     forall s' :: Executes(s, HappeningLabels(script[0]), s') ==>
       |LiveSet(s'.children)| <= MAX_PROCESS && Feasible(s', script[1..]))
  }

  /** Only the first step of an event changes a child. */
  lemma {:induction false} QuietTail(ss: seq<State>, ls: seq<Label>, i: nat, k: nat)
    requires Run(ss, ls) && i <= k < |ss|
    requires forall j :: i <= j < k ==> ls[j].WatchPath? || ls[j].Notify?
    ensures ss[i].children == ss[k].children
  {
    if i < k {
      assert StepAt(ss, ls, k - 1);
      QuietTail(ss, ls, i, k - 1);
    }
  }

  lemma HappeningKeepsLimit(ss: seq<State>, ls: seq<Label>, ss': seq<State>, t: Happening)
    requires Run(ss, ls) && WithinLimit(ss)
    requires Run(ss', ls + HappeningLabels(t)) && ss <= ss'
    requires |LiveSet(ss'[|ss'| - 1].children)| <= MAX_PROCESS
    ensures WithinLimit(ss')
  {
    var ls' := ls + HappeningLabels(t);
    forall i | |ss| <= i < |ss'|
      ensures |LiveSet(ss'[i].children)| <= MAX_PROCESS
    {
      forall j | i <= j < |ls'|
        ensures ls'[j].WatchPath? || ls'[j].Notify?
      {
        assert ls'[j] == HappeningLabels(t)[j - |ls|];
      }
      QuietTail(ss', ls', i, |ls'|);
    }
  }

  /** After `n` happenings the daemon is in state `s`, the last one of the run `ss` whose steps are those of
      the happenings, and the rest of the script is feasible.  There has been a shutdown exactly when the
      last happening asked for it, and it freed only allocated stacks and closed only open error files and
      standard output, each stack and each file once. */
  ghost predicate Served(script: seq<Happening>, n: nat, s: State, ss: seq<State>, shutdown: Option<Effect>) {
    && n <= |script|
    && Run(ss, ScriptLabels(script[..n])) && WithinLimit(ss) && ss[|ss| - 1] == s
    && (shutdown.Some? <==> n > 0 && script[n - 1].Handle? && Shutdown(script[n - 1].event))
    && (shutdown.Some? ==> GivenBackOnce(shutdown.value, s))
    && Feasible(s, script[n..])
  }

  lemma StartServing(script: seq<Happening>, s: State)
    requires s == Initial() && Feasible(s, script)
    ensures Served(script, 0, s, [s], None)
  {
    assert script[0..] == script;
    assert LiveSet(s.children) == {};
  }

  lemma OneMoreServed(script: seq<Happening>, n: nat, s: State, ss: seq<State>, s': State, ss': seq<State>,
                      shutdown: Option<Effect>)
    requires n < |script| && Served(script, n, s, ss, None) && Executes(s, HappeningLabels(script[n]), s')
    requires Run(ss', ScriptLabels(script[..n]) + HappeningLabels(script[n])) && ss <= ss' && ss'[|ss'| - 1] == s'
    requires shutdown.Some? <==> script[n].Handle? && Shutdown(script[n].event)
    requires shutdown.Some? ==> GivenBackOnce(shutdown.value, s')
    ensures Served(script, n + 1, s', ss', shutdown)
  {
    assert script[n..][0] == script[n] && script[n..][1..] == script[n + 1..];
    assert script[..n + 1][..n] == script[..n];
    HappeningKeepsLimit(ss, ScriptLabels(script[..n]), ss', script[n]);
  }

  lemma OneStep(s: State, l: Label, s': State)
    requires Follows(s, l, s')
    ensures Executes(s, [l], s')
  {
    assert Executes(s', [], s');
    assert [l][1..] == [];
  }

  lemma LaunchKeepsConnection(s: State, l: Label, s': State, fd: nat)
    requires Intact(s) && Follows(s, l, s') && (l.Launch? || l.LaunchFails?) && fd in s.regs && s.regs[fd].Conn?
    ensures fd in s'.fds && fd in s'.regs && s'.regs[fd].Conn? && s'.regs.Keys <= s'.fds.Keys
  {
    StepKeepsDescriptors(s, l, s');
  }
}
