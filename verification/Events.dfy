/** The events that the epoll loop handles, the steps each amounts to, and what those steps do, told from
    the states before and after them. */
module Events {
  import opened Options
  import opened ProcessManager
  import opened DaemonState
  import opened PipeSafety
  import opened RunSafety
  import opened StepEffects

  /** What the allocator and clone answer during a launch. */
  datatype LaunchChoice =
    | Cloned(stack: nat, pid: int)
    | NoMemory(errno: int)
    | CloneFailed(stack: nat, errno: int)

  /** A watched path; `initOk` is what inotify_init answers if it is asked for an instance. */
  datatype Watch = Watch(path: string, limit: nat, initOk: bool)

  const SIGKILL := 9

  /** What a readable connection delivers: a frame of length zero, or a request.  `victim` is the child
      that a kill finds alive. */
  datatype Incoming =
    | EmptyFrame
    | RunCommand(path: string, openOk: bool, choice: LaunchChoice, watches: seq<Watch>)
    | KillProcess(pid: int, victim: Option<nat>)
    | UnknownRequest

  /** One entry of the array that epoll_wait fills, with what reading its descriptor will yield. */
  datatype Event =
    | Connecting
    | ChildSignal(c: nat)
    | Readable(fd: nat, incoming: Incoming)
    | ReportInput(fd: nat)
    | ReportHangup(fd: nat)
    | InotifyInput(fd: nat, paths: seq<string>)

  function LaunchLabel(conn: nat, path: string, openOk: bool, choice: LaunchChoice): Label {
    match choice
    case Cloned(stack, pid) => Launch(conn, path, openOk, stack, pid)
    case NoMemory(errno) => LaunchFails(conn, openOk, false, errno)
    case CloneFailed(_, errno) => LaunchFails(conn, openOk, true, errno)
  }

  function WatchLabels(conn: nat, watches: seq<Watch>): (r: seq<Label>)
    ensures forall j :: 0 <= j < |r| ==> r[j].WatchPath?
  {
    if watches == [] then []
    else
      var w := watches[|watches| - 1];
      WatchLabels(conn, watches[..|watches| - 1]) + [WatchPath(conn, w.path, w.limit, w.initOk)]
  }

  function NotifyLabels(fd: nat, paths: seq<string>): (r: seq<Label>)
    ensures forall j :: 0 <= j < |r| ==> r[j].Notify?
  {
    if paths == [] then [] else NotifyLabels(fd, paths[..|paths| - 1]) + [Notify(fd, paths[|paths| - 1])]
  }

  /** The steps that handling one event amounts to. */
  function EventLabels(e: Event): seq<Label> {
    match e
    case Connecting => [Accept]
    case ChildSignal(c) => [ReadSignal(c)]
    case Readable(fd, EmptyFrame) => [Hangup(fd)]
    case Readable(fd, RunCommand(path, openOk, choice, watches)) =>
      [LaunchLabel(fd, path, openOk, choice)] + WatchLabels(fd, watches)
    case Readable(_, KillProcess(pid, victim)) =>
      if pid > 0 && victim.Some? then [Die(victim.value, Signaled(SIGKILL))] else []
    case Readable(_, UnknownRequest) => []
    case ReportInput(fd) => [ReadReport(fd)]
    case ReportHangup(fd) => [ReadReport(fd)]
    case InotifyInput(fd, paths) => NotifyLabels(fd, paths)
  }

  /** The request that ends the daemon. */
  predicate Shutdown(e: Event) {
    e.Readable? && e.incoming.KillProcess? && e.incoming.pid == 0
  }

  /** A kill finds exactly the child that bears the pid and is not dead. */
  ghost predicate Finds(children: seq<Child>, pid: int, victim: Option<nat>) {
    match victim
    case Some(c) => c < |children| && children[c].pid == pid && !children[c].phase.Dead()
    case None => forall c :: 0 <= c < |children| && children[c].pid == pid ==> children[c].phase.Dead()
  }

  /** The kernel reports only events that are due, and the requests are well-formed. */
  ghost predicate Due(s: State, e: Event) {
    match e
    case Connecting => true
    case ChildSignal(c) => Enabled(s, ReadSignal(c))
    case Readable(fd, incoming) =>
      && fd in s.regs && s.regs[fd].Conn?
      && (incoming.RunCommand? ==>
            && Enabled(s, LaunchLabel(fd, incoming.path, incoming.openOk, incoming.choice))
            && (incoming.choice.CloneFailed? ==> incoming.choice.stack !in s.heap))
      && (incoming.KillProcess? ==> Finds(s.children, incoming.pid, incoming.victim))
    case ReportInput(fd) => ReportReady(s, fd) && s.pipes[s.fds[fd].pipe] != []
    case ReportHangup(fd) => ReportReady(s, fd) && s.pipes[s.fds[fd].pipe] == []
    case InotifyInput(fd, _) => fd in s.regs && s.regs[fd].Inotify? && s.accepted > 0
  }

  /** Nothing is given back twice, or without being held. */
  ghost predicate GivenBackOnce(e: Effect, s: State) {
    AllocatedOnce(e.freed, s.heap) && ErrorFilesOnce(e.closed, s.fds)
  }

  /** Handling the event stays inside the table and gives nothing back twice. */
  ghost predicate Harmless(s: State, e: Event)
    requires Due(s, e)
  {
    && (e.ChildSignal? ==> ReapStep(s, e.c).Next?)
    && (Shutdown(e) ==> 0 <= s.nb <= MAX_PROCESS)
  }

  function LaunchResult(s: State, conn: nat, path: string, openOk: bool, choice: LaunchChoice): State {
    match choice
    case Cloned(stack, pid) => LaunchStep(s, conn, path, openOk, stack, pid)
    case NoMemory(errno) => LaunchFailsStep(s, conn, openOk, false, errno)
    case CloneFailed(_, errno) => LaunchFailsStep(s, conn, openOk, true, errno)
  }

  // ----- what an event does -----

  /** The last step of an execution. */
  lemma {:induction false} ExecutesLast(s: State, ls: seq<Label>, l: Label, s': State) returns (m: State)
    requires Executes(s, ls + [l], s')
    ensures Executes(s, ls, m) && Follows(m, l, s')
    decreases |ls|
  {
    if ls == [] {
      m := s;
      assert (ls + [l])[1..] == [];
    } else {
      assert (ls + [l])[0] == ls[0] && (ls + [l])[1..] == ls[1..] + [l];
      m := ExecutesLast(Step(s, ls[0]).state, ls[1..], l, s');
    }
  }

  /** `out` has been continued by one confirmation for each watch, in order. */
  ghost predicate Confirmed(out: seq<Sent>, conn: nat, watches: seq<Watch>, out': seq<Sent>) {
    && |out'| == |out| + |watches| && out <= out'
    && forall i :: 0 <= i < |watches| ==> out'[|out| + i] == Sent(Some(conn), WatchListUpdated(watches[i].path), None)
  }

  /** Descriptor `f` was not in use and now is an inotify instance registered with the limit. */
  ghost predicate IsInstance(fds: FdTable, f: nat, limit: nat, fds': FdTable, regs': map<nat, Reg>) {
    f !in fds && f in fds' && fds'[f] == Watcher && f in regs' && regs'[f] == Inotify(limit)
  }

  /** Each watch that has a limit and could get one has an instance of its own; nothing else was opened,
      closed or registered. */
  ghost predicate Instances(fds: FdTable, regs: map<nat, Reg>, watches: seq<Watch>, own: seq<Option<nat>>,
                            fds': FdTable, regs': map<nat, Reg>) {
    && |own| == |watches|
    && (forall i :: 0 <= i < |watches| ==> (own[i].Some? <==> watches[i].limit > 0 && watches[i].initOk))
    && (forall i :: 0 <= i < |watches| && own[i].Some? ==> IsInstance(fds, own[i].value, watches[i].limit, fds', regs'))
    && (forall i, j :: 0 <= i < j < |watches| && own[i].Some? ==> own[i] != own[j])
    && (forall f :: f in fds ==> f in fds' && fds'[f] == fds[f])
    && (forall f :: f in fds' ==> f in fds || Some(f) in own)
    && (forall f :: Some(f) !in own ==> (f in regs' <==> f in regs) && (f in regs ==> regs'[f] == regs[f]))
  }

  /** The watches of a command are done: each is confirmed on its connection, and those that can have an
      inotify instance of their own, `own`, registered with their limit; nothing else changes. */
  ghost predicate Watched(s: State, conn: nat, watches: seq<Watch>, own: seq<Option<nat>>, s': State) {
    && Confirmed(s.out, conn, watches, s'.out)
    && Instances(s.fds, s.regs, watches, own, s'.fds, s'.regs)
    && s' == s.(fds := s'.fds, regs := s'.regs, out := s'.out)
  }

  lemma {:induction false} WatchLabelsDo(s: State, conn: nat, watches: seq<Watch>, s': State) returns (own: seq<Option<nat>>)
    requires Executes(s, WatchLabels(conn, watches), s')
    ensures Watched(s, conn, watches, own, s')
    decreases |watches|
  {
    if watches == [] {
      own := [];
    } else {
      var n := |watches| - 1;
      var l := WatchPath(conn, watches[n].path, watches[n].limit, watches[n].initOk);
      var m := ExecutesLast(s, WatchLabels(conn, watches[..n]), l, s');
      var front := WatchLabelsDo(s, conn, watches[..n], m);
      var last := WatchDoes(m, l, s');
      own := front + [last];
      OneMoreConfirmed(s.out, conn, watches, m.out, s'.out);
      OneMoreInstance(s.fds, s.regs, watches, front, m.fds, m.regs, last, s'.fds, s'.regs);
    }
  }

  lemma OneMoreConfirmed(out: seq<Sent>, conn: nat, watches: seq<Watch>, m: seq<Sent>, out': seq<Sent>)
    requires watches != [] && Confirmed(out, conn, watches[..|watches| - 1], m)
    requires out' == m + [Sent(Some(conn), WatchListUpdated(watches[|watches| - 1].path), None)]
    ensures Confirmed(out, conn, watches, out')
  {
    forall i | 0 <= i < |watches|
      ensures out'[|out| + i] == Sent(Some(conn), WatchListUpdated(watches[i].path), None)
    {
      if i < |watches| - 1 { assert watches[..|watches| - 1][i] == watches[i]; }
    }
  }

  lemma OneMoreInstance(fds: FdTable, regs: map<nat, Reg>, watches: seq<Watch>, front: seq<Option<nat>>,
                        m: FdTable, mregs: map<nat, Reg>, last: Option<nat>, fds': FdTable, regs': map<nat, Reg>)
    requires watches != [] && Instances(fds, regs, watches[..|watches| - 1], front, m, mregs)
    requires last.Some? <==> watches[|watches| - 1].limit > 0 && watches[|watches| - 1].initOk
    requires last.None? ==> fds' == m && regs' == mregs
    requires last.Some? ==>
               && last.value !in m
               && fds' == m[last.value := Watcher] && regs' == mregs[last.value := Inotify(watches[|watches| - 1].limit)]
    ensures Instances(fds, regs, watches, front + [last], fds', regs')
  {
    var n, own := |watches| - 1, front + [last];
    assert own[n] == last && forall i :: 0 <= i < n ==> own[i] == front[i] && watches[..n][i] == watches[i];
    forall i | 0 <= i < |watches| && own[i].Some?
      ensures IsInstance(fds, own[i].value, watches[i].limit, fds', regs')
    {
      if i < n { assert IsInstance(fds, front[i].value, watches[..n][i].limit, m, mregs); }
    }
    forall i, j | 0 <= i < j < |watches| && own[i].Some?
      ensures own[i] != own[j]
    {
      assert IsInstance(fds, front[i].value, watches[..n][i].limit, m, mregs);
    }
    forall f | f in fds' && f !in fds
      ensures Some(f) in own
    {
      if f in m { assert Some(f) in front; }
    }
    forall f | Some(f) !in own
      ensures (f in regs' <==> f in regs) && (f in regs ==> regs'[f] == regs[f])
    {
      assert Some(f) !in front && last != Some(f);
    }
  }

  /** The records of an inotify read have been passed on: one message with each path, in order, to whoever
      reports go to, and nothing else. */
  ghost predicate Notified(s: State, paths: seq<string>, s': State) {
    && |s'.out| == |s.out| + |paths| && s.out <= s'.out
    && (forall i :: 0 <= i < |paths| ==> s'.out[|s.out| + i] == Sent(s.comm, PathUpdated(paths[i]), None))
    && s' == s.(out := s'.out)
  }

  lemma {:induction false} NotifyLabelsDo(s: State, fd: nat, paths: seq<string>, s': State)
    requires Executes(s, NotifyLabels(fd, paths), s')
    ensures Notified(s, paths, s')
    decreases |paths|
  {
    if paths != [] {
      var n := |paths| - 1;
      var m := ExecutesLast(s, NotifyLabels(fd, paths[..n]), Notify(fd, paths[n]), s');
      NotifyLabelsDo(s, fd, paths[..n], m);
      NotifyDoes(m, Notify(fd, paths[n]), s');
      assert forall i :: 0 <= i < n ==> paths[..n][i] == paths[i];
    }
  }

  lemma OnlyStep(s: State, l: Label, s': State)
    requires Executes(s, [l], s')
    ensures Follows(s, l, s')
  {
    assert [l][1..] == [];
    assert Executes(Step(s, l).state, [], s');
  }

  /** A command: the launch or its failure is answered on the connection of the request, from a state `m`
      on the watches are done, and so the answer and the confirmations are all that is sent. */
  lemma CommandDoes(s: State, e: Event, s': State) returns (m: State, own: seq<Option<nat>>)
    requires e.Readable? && e.incoming.RunCommand? && Executes(s, EventLabels(e), s')
    ensures Watched(m, e.fd, e.incoming.watches, own, s')
    ensures match e.incoming.choice
            case Cloned(stack, pid) =>
              && m.out == s.out + [Sent(Some(e.fd), Launched(pid), Some(|s.children|))]
              && |m.children| == |s.children| + 1 && m.children[..|s.children|] == s.children
              && m.children[|s.children|].pid == pid && m.children[|s.children|].path == e.incoming.path
              && m.children[|s.children|].stack == stack && m.nb == s.nb + 1
            case NoMemory(errno) =>
              m.out == s.out + [Sent(Some(e.fd), CreationError(errno), None)] && m.children == s.children && m.nb == s.nb
            case CloneFailed(_, errno) =>
              m.out == s.out + [Sent(Some(e.fd), CreationError(errno), None)] && m.children == s.children && m.nb == s.nb
    ensures |s'.out| == |s.out| + 1 + |e.incoming.watches| && s'.children == m.children && s'.nb == m.nb
  {
    var l := LaunchLabel(e.fd, e.incoming.path, e.incoming.openOk, e.incoming.choice);
    var rest := WatchLabels(e.fd, e.incoming.watches);
    assert ([l] + rest)[0] == l && ([l] + rest)[1..] == rest;
    m := Step(s, l).state;
    own := WatchLabelsDo(m, e.fd, e.incoming.watches, s');
    if l.Launch? {
      LaunchDoes(s, l, m, NewChild(s, l.path, l.openOk, l.stack, l.pid));
    } else {
      var f0, r, w := LaunchFailsDoes(s, l, m);
    }
  }

  /** A new client, a closed one, a signal, a report. */
  lemma EventDoes(s: State, e: Event, s': State)
    requires Executes(s, EventLabels(e), s') && Due(s, e)
    ensures e.Connecting? ==>
              && s'.accepted == s.accepted + 1 && s'.comm.Some? && s'.comm.value !in s.fds
              && s'.fds == s.fds[s'.comm.value := Connection] && s'.regs == s.regs[s'.comm.value := Conn]
              && s'.out == s.out + [Sent(s'.comm, Listening, None)]
    ensures e.Readable? && e.incoming.EmptyFrame? ==>
              e.fd !in s'.fds && e.fd !in s'.regs && s'.out == s.out && s'.children == s.children
    ensures e.ChildSignal? ==>
              && e.c < |s.children| == |s'.children| && s'.children[e.c].phase.Reaped?
              && s'.nb == s.nb - 1 && |s'.out| == |s.out| + 1 && s'.out[|s.out|].msg.Terminated?
              && s'.out[|s.out|].msg.pid == s.children[e.c].pid && s'.out[|s.out|].dest == s.comm
    ensures e.ReportInput? || e.ReportHangup? ==>
              && e.fd in s.regs && s.regs[e.fd].Exec? && e.fd !in s'.fds && e.fd !in s'.regs
              && s'.out == s.out + [Sent(s.comm, ExecTerminated(s.regs[e.fd].pid, s.regs[e.fd].path, e.ReportHangup?),
                                         Some(s.regs[e.fd].child))]
  {
    if e.Connecting? {
      OnlyStep(s, Accept, s');
      AcceptDoes(s, s', s'.comm.value);
    } else if e.Readable? && e.incoming.EmptyFrame? {
      OnlyStep(s, Hangup(e.fd), s');
      HangupDoes(s, Hangup(e.fd), s');
    } else if e.ChildSignal? {
      OnlyStep(s, ReadSignal(e.c), s');
      ReapTells(s, ReadSignal(e.c), s');
    } else if e.ReportInput? || e.ReportHangup? {
      OnlyStep(s, ReadReport(e.fd), s');
      ReportCloses(s, ReadReport(e.fd), s');
    }
  }

  /** A kill ends the child it finds, with SIGKILL; every other kill, a message of any other kind and an
      inotify read leave the children alone. */
  lemma KillDoes(s: State, e: Event, s': State)
    requires Executes(s, EventLabels(e), s') && Due(s, e)
    ensures e.Readable? && e.incoming.KillProcess? && e.incoming.pid > 0 && e.incoming.victim.Some? ==>
              var c := e.incoming.victim.value;
              && c < |s.children| == |s'.children| && s.children[c].pid == e.incoming.pid
              && s' == s.(children := s.children[c := s'.children[c]], pending := s'.pending)
              && s'.children[c].phase == Zombie(Signaled(9))
    ensures e.Readable? && e.incoming.KillProcess? && !(e.incoming.pid > 0 && e.incoming.victim.Some?) ==> s' == s
    ensures e.Readable? && e.incoming.UnknownRequest? ==> s' == s
    ensures e.InotifyInput? ==> Notified(s, e.paths, s')
  {
    if e.Readable? && e.incoming.KillProcess? && e.incoming.pid > 0 && e.incoming.victim.Some? {
      var l := Die(e.incoming.victim.value, Signaled(9));
      OnlyStep(s, l, s');
      DieDoes(s, l, s');
    } else if e.InotifyInput? {
      NotifyLabelsDo(s, e.fd, e.paths, s');
    }
  }

  /** Only the request to kill pid 0 ends the daemon. */
  lemma ShutdownIsKillZero(fd: nat, pid: int, victim: Option<nat>, e: Event)
    ensures Shutdown(Readable(fd, KillProcess(pid, victim))) <==> pid == 0
    ensures Shutdown(e) ==> e.Readable? && e.incoming.KillProcess?
  {
  }
}
