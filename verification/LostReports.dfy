/** Runs in which a client is told less than the truth, or nothing, each showing that a condition in
    `TraceSafety` or `Routing` is not idle; and runs in which all is told as it should be. */
module LostReports {
  import opened Options
  import opened ProcessManager
  import opened DaemonState
  import opened PipeSafety
  import opened TraceSafety
  import opened Routing

  /** Nothing has been launched yet and the clients `a` and `b` are connected, `b` last (perhaps the same). */
  ghost predicate Connected(s: State, a: nat, b: nat) {
    && a in s.regs && s.regs[a] == Conn && b in s.regs && s.regs[b] == Conn && s.comm == Some(b)
    && s.children == [] && s.nb == 0 && s.heap == {} && s.pending == None && s.pipes == []
    && |s.slots| == MAX_PROCESS && s.slots[0] == Fresh
    && a > 2 && b > 2 && forall f: nat :: f <= b ==> f in s.fds
  }

  /** The child launched on `a` is the only one, and nothing was sent after its launch. */
  ghost predicate OneChild(s: State, a: nat, b: nat, phase: Phase) {
    && |s.children| == 1 && s.children[0].pid == 1 && s.children[0].path == "p" && s.children[0].phase == phase
    && s.children[0].wrote.None?
    && s.slots != [] && s.slots[0].Bears(1) && s.slots[0].Occupied() && s.slots[0].stack.value in s.heap
    && s.slots[0].errFile == STDOUT_FILENO
    && s.nb == 1 && s.comm == Some(b)
    && s.out != [] && s.out[|s.out| - 1] == Sent(Some(a), Launched(1), Some(0))
  }

  lemma Connect() returns (ss: seq<State>, ls: seq<Label>, a: nat)
    ensures Run(ss, ls) && Connected(ss[|ls|], a, a) && ss[|ls|].accepted == 1
    ensures ls == [Accept]
  {
    a := LowestFree(Initial().fds.Keys);
    ss, ls := Extend([Initial()], [], Accept);
    forall f: nat | f <= a
      ensures f in ss[1].fds
    {
      assert f < a ==> f in Initial().fds.Keys;
    }
  }

  lemma ConnectTwo() returns (ss: seq<State>, ls: seq<Label>, a: nat, b: nat)
    ensures Run(ss, ls) && Connected(ss[|ls|], a, b) && a != b
  {
    ss, ls, a := Connect();
    b := LowestFree(ss[|ls|].fds.Keys);
    ss, ls := Extend(ss, ls, Accept);
  }

  lemma LaunchFor(ss: seq<State>, ls: seq<Label>, a: nat, b: nat) returns (ss': seq<State>, ls': seq<Label>)
    requires Run(ss, ls) && Connected(ss[|ls|], a, b)
    ensures Run(ss', ls') && OneChild(ss'[|ls'|], a, b, Cloned) && ss'[|ls'|].pending == None
    ensures ls' == ls + [Launch(a, "p", false, 1, 1)] && ss'[|ls'|].accepted == ss[|ls|].accepted
    ensures b in ss'[|ls'|].regs && ss'[|ls'|].regs[b] == Conn
    ensures Registered(ss'[|ls'|].regs, 0, ss'[|ls'|].children[0])
  {
    var s := ss[|ls|];
    assert FirstFree(s.slots) == 0;
    LaunchDescriptors(s.fds, false, |s.pipes|);
    ss', ls' := Extend(ss, ls, Launch(a, "p", false, 1, 1));
  }

  /** The child exits and is waited for. */
  lemma Finish(ss: seq<State>, ls: seq<Label>, a: nat, b: nat) returns (ss': seq<State>, ls': seq<Label>)
    requires Run(ss, ls) && OneChild(ss[|ls|], a, b, Cloned) && ss[|ls|].pending == None
    ensures Run(ss', ls') && ls' == ls + [Die(0, Exited(0)), ReadSignal(0)]
    ensures var out := ss'[|ls'|].out;
            |out| >= 2 && out[|out| - 2] == Sent(Some(a), Launched(1), Some(0))
            && out[|out| - 1] == Sent(Some(b), Terminated(1, 0), Some(0))
    ensures ss'[|ls'|].fds == ss[|ls|].fds && ss'[|ls'|].accepted == ss[|ls|].accepted
  {
    var s := ss[|ls|];
    assert Scan(DieStep(s, 0, Exited(0)).slots, 1, 1) == Found(0);
    ss', ls' := Extend(ss, ls, Die(0, Exited(0)));
    ss', ls' := Extend(ss', ls', ReadSignal(0));
  }

  /** With two clients, the one that launched a child need not hear of its end: the second one does. */
  lemma OtherClientIsTold() returns (ss: seq<State>, ls: seq<Label>, a: nat, b: nat)
    ensures Run(ss, ls) && a != b
    ensures var out := ss[|ls|].out;
            |out| >= 2 && out[|out| - 2] == Sent(Some(a), Launched(1), Some(0))
            && out[|out| - 1] == Sent(Some(b), Terminated(1, 0), Some(0))
  {
    ss, ls, a, b := ConnectTwo();
    ss, ls := LaunchFor(ss, ls, a, b);
    ss, ls := Finish(ss, ls, a, b);
  }

  /** A single client launches a child and hangs up: the report of the child's end goes to a descriptor
      that is closed. */
  lemma NobodyIsTold() returns (ss: seq<State>, ls: seq<Label>, a: nat)
    ensures Run(ss, ls) && ss[|ls|].accepted == 1
    ensures var out := ss[|ls|].out; |out| >= 1 && out[|out| - 1] == Sent(Some(a), Terminated(1, 0), Some(0))
    ensures a !in ss[|ls|].fds
  {
    ss, ls, a := Connect();
    ss, ls := LaunchFor(ss, ls, a, a);
    ss, ls := Extend(ss, ls, Hangup(a));
    ss, ls := Finish(ss, ls, a, a);
  }

  /** A child that is killed before it has executed its program or written anything is reported as a
      success. */
  lemma KilledIsReported(ss: seq<State>, ls: seq<Label>, a: nat, b: nat) returns (ss': seq<State>, ls': seq<Label>)
    requires Run(ss, ls) && b in ss[|ls|].fds
    requires |ss[|ls|].children| == 1 && !ss[|ls|].children[0].phase.Dead() && ss[|ls|].children[0].wrote.None?
    requires Registered(ss[|ls|].regs, 0, ss[|ls|].children[0]) && ss[|ls|].comm == Some(b)
    requires b != ss[|ls|].children[0].readFd
    ensures var ch := ss[|ls|].children[0];
            && Run(ss', ls') && ls' == ls + [Die(0, Signaled(9)), ReadReport(ch.readFd)]
            && ss'[|ls'|].out == ss[|ls|].out + [Sent(Some(b), ExecTerminated(ch.pid, ch.path, true), Some(0))]
    ensures b in ss'[|ls'|].fds && ss'[|ls'|].fds[b] == ss[|ls|].fds[b]
  {
    var f := ss[|ls|].children[0].readFd;
    RunSound(ss, ls, |ls|);
    assert ChildInv(ss[|ls|].children[0], |ss[|ls|].pipes|);
    ss', ls' := Extend(ss, ls, Die(0, Signaled(9)));
    var s := ss'[|ls'|];
    RunSound(ss', ls', |ls'|);
    SettledIsReady(s, 0);
    assert RegOk(f, s.regs[f], s.children, s.pipes, s.fds);
    ss', ls' := Extend(ss', ls', ReadReport(f));
  }

  /** Killed before its execve: the program never ran. */
  lemma SuccessWithoutRunning() returns (ss: seq<State>, ls: seq<Label>)
    ensures Run(ss, ls) && !ProgramRan(ls, |ls|, 0)
    ensures var out := ss[|ls|].out; |out| >= 1 && out[|out| - 1].msg == ExecTerminated(1, "p", true)
  {
    var a;
    ss, ls, a := Connect();
    ss, ls := LaunchFor(ss, ls, a, a);
    RunSound(ss, ls, |ls|);
    assert RegOk(a, ss[|ls|].regs[a], ss[|ls|].children, ss[|ls|].pipes, ss[|ls|].fds);
    ss, ls := KilledIsReported(ss, ls, a, a);
  }

  /** Killed between its failed execve and the write of the error number: the failure is reported as a
      success. */
  lemma FailureIsSuccess() returns (ss: seq<State>, ls: seq<Label>)
    ensures Run(ss, ls) && !ProgramRan(ls, |ls|, 0) && FailedBefore(ls, |ls|, 0, 2)
    ensures var out := ss[|ls|].out; |out| >= 1 && out[|out| - 1].msg == ExecTerminated(1, "p", true)
  {
    var a;
    ss, ls, a := Connect();
    ss, ls := LaunchFor(ss, ls, a, a);
    ss, ls := Extend(ss, ls, Prepare(0));
    ss, ls := Extend(ss, ls, ExecFails(0, 2));
    var failed := |ls| - 1;
    RunSound(ss, ls, |ls|);
    assert RegOk(a, ss[|ls|].regs[a], ss[|ls|].children, ss[|ls|].pipes, ss[|ls|].fds);
    ss, ls := KilledIsReported(ss, ls, a, a);
    assert ls[failed] == ExecFails(0, 2);
  }

  /** The client accepted last hangs up, its number is given to an error file, and the report is written
      there. */
  lemma ErrorFileIsTold() returns (ss: seq<State>, ls: seq<Label>, b: nat)
    ensures Run(ss, ls)
    ensures var out := ss[|ls|].out; |out| >= 1 && out[|out| - 1].dest == Some(b) && out[|out| - 1].msg.ExecTerminated?
    ensures b in ss[|ls|].fds && ss[|ls|].fds[b] == ErrorFile
  {
    var a;
    ss, ls, a, b := ConnectTwo();
    ss, ls := Extend(ss, ls, Hangup(b));
    var s := ss[|ls|];
    assert LowestFree(s.fds.Keys) == b;
    LaunchDescriptors(s.fds, true, |s.pipes|);
    ss, ls := Extend(ss, ls, Launch(a, "p", true, 1, 1));
    ss, ls := KilledIsReported(ss, ls, a, b);
  }

  // ----- and when all is well -----

  /** A program that is executed is reported so. */
  lemma ExecutedIsTold() returns (ss: seq<State>, ls: seq<Label>, a: nat)
    ensures Run(ss, ls) && ProgramRan(ls, |ls|, 0)
    ensures var out := ss[|ls|].out;
            |out| >= 1 && out[|out| - 1] == Sent(Some(a), ExecTerminated(1, "p", true), Some(0))
  {
    ss, ls, a := Connect();
    ss, ls := LaunchFor(ss, ls, a, a);
    ss, ls := Extend(ss, ls, Prepare(0));
    ss, ls := Extend(ss, ls, ExecSucceeds(0));
    var ran := |ls| - 1;
    ss, ls := Reported(ss, ls, a);
    assert ls[ran] == ExecSucceeds(0);
  }

  /** A program that cannot be executed is reported so. */
  lemma FailureIsTold() returns (ss: seq<State>, ls: seq<Label>, a: nat)
    ensures Run(ss, ls) && FailedBefore(ls, |ls|, 0, 2)
    ensures var out := ss[|ls|].out;
            |out| >= 1 && out[|out| - 1] == Sent(Some(a), ExecTerminated(1, "p", false), Some(0))
  {
    ss, ls, a := Connect();
    ss, ls := LaunchFor(ss, ls, a, a);
    ss, ls := Extend(ss, ls, Prepare(0));
    ss, ls := Extend(ss, ls, ExecFails(0, 2));
    var failed := |ls| - 1;
    ss, ls := Extend(ss, ls, WriteErrno(0));
    ss, ls := Reported(ss, ls, a);
    assert ls[failed] == ExecFails(0, 2);
  }

  /** A settled child is reported next. */
  lemma Reported(ss: seq<State>, ls: seq<Label>, a: nat) returns (ss': seq<State>, ls': seq<Label>)
    requires Run(ss, ls) && |ss[|ls|].children| == 1 && ss[|ls|].comm == Some(a)
    requires Registered(ss[|ls|].regs, 0, ss[|ls|].children[0]) && Settled(ss[|ls|].children[0])
    ensures var ch := ss[|ls|].children[0];
            && Run(ss', ls') && ls' == ls + [ReadReport(ch.readFd)]
            && ss'[|ls'|].out == ss[|ls|].out + [Sent(Some(a), ExecTerminated(ch.pid, ch.path, ch.wrote.None?), Some(0))]
  {
    var s := ss[|ls|];
    var f := s.children[0].readFd;
    RunSound(ss, ls, |ls|);
    SettledIsReady(s, 0);
    assert RegOk(f, s.regs[f], s.children, s.pipes, s.fds);
    ss', ls' := Extend(ss, ls, ReadReport(f));
  }

  /** A launch that fails is answered with its error number, and a watch of the same command is still
      confirmed and given its inotify instance. */
  lemma FailedLaunchIsTold() returns (ss: seq<State>, ls: seq<Label>, a: nat)
    ensures Run(ss, ls)
    ensures var s := ss[|ls|];
            && |s.out| >= 2 && s.out[|s.out| - 2] == Sent(Some(a), CreationError(12), None)
            && s.out[|s.out| - 1] == Sent(Some(a), WatchListUpdated("d"), None)
            && exists f :: f in s.regs && s.regs[f] == Inotify(100)
  {
    ss, ls, a := Connect();
    ss, ls := Extend(ss, ls, LaunchFails(a, true, false, 12));
    var fd := LowestFree(ss[|ls|].fds.Keys);
    ss, ls := Extend(ss, ls, WatchPath(a, "d", 100, true));
    assert fd in ss[|ls|].regs && ss[|ls|].regs[fd] == Inotify(100);
  }

  /** An inotify record of a watched path is passed on. */
  lemma ChangeIsTold() returns (ss: seq<State>, ls: seq<Label>, a: nat)
    ensures Run(ss, ls)
    ensures var out := ss[|ls|].out; |out| >= 1 && out[|out| - 1] == Sent(Some(a), PathUpdated("d"), None)
  {
    ss, ls, a := Connect();
    var fd := LowestFree(ss[|ls|].fds.Keys);
    ss, ls := Extend(ss, ls, WatchPath(a, "d", 100, true));
    assert fd in ss[|ls|].regs && ss[|ls|].regs[fd] == Inotify(100);
    ss, ls := Extend(ss, ls, Notify(fd, "d"));
  }
}
