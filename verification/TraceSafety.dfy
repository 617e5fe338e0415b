/** What is sent about each child, over every run of the daemon: the order of the messages, when
    nothing is missing, and what an exec report means. */
module TraceSafety {
  import opened Options
  import opened ProcessManager
  import opened DaemonState
  import opened PipeSafety

  // ----- the messages about one child -----

  function Projection(out: seq<Sent>, c: nat): seq<Msg> {
    if out == [] then []
    else
      var last := out[|out| - 1];
      Projection(out[..|out| - 1], c) + if last.about == Some(c) then [last.msg] else []
  }

  lemma ProjectionAppend(out: seq<Sent>, e: Sent, c: nat)
    ensures Projection(out + [e], c) == Projection(out, c) + if e.about == Some(c) then [e.msg] else []
  {
    assert (out + [e])[..|out|] == out;
  }

  function ExecMsg(ch: Child): Msg { ExecTerminated(ch.pid, ch.path, ch.wrote.None?) }

  function EndMsg(ch: Child): Msg
    requires ch.phase.Reaped?
  {
    Terminated(ch.pid, StatusCode(ch.phase.status))
  }

  /** `p` is what has been sent about `ch`: the launch first, the exec report if it has been `reported`,
      the termination if the child has been reaped, the last two in either order, each once. */
  ghost predicate Told(p: seq<Msg>, ch: Child, reported: bool) {
    && p != [] && p[0] == Launched(ch.pid)
    && if reported && ch.phase.Reaped? then
         p[1..] == [ExecMsg(ch), EndMsg(ch)] || p[1..] == [EndMsg(ch), ExecMsg(ch)]
       else if reported then p[1..] == [ExecMsg(ch)]
       else if ch.phase.Reaped? then p[1..] == [EndMsg(ch)]
       else p[1..] == []
  }

  ghost predicate TraceInv(s: State) {
    && (forall c :: 0 <= c < |s.children| ==>
          Told(Projection(s.out, c), s.children[c], !Registered(s.regs, c, s.children[c])))
    && forall c :: |s.children| <= c ==> Projection(s.out, c) == []
  }

  /** The step adds at most one message; `ProjectionAppend` for every child at once. */
  lemma OneMessageMore(s: State, s': State, c: nat)
    requires s'.out == s.out || (|s'.out| == |s.out| + 1 && s'.out[..|s.out|] == s.out)
    ensures Projection(s'.out, c) ==
            Projection(s.out, c) + if s'.out != s.out && s'.out[|s.out|].about == Some(c) then [s'.out[|s.out|].msg] else []
  {
    if s'.out != s.out {
      ProjectionAppend(s.out, s'.out[|s.out|], c);
      assert s'.out == s.out + [s'.out[|s.out|]];
    }
  }

  /** A registration that names child `c` is on the read end recorded for `c`. */
  lemma RegisteredOnce(s: State, f: nat)
    requires Sound(s) && f in s.regs && s.regs[f].Exec?
    ensures s.regs[f].child < |s.children|
    ensures Registered(s.regs, s.regs[f].child, s.children[s.regs[f].child])
  {
    assert RegOk(f, s.regs[f], s.children, s.pipes, s.fds);
  }

  lemma LaunchKeepsTraces(s: State, l: Label, s': State)
    requires Sound(s) && TraceInv(s) && l.Launch? && Follows(s, l, s')
    ensures TraceInv(s')
  {
    forall c: nat
      ensures c < |s'.children| ==> Told(Projection(s'.out, c), s'.children[c], !Registered(s'.regs, c, s'.children[c]))
      ensures |s'.children| <= c ==> Projection(s'.out, c) == []
    {
      OneMessageMore(s, s', c);
      if c < |s.children| {
        assert Told(Projection(s.out, c), s.children[c], !Registered(s.regs, c, s.children[c]));
        if Registered(s.regs, c, s.children[c]) {
          var f := s.children[c].readFd;
          assert RegOk(f, s.regs[f], s.children, s.pipes, s.fds);
        }
        assert Registered(s.regs, c, s.children[c]) == Registered(s'.regs, c, s.children[c]);
      } else {
        assert Projection(s.out, c) == [];
      }
    }
  }

  lemma ReportKeepsTraces(s: State, l: Label, s': State)
    requires Sound(s) && TraceInv(s) && l.ReadReport? && Follows(s, l, s')
    ensures TraceInv(s')
  {
    RegisteredOnce(s, l.fd);
    assert RegOk(l.fd, s.regs[l.fd], s.children, s.pipes, s.fds);
    forall c: nat
      ensures c < |s'.children| ==> Told(Projection(s'.out, c), s'.children[c], !Registered(s'.regs, c, s'.children[c]))
      ensures |s'.children| <= c ==> Projection(s'.out, c) == []
    {
      OneMessageMore(s, s', c);
      if c < |s.children| {
        assert Told(Projection(s.out, c), s.children[c], !Registered(s.regs, c, s.children[c]));
        assert Registered(s'.regs, c, s.children[c]) <==>
               Registered(s.regs, c, s.children[c]) && c != s.regs[l.fd].child;
      }
    }
  }

  /** What a reap changes of the things a trace depends on. */
  lemma ReapTells(s: State, l: Label, s': State)
    requires l.ReadSignal? && Follows(s, l, s')
    ensures l.c < |s.children| && s.children[l.c].phase.Zombie? && s'.regs == s.regs
    ensures s'.children == s.children[l.c := s.children[l.c].(phase := Reaped(s.children[l.c].phase.status))]
    ensures s'.out == s.out + [Sent(s.comm, EndMsg(s'.children[l.c]), Some(l.c))]
  {
  }

  lemma ReapKeepsTraces(s: State, l: Label, s': State)
    requires TraceInv(s) && l.ReadSignal? && Follows(s, l, s')
    ensures TraceInv(s')
  {
    ReapTells(s, l, s');
    forall c: nat
      ensures c < |s'.children| ==> Told(Projection(s'.out, c), s'.children[c], !Registered(s'.regs, c, s'.children[c]))
      ensures |s'.children| <= c ==> Projection(s'.out, c) == []
    {
      ProjectionAppend(s.out, s'.out[|s.out|], c);
      if c < |s.children| {
        assert Told(Projection(s.out, c), s.children[c], !Registered(s.regs, c, s.children[c]));
      }
    }
  }

  lemma ChildActionKeepsTraces(s: State, l: Label, s': State)
    requires Sound(s) && TraceInv(s) && ChildAction(l) && Follows(s, l, s')
    ensures TraceInv(s')
  {
    ChildActionFrame(s, l, s');
    assert ChildInv(s.children[l.c], |s.pipes|);
    forall c | 0 <= c < |s'.children|
      ensures Told(Projection(s'.out, c), s'.children[c], !Registered(s'.regs, c, s'.children[c]))
    {
      assert Told(Projection(s.out, c), s.children[c], !Registered(s.regs, c, s.children[c]));
      assert Registered(s.regs, c, s.children[c]) == Registered(s.regs, c, s'.children[c]);
    }
  }

  lemma OthersKeepRegistration(s: State, l: Label, s': State, c: nat)
    requires Sound(s) && Follows(s, l, s') && c < |s.children|
    requires l.Accept? || l.Hangup? || l.LaunchFails? || l.WatchPath? || l.Notify?
    ensures s'.children == s.children
    ensures Registered(s'.regs, c, s.children[c]) == Registered(s.regs, c, s.children[c])
  {
    var f := s.children[c].readFd;
    if f in s.regs { assert RegOk(f, s.regs[f], s.children, s.pipes, s.fds); }
  }

  lemma OthersKeepTraces(s: State, l: Label, s': State)
    requires Sound(s) && TraceInv(s) && Follows(s, l, s')
    requires l.Accept? || l.Hangup? || l.LaunchFails? || l.WatchPath? || l.Notify?
    ensures TraceInv(s')
  {
    forall c: nat
      ensures c < |s'.children| ==> Told(Projection(s'.out, c), s'.children[c], !Registered(s'.regs, c, s'.children[c]))
      ensures |s'.children| <= c ==> Projection(s'.out, c) == []
    {
      OneMessageMore(s, s', c);
      if c < |s.children| {
        assert Told(Projection(s.out, c), s.children[c], !Registered(s.regs, c, s.children[c]));
        OthersKeepRegistration(s, l, s', c);
      }
    }
  }

  lemma {:induction false} RunTraces(ss: seq<State>, ls: seq<Label>, i: nat)
    requires Run(ss, ls) && i < |ss|
    ensures Sound(ss[i]) && TraceInv(ss[i])
  {
    RunSound(ss, ls, i);
    if i > 0 {
      RunTraces(ss, ls, i - 1);
      var s, l, s' := ss[i - 1], ls[i - 1], ss[i];
      assert StepAt(ss, ls, i - 1);
      if l.Launch? {
        LaunchKeepsTraces(s, l, s');
      } else if l.ReadReport? {
        ReportKeepsTraces(s, l, s');
      } else if l.ReadSignal? {
        ReapKeepsTraces(s, l, s');
      } else if ChildAction(l) {
        ChildActionKeepsTraces(s, l, s');
      } else {
        OthersKeepTraces(s, l, s');
      }
    }
  }

  /** At every point of every run, the messages sent about a child are a prefix of launched, exec,
      terminated or of launched, terminated, exec, all with that child's own pid, path and status. */
  lemma MessagesInOrder(ss: seq<State>, ls: seq<Label>, i: nat, c: nat, e: Msg, t: Msg)
    requires Run(ss, ls) && i < |ss| && c < |ss[i].children|
    requires e == ExecMsg(ss[i].children[c])
    requires ss[i].children[c].phase.Reaped? ==> t == EndMsg(ss[i].children[c])
    ensures var p, launched := Projection(ss[i].out, c), Launched(ss[i].children[c].pid);
            p != [] && (p <= [launched, e, t] || p <= [launched, t, e])
  {
    RunTraces(ss, ls, i);
    assert Told(Projection(ss[i].out, c), ss[i].children[c], !Registered(ss[i].regs, c, ss[i].children[c]));
    var p := Projection(ss[i].out, c);
    assert p == [p[0]] + p[1..];
  }

  // ----- completeness -----

  /** The pending SIGCHLD names a zombie whose own signal it is; a zombie whose signal was not dropped is
      the one named, and one whose signal was dropped stays a zombie. */
  ghost predicate PendingOf(children: seq<Child>, pending: Option<nat>) {
    && (pending.Some? ==>
      pending.value < |children| && children[pending.value].phase.Zombie? && !children[pending.value].merged)
    && (forall c :: 0 <= c < |children| && children[c].merged ==> children[c].phase.Zombie?)
    && forall c :: 0 <= c < |children| && children[c].phase.Zombie? && !children[c].merged ==> pending == Some(c)
  }

  ghost predicate PendingInv(s: State) { PendingOf(s.children, s.pending) }

  lemma {:induction false} RunPending(ss: seq<State>, ls: seq<Label>, i: nat)
    requires Run(ss, ls) && i < |ss|
    ensures PendingInv(ss[i])
  {
    if i > 0 {
      RunPending(ss, ls, i - 1);
      var s, l, s' := ss[i - 1], ls[i - 1], ss[i];
      assert StepAt(ss, ls, i - 1);
      if l.Die? {
        DieKeepsPending(s, l, s');
      } else if l.ReadSignal? {
        ReapKeepsPending(s, l, s');
      } else {
        OthersKeepPending(s, l, s');
      }
    }
  }

  lemma DieKeepsPending(s: State, l: Label, s': State)
    requires PendingInv(s) && Follows(s, l, s') && l.Die?
    ensures PendingInv(s')
  {
    ChildActionFrame(s, l, s');
  }

  lemma ReapKeepsPending(s: State, l: Label, s': State)
    requires PendingInv(s) && Follows(s, l, s') && l.ReadSignal?
    ensures PendingInv(s')
  {
    assert s'.children == s.children[l.c := s'.children[l.c]];
  }

  lemma OthersKeepPending(s: State, l: Label, s': State)
    requires PendingInv(s) && Follows(s, l, s') && !l.Die? && !l.ReadSignal?
    ensures PendingInv(s')
  {
    if ChildAction(l) {
      ChildActionFrame(s, l, s');
      EditKeepsPending(s.children, s.pending, l.c, s'.children[l.c]);
    } else {
      assert s'.pending == s.pending && s.children <= s'.children;
      assert forall c :: |s.children| <= c < |s'.children| ==> s'.children[c].phase == Cloned && !s'.children[c].merged;
    }
  }

  lemma EditKeepsPending(children: seq<Child>, pending: Option<nat>, c: nat, ch: Child)
    requires PendingOf(children, pending) && c < |children| && !ch.phase.Zombie? && !children[c].phase.Zombie?
    requires ch.merged == children[c].merged
    ensures PendingOf(children[c := ch], pending)
  {
  }

  /** The daemon has nothing left to do for its children: no signal waits, no exec registration is ready. */
  ghost predicate Idle(s: State) {
    && s.pending.None?
    && forall f :: f in s.regs && s.regs[f].Exec? ==> !ReportReady(s, f)
  }

  /** A child whose SIGCHLD was dropped because another was pending is never waited for, and no run
      ever tells of its end. */
  lemma MergedNeverTold(ss: seq<State>, ls: seq<Label>, i: nat, c: nat)
    requires Run(ss, ls) && i < |ss| && c < |ss[i].children| && ss[i].children[c].merged
    ensures ss[i].children[c].phase.Zombie?
    ensures forall m :: m in Projection(ss[i].out, c) ==> !m.Terminated?
  {
    RunTraces(ss, ls, i);
    RunPending(ss, ls, i);
    var p := Projection(ss[i].out, c);
    assert Told(p, ss[i].children[c], !Registered(ss[i].regs, c, ss[i].children[c]));
    assert p == [p[0]] + p[1..];
  }

  /** In an idle state of any run, every child that executed its program, wrote its error number or
      died has been reported; and a dead child has been told in full, three messages, exactly when its
      SIGCHLD was not dropped. */
  lemma IdleMeansTold(ss: seq<State>, ls: seq<Label>, i: nat, c: nat)
    requires Run(ss, ls) && i < |ss| && Idle(ss[i]) && c < |ss[i].children|
    ensures Settled(ss[i].children[c]) ==> ExecMsg(ss[i].children[c]) in Projection(ss[i].out, c)
    ensures ss[i].children[c].phase.Dead() ==>
              && (ss[i].children[c].phase.Reaped? <==> !ss[i].children[c].merged)
              && (|Projection(ss[i].out, c)| == 3 <==> !ss[i].children[c].merged)
    ensures ss[i].children[c].phase.Reaped? ==> EndMsg(ss[i].children[c]) in Projection(ss[i].out, c)
  {
    RunTraces(ss, ls, i);
    RunPending(ss, ls, i);
    var s := ss[i];
    var ch := s.children[c];
    var p := Projection(s.out, c);
    assert Told(p, ch, !Registered(s.regs, c, ch));
    assert p == [p[0]] + p[1..];
    if Settled(ch) && Registered(s.regs, c, ch) {
      SettledIsReady(s, c);
    }
  }

  /** Nothing is ever stuck: a client may always come; a child may always go on, and die; a pending signal
      can always be read; and the report of a child that has finished its part can always be made. */
  lemma NothingStuck(ss: seq<State>, ls: seq<Label>, i: nat, c: nat)
    requires Run(ss, ls) && i < |ss|
    ensures Enabled(ss[i], Accept)
    ensures ss[i].pending == Some(c) ==> Enabled(ss[i], ReadSignal(c))
    ensures c < |ss[i].children| ==>
              match ss[i].children[c].phase
              case Cloned => Enabled(ss[i], Prepare(c))
              case Ready => Enabled(ss[i], ExecSucceeds(c)) && forall errno :: Enabled(ss[i], ExecFails(c, errno))
              case ExecFailed(_) => Enabled(ss[i], WriteErrno(c))
              case _ => true
    ensures c < |ss[i].children| && !ss[i].children[c].phase.Dead() ==> forall status :: Enabled(ss[i], Die(c, status))
    ensures c < |ss[i].children| && Settled(ss[i].children[c]) && Registered(ss[i].regs, c, ss[i].children[c]) ==>
              Enabled(ss[i], ReadReport(ss[i].children[c].readFd))
  {
    RunPending(ss, ls, i);
    RunSound(ss, ls, i);
    if c < |ss[i].children| && Settled(ss[i].children[c]) && Registered(ss[i].regs, c, ss[i].children[c]) {
      SettledIsReady(ss[i], c);
    }
  }

  // ----- what a termination says -----

  /** Step `b` ended child `c`, by its exit code or by the signal `n`. */
  predicate DiedWith(ls: seq<Label>, b: nat, c: nat, n: int) {
    b < |ls| && (ls[b] == Die(c, Exited(n)) || ls[b] == Die(c, Signaled(n)))
  }

  lemma StepDies(s: State, l: Label, s': State, c: nat)
    requires Follows(s, l, s') && c < |s'.children|
    ensures c < |s.children| && s.children[c].phase.Dead() ==>
              && s'.children[c].phase.Dead() && s'.children[c].phase.status == s.children[c].phase.status
              && !(l.Die? && l.c == c)
    ensures s'.children[c].phase.Dead() && !(c < |s.children| && s.children[c].phase.Dead()) ==>
              l == Die(c, s'.children[c].phase.status)
    ensures l.Die? && l.c == c ==> s'.children[c].phase.Dead()
  {
    if ChildAction(l) { ChildActionFrame(s, l, s'); }
  }

  /** A child is dead exactly when the run has ended it, and then with the status of that step. */
  lemma {:induction false} DeadIff(ss: seq<State>, ls: seq<Label>, i: nat, c: nat)
    requires Run(ss, ls) && i < |ss| && c < |ss[i].children|
    ensures ss[i].children[c].phase.Dead() <==> exists b :: 0 <= b < i && ls[b].Die? && ls[b].c == c
    ensures forall b :: 0 <= b < i && ls[b].Die? && ls[b].c == c ==>
              ss[i].children[c].phase.Dead() && ss[i].children[c].phase.status == ls[b].status
  {
    if i > 0 {
      assert StepAt(ss, ls, i - 1);
      StepDies(ss[i - 1], ls[i - 1], ss[i], c);
      if c < |ss[i - 1].children| {
        DeadIff(ss, ls, i - 1, c);
      } else {
        NotYetLaunched(ss, ls, i - 1, c);
      }
    }
  }

  /** A message about child `c` is in the projection exactly when it was sent. */
  lemma {:induction false} ProjectionHas(out: seq<Sent>, c: nat, m: Msg)
    ensures m in Projection(out, c) <==> exists k :: 0 <= k < |out| && out[k].about == Some(c) && out[k].msg == m
  {
    if out != [] {
      var n := |out| - 1;
      ProjectionHas(out[..n], c, m);
      assert forall k :: 0 <= k < n ==> out[k] == out[..n][k];
      if out[n].about == Some(c) && out[n].msg == m { assert m in Projection(out, c); }
    }
  }

  /** Every termination sent about a child carries its pid and the exit code or the signal with which the
      run ended it. */
  lemma TerminationCorrect(ss: seq<State>, ls: seq<Label>, i: nat, c: nat, k: nat)
    requires Run(ss, ls) && i < |ss| && c < |ss[i].children|
    requires k < |ss[i].out| && ss[i].out[k].about == Some(c) && ss[i].out[k].msg.Terminated?
    ensures ss[i].out[k].msg.pid == ss[i].children[c].pid
    ensures exists b :: 0 <= b < i && DiedWith(ls, b, c, ss[i].out[k].msg.code)
  {
    RunTraces(ss, ls, i);
    DeadIff(ss, ls, i, c);
    var ch, p, m := ss[i].children[c], Projection(ss[i].out, c), ss[i].out[k].msg;
    ProjectionHas(ss[i].out, c, m);
    assert Told(p, ch, !Registered(ss[i].regs, c, ch));
    assert p == [p[0]] + p[1..];
    assert ch.phase.Reaped? && m == EndMsg(ch);
    var b :| 0 <= b < i && ls[b].Die? && ls[b].c == c;
    assert DiedWith(ls, b, c, m.code);
  }

  /** Once a child that the run ended has been waited for, exactly one termination about it has been sent,
      with the exit code or the signal of its end. */
  lemma TerminationTold(ss: seq<State>, ls: seq<Label>, i: nat, c: nat, b: nat, n: int)
    requires Run(ss, ls) && i < |ss| && c < |ss[i].children| && ss[i].children[c].phase.Reaped?
    requires b < i && DiedWith(ls, b, c, n)
    ensures exists k :: 0 <= k < |ss[i].out|
                        && ss[i].out[k].about == Some(c) && ss[i].out[k].msg == Terminated(ss[i].children[c].pid, n)
    ensures forall j, k :: 0 <= j < k < |Projection(ss[i].out, c)| ==>
              !(Projection(ss[i].out, c)[j].Terminated? && Projection(ss[i].out, c)[k].Terminated?)
  {
    RunTraces(ss, ls, i);
    DeadIff(ss, ls, i, c);
    var ch, p := ss[i].children[c], Projection(ss[i].out, c);
    assert Told(p, ch, !Registered(ss[i].regs, c, ch));
    assert p == [p[0]] + p[1..];
    assert EndMsg(ch) == Terminated(ch.pid, n);
    assert EndMsg(ch) in p;
    ProjectionHas(ss[i].out, c, EndMsg(ch));
  }

  // ----- what an exec report means -----

  /** Only `WriteErrno(c)` sets what child `c` wrote, and it writes the number its execve returned. */
  lemma StepWrote(s: State, l: Label, s': State, c: nat)
    requires Follows(s, l, s') && c < |s'.children|
    ensures c < |s.children| ==>
              && s'.children[c].wrote == (if l == WriteErrno(c) then Some(s.children[c].phase.errno) else s.children[c].wrote)
              && (s'.children[c].phase.ExecFailed? ==>
                    s'.children[c].phase == s.children[c].phase || l == ExecFails(c, s'.children[c].phase.errno))
    ensures |s.children| <= c ==> s'.children[c].wrote.None? && !s'.children[c].phase.ExecFailed? && l != WriteErrno(c)
  {
    if ChildAction(l) { ChildActionFrame(s, l, s'); }
  }

  /** A child has written exactly when its write happened in the run. */
  lemma {:induction false} WroteIffWriteStep(ss: seq<State>, ls: seq<Label>, i: nat, c: nat)
    requires Run(ss, ls) && i < |ss| && c < |ss[i].children|
    ensures ss[i].children[c].wrote.Some? <==> exists b :: 0 <= b < i && ls[b] == WriteErrno(c)
  {
    if i > 0 {
      assert StepAt(ss, ls, i - 1);
      StepWrote(ss[i - 1], ls[i - 1], ss[i], c);
      if c < |ss[i - 1].children| {
        WroteIffWriteStep(ss, ls, i - 1, c);
      } else {
        NotYetLaunched(ss, ls, i - 1, c);
      }
    }
  }

  /** The run contains the failed execve of child `c` with that error number, before step `i`. */
  ghost predicate FailedBefore(ls: seq<Label>, i: nat, c: nat, errno: int) {
    exists a :: 0 <= a < i && a < |ls| && ls[a] == ExecFails(c, errno)
  }

  /** What a child wrote is the error number of its own failed execve. */
  lemma {:induction false} WroteAfterFailure(ss: seq<State>, ls: seq<Label>, i: nat, c: nat)
    requires Run(ss, ls) && i < |ss| && c < |ss[i].children|
    ensures ss[i].children[c].wrote.Some? ==> FailedBefore(ls, i, c, ss[i].children[c].wrote.value)
    ensures ss[i].children[c].phase.ExecFailed? ==> FailedBefore(ls, i, c, ss[i].children[c].phase.errno)
  {
    if i > 0 {
      assert StepAt(ss, ls, i - 1);
      StepWrote(ss[i - 1], ls[i - 1], ss[i], c);
      if c < |ss[i - 1].children| {
        WroteAfterFailure(ss, ls, i - 1, c);
      }
    }
  }

  lemma {:induction false} NotYetLaunched(ss: seq<State>, ls: seq<Label>, i: nat, c: nat)
    requires Run(ss, ls) && i < |ss| && |ss[i].children| <= c
    ensures forall b :: 0 <= b < i && ChildAction(ls[b]) ==> ls[b].c != c
  {
    if i > 0 {
      var s, l, s' := ss[i - 1], ls[i - 1], ss[i];
      assert StepAt(ss, ls, i - 1);
      if ChildAction(l) { ChildActionFrame(s, l, s'); }
      NotYetLaunched(ss, ls, i - 1, c);
    }
  }

  /** The program of child `c` was executed before step `i`. */
  ghost predicate ProgramRan(ls: seq<Label>, i: nat, c: nat) {
    exists b :: 0 <= b < i && b < |ls| && ls[b] == ExecSucceeds(c)
  }

  /** Step `b` ended child `c` while it was executing its program. */
  ghost predicate DiedRunning(ss: seq<State>, ls: seq<Label>, b: nat, c: nat) {
    && b < |ls| && b < |ss| && ls[b].Die? && ls[b].c == c
    && c < |ss[b].children| && ss[b].children[c].phase.Running?
  }

  lemma StepRuns(s: State, l: Label, s': State, c: nat)
    requires Follows(s, l, s') && c < |s'.children|
    ensures l == ExecSucceeds(c) ==> s'.children[c].phase.Running?
    ensures s'.children[c].phase.Running? ==> l == ExecSucceeds(c) || (c < |s.children| && s.children[c].phase.Running?)
    ensures c < |s.children| && s.children[c].phase.Running? ==> s'.children[c].phase.Running? || (l.Die? && l.c == c)
    ensures c < |s.children| && (s.children[c].phase.Running? || s.children[c].phase.Dead()) ==>
              s'.children[c].phase.Running? || s'.children[c].phase.Dead()
  {
    if ChildAction(l) { ChildActionFrame(s, l, s'); }
  }

  lemma {:induction false} RanIff(ss: seq<State>, ls: seq<Label>, i: nat, c: nat)
    requires Run(ss, ls) && i < |ss| && c < |ss[i].children|
    ensures ProgramRan(ls, i, c) <==>
            ss[i].children[c].phase.Running? || exists b :: 0 <= b < i && DiedRunning(ss, ls, b, c)
  {
    if i > 0 {
      assert StepAt(ss, ls, i - 1);
      StepRuns(ss[i - 1], ls[i - 1], ss[i], c);
      if c < |ss[i - 1].children| {
        RanIff(ss, ls, i - 1, c);
        if ss[i - 1].children[c].phase.Running? && !ss[i].children[c].phase.Running? {
          assert DiedRunning(ss, ls, i - 1, c);
        }
      } else {
        NotYetLaunched(ss, ls, i - 1, c);
      }
    }
  }

  lemma WroteIsOver(ss: seq<State>, ls: seq<Label>, i: nat, c: nat)
    requires Run(ss, ls) && i < |ss| && c < |ss[i].children|
    ensures ss[i].children[c].wrote.Some? ==> ss[i].children[c].phase.Wrote? || ss[i].children[c].phase.Dead()
  {
    RunSound(ss, ls, i);
    assert ChildInv(ss[i].children[c], |ss[i].pipes|);
  }

  /** A child that has not got to its program, or wrote that it could not, never executed it. */
  lemma {:induction false} WroteNotRan(ss: seq<State>, ls: seq<Label>, i: nat, c: nat)
    requires Run(ss, ls) && i < |ss| && c < |ss[i].children|
    ensures ss[i].children[c].wrote.Some? || !(ss[i].children[c].phase.Running? || ss[i].children[c].phase.Dead()) ==>
              !ProgramRan(ls, i, c)
  {
    if i > 0 {
      assert StepAt(ss, ls, i - 1);
      StepRuns(ss[i - 1], ls[i - 1], ss[i], c);
      StepWrote(ss[i - 1], ls[i - 1], ss[i], c);
      WroteIsOver(ss, ls, i, c);
      if c < |ss[i - 1].children| {
        WroteNotRan(ss, ls, i - 1, c);
      } else {
        NotYetLaunched(ss, ls, i - 1, c);
      }
    }
  }

  /** Every exec report of every run: it carries the pid and path of the child whose pipe was read; it
      says failure exactly when that child's execve failed and the child wrote its error number;
      when it says success, nothing was written and no process holds the write end.  A reported failure
      means that the program never ran.  A reported success means that it ran, unless the child died
      first: before its execve, or after a failed one and before it could write. */
  lemma ReportCorrect(ss: seq<State>, ls: seq<Label>, i: nat, c: nat, ch: Child)
    requires Run(ss, ls) && i < |ls| && ls[i].ReadReport?
    requires ls[i].fd in ss[i].regs && ss[i].regs[ls[i].fd].Exec? && c == ss[i].regs[ls[i].fd].child
    requires c < |ss[i].children| ==> ch == ss[i].children[c]
    ensures c < |ss[i].children|
    ensures ls[i].fd in ss[i].fds && ss[i].fds[ls[i].fd] == PipeRead(ch.pipe)
    ensures ss[i + 1].out == ss[i].out + [Sent(ss[i].comm, ExecTerminated(ch.pid, ch.path, ch.wrote.None?), Some(c))]
    ensures ch.wrote.Some? <==> exists b :: 0 <= b < i && ls[b] == WriteErrno(c)
    ensures ch.wrote.Some? ==> FailedBefore(ls, i, c, ch.wrote.value)
    ensures ch.wrote.None? ==> NoWriter(ss[i], ch.pipe) && ch.pipe < |ss[i].pipes| && ss[i].pipes[ch.pipe] == []
    ensures ch.wrote.Some? ==> !ProgramRan(ls, i, c)
    ensures ch.wrote.None? ==>
              && (ch.phase.Running? || ch.phase.Dead())
              && (ProgramRan(ls, i, c) <==> ch.phase.Running? || exists b :: 0 <= b < i && DiedRunning(ss, ls, b, c))
  {
    var s, f := ss[i], ls[i].fd;
    RunSound(ss, ls, i);
    assert StepAt(ss, ls, i);
    assert RegOk(f, s.regs[f], s.children, s.pipes, s.fds);
    WroteIffWriteStep(ss, ls, i, c);
    WroteAfterFailure(ss, ls, i, c);
    WroteNotRan(ss, ls, i, c);
    RanIff(ss, ls, i, c);
    ReadyMeansSettled(s, f);
    assert ChildInv(ch, |s.pipes|);
  }
}
