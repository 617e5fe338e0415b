/** An ordinary day of the daemon, as an instance of what `EventLoop` says of every script. */
module PlainDay {
  import opened Options
  import opened ProcessManager
  import opened DaemonState
  import opened TableSafety
  import opened Events
  import opened EventLoop

  lemma {:induction false} ExecutesOnce(s: State, ls: seq<Label>, s': State, s'': State)
    requires Executes(s, ls, s') && Executes(s, ls, s'')
    ensures s' == s''
    decreases |ls|
  {
    if ls != [] { ExecutesOnce(Step(s, ls[0]).state, ls[1..], s', s''); }
  }

  lemma FeasibleFirst(s: State, t: Happening, s': State, rest: seq<Happening>)
    requires Possible(s, t) && Executes(s, HappeningLabels(t), s')
    requires |LiveSet(s'.children)| <= MAX_PROCESS && Feasible(s', rest)
    ensures Feasible(s, [t] + rest)
  {
    assert ([t] + rest)[0] == t && ([t] + rest)[1..] == rest;
    forall s'' | Executes(s, HappeningLabels(t), s'')
      ensures s'' == s'
    {
      ExecutesOnce(s, HappeningLabels(t), s', s'');
    }
  }

  /** One client on `a`, no child yet. */
  ghost predicate Morning(s: State, a: nat) {
    && a in s.fds && a in s.regs && s.regs[a] == Conn && s.children == [] && s.nb == 0 && s.heap == {} && s.pending == None
    && |s.slots| == MAX_PROCESS && s.slots[0] == Fresh
  }

  /** One child, alive or dead. */
  ghost predicate Day(s: State, phase: Phase) {
    && |s.children| == 1 && s.children[0].pid == 1 && s.children[0].phase == phase && s.nb == 1
    && |s.slots| == MAX_PROCESS && s.slots[0] == Used(Some(1), 1, STDOUT_FILENO) && 1 in s.heap
    && s.pending == if phase.Zombie? then Some(0) else None
  }

  function PlainRequest(a: nat): Happening {
    Handle(Readable(a, RunCommand("p", false, LaunchChoice.Cloned(1, 1), [Watch("d", 0, true)])))
  }

  lemma Connected(a: nat)
    requires a == LowestFree(Initial().fds.Keys)
    ensures Executes(Initial(), [Accept], AcceptStep(Initial())) && Morning(AcceptStep(Initial()), a)
  {
    OneStep(Initial(), Accept, AcceptStep(Initial()));
  }

  lemma LaunchedAt(s: State, a: nat) returns (s': State)
    requires Morning(s, a)
    ensures Possible(s, PlainRequest(a)) && Executes(s, HappeningLabels(PlainRequest(a)), s') && Day(s', Phase.Cloned)
  {
    assert FirstFree(s.slots) == 0;
    var m := LaunchStep(s, a, "p", false, 1, 1);
    s' := WatchStep(m, a, "d", 0, true);
    LaunchParts(s, a, "p", false, 1, 1);
    assert Follows(s, Launch(a, "p", false, 1, 1), m);
    OneStep(m, WatchPath(a, "d", 0, true), s');
    PlainLabels(a);
  }

  lemma PlainLabels(a: nat)
    ensures HappeningLabels(PlainRequest(a)) == [Launch(a, "p", false, 1, 1)] + [WatchPath(a, "d", 0, true)]
    ensures HappeningLabels(PlainRequest(a))[1..] == [WatchPath(a, "d", 0, true)]
  {
    assert WatchLabels(a, [Watch("d", 0, true)]) == WatchLabels(a, []) + [WatchPath(a, "d", 0, true)];
  }

  lemma DiesAt(s: State) returns (s': State)
    requires Day(s, Phase.Cloned)
    ensures Possible(s, Act(Die(0, Exited(3)))) && Executes(s, [Die(0, Exited(3))], s') && Day(s', Zombie(Exited(3)))
  {
    s' := DieStep(s, 0, Exited(3));
    OneStep(s, Die(0, Exited(3)), s');
  }

  lemma ReapedAt(s: State) returns (s': State)
    requires Day(s, Zombie(Exited(3)))
    ensures Possible(s, Handle(ChildSignal(0))) && Executes(s, [ReadSignal(0)], s') && |s'.children| == 1
  {
    assert Scan(s.slots, 1, 1) == Found(0);
    s' := ReapStep(s, 0).state;
    OneStep(s, ReadSignal(0), s');
  }

  lemma RestIsFeasible(s: State)
    requires Day(s, Phase.Cloned)
    ensures Feasible(s, [Act(Die(0, Exited(3))), Handle(ChildSignal(0))])
  {
    var dead := DiesAt(s);
    var reaped := ReapedAt(dead);
    FewLive(dead);
    FewLive(reaped);
    FeasibleFirst(dead, Handle(ChildSignal(0)), reaped, []);
    assert [Handle(ChildSignal(0))] + [] == [Handle(ChildSignal(0))];
    FeasibleFirst(s, Act(Die(0, Exited(3))), dead, [Handle(ChildSignal(0))]);
    assert [Act(Die(0, Exited(3)))] + [Handle(ChildSignal(0))] == [Act(Die(0, Exited(3))), Handle(ChildSignal(0))];
  }

  /** A client connects, launches a child and asks for a watch; the child dies and is reaped: such a day is
      feasible, so `Serve` is not idle. */
  lemma DayIsFeasible() returns (script: seq<Happening>, a: nat)
    ensures Feasible(Initial(), script)
    ensures script == [Handle(Connecting), PlainRequest(a), Act(Die(0, Exited(3))), Handle(ChildSignal(0))]
  {
    a := LowestFree(Initial().fds.Keys);
    var s1 := AcceptStep(Initial());
    Connected(a);
    var s2 := LaunchedAt(s1, a);
    FewLive(s1);
    FewLive(s2);
    RestIsFeasible(s2);
    script := [Act(Die(0, Exited(3))), Handle(ChildSignal(0))];
    FeasibleFirst(s1, PlainRequest(a), s2, script);
    script := [PlainRequest(a)] + script;
    FeasibleFirst(Initial(), Handle(Connecting), s1, script);
    script := [Handle(Connecting)] + script;
  }

  lemma FewLive(s: State)
    requires |s.children| <= 1
    ensures |LiveSet(s.children)| <= MAX_PROCESS
  {
    assert LiveSet(s.children) <= {0};
    SubsetSize(LiveSet(s.children), {0});
  }
}
