/** The memory-safety theorems.  Most hold of every run that has not faulted; that no step faults holds
    of the runs that never have more than `MAX_PROCESS` children waiting to be reaped, and beyond
    that the steps that do are known exactly. */
module RunSafety {
  import opened Options
  import opened ProcessManager
  import opened DaemonState
  import opened TableSafety

  /** What every step keeps, however many children there are. */
  ghost predicate Intact(s: State) {
    && TableInv(s.slots, s.nb, s.children)
    && RecordsInv(s.slots, s.children)
    && StackInv(s.slots, s.heap, s.children)
    && DescriptorInv(s.slots, s.regs, s.fds)
  }

  /** What every step keeps while the children fit into the table. */
  ghost predicate Safe(s: State) {
    Intact(s) && HistoryInv(s.slots, s.children)
  }

  lemma InitialTable()
    ensures TableInv(Initial().slots, 0, [])
  {
    assert LiveSet([]) == {};
  }

  lemma InitialFree(i: nat)
    requires i < MAX_PROCESS
    ensures Initial().slots[i] == Fresh
  {
  }

  lemma InitialStacks()
    ensures StackInv(Initial().slots, {}, []) && DescriptorInv(Initial().slots, Initial().regs, Initial().fds)
  {
    forall i: nat | i < MAX_PROCESS
      ensures !Initial().slots[i].Occupied()
    {
      InitialFree(i);
    }
  }

  lemma InitialSafe()
    ensures Safe(Initial())
  {
    InitialTable();
    InitialStacks();
  }

  lemma StepKeepsIntact(s: State, l: Label, s': State)
    requires Intact(s) && Follows(s, l, s')
    ensures Intact(s')
  {
    StepKeepsTable(s, l, s');
    StepKeepsRecords(s, l, s');
    StepKeepsStacks(s, l, s');
    StepKeepsDescriptors(s, l, s');
  }

  /** Every state of every run is intact. */
  lemma {:induction false} RunIntact(ss: seq<State>, ls: seq<Label>, i: nat)
    requires Run(ss, ls) && i < |ss|
    ensures Intact(ss[i])
  {
    if i == 0 {
      InitialSafe();
    } else {
      RunIntact(ss, ls, i - 1);
      assert StepAt(ss, ls, i - 1);
      StepKeepsIntact(ss[i - 1], ls[i - 1], ss[i]);
    }
  }

  /** Every state of a run within the limit is safe. */
  lemma {:induction false} RunSafe(ss: seq<State>, ls: seq<Label>, i: nat)
    requires Run(ss, ls) && WithinLimit(ss) && i < |ss|
    ensures Safe(ss[i])
  {
    RunIntact(ss, ls, i);
    if i == 0 {
      InitialSafe();
    } else {
      RunSafe(ss, ls, i - 1);
      assert StepAt(ss, ls, i - 1);
      CounterIsLive(ss, ls, i);
      StepKeepsHistory(ss[i - 1], ls[i - 1], ss[i]);
    }
  }

  /** In every run, within the limit or not, the counter is the number of live children. */
  lemma {:induction false} CounterIsLive(ss: seq<State>, ls: seq<Label>, i: nat)
    requires Run(ss, ls) && i < |ss|
    ensures TableInv(ss[i].slots, ss[i].nb, ss[i].children)
    ensures ss[i].nb == |LiveSet(ss[i].children)|
  {
    if i == 0 {
      InitialSafe();
    } else {
      CounterIsLive(ss, ls, i - 1);
      assert StepAt(ss, ls, i - 1);
      StepKeepsTable(ss[i - 1], ls[i - 1], ss[i]);
    }
  }

  /** The scan gets past the table without meeting the pid. */
  predicate ScanLeavesTable(s: State, pid: int) {
    s.nb > MAX_PROCESS && forall k :: 0 <= k < |s.slots| ==> !s.slots[k].Bears(pid)
  }

  /** The scan stops at a record that has been released and had a descriptor of its own: what a test of
      the stack pointer before the release would see. */
  predicate ScanStopsAtReleased(s: State, pid: int) {
    match Scan(s.slots, pid, s.nb)
    case Found(k) => !s.slots[k].Occupied() && s.slots[k].errFile != STDOUT_FILENO
    case _ => false
  }

  lemma ReapFaultsExactly(s: State, c: nat)
    requires Intact(s) && c < |s.children| && s.children[c].phase.Zombie?
    ensures var pid, r := s.children[c].pid, ReapStep(s, c);
            && (r == Fault(BadScan) <==> ScanLeavesTable(s, pid))
            && (r == Fault(StrayClose) <==> ScanStopsAtReleased(s, pid))
            && r != Fault(DoubleFree)
  {
    var pid := s.children[c].pid;
    ScanDefinedExactly(s, pid);
    var r := Scan(s.slots, pid, s.nb);
    if r.Found? {
      assert RecordsErrorFile(s.slots[r.index], s.fds);
    }
  }

  /** Exactly which steps of a run fault, however many children there are: a reap whose scan leaves the
      table, and a reap whose scan stops at a released record with a descriptor of its own.  No step
      ever frees a stack twice. */
  lemma FaultsExactly(ss: seq<State>, ls: seq<Label>, l: Label)
    requires Run(ss, ls) && Enabled(ss[|ls|], l)
    ensures var s := ss[|ls|];
            && (Step(s, l) == Fault(BadScan) <==> l.ReadSignal? && ScanLeavesTable(s, s.children[l.c].pid))
            && (Step(s, l) == Fault(StrayClose) <==> l.ReadSignal? && ScanStopsAtReleased(s, s.children[l.c].pid))
            && Step(s, l) != Fault(DoubleFree)
  {
    RunIntact(ss, ls, |ls|);
    if l.ReadSignal? { ReapFaultsExactly(ss[|ls|], l.c); }
  }

  lemma ReapNeverFaults(s: State, c: nat)
    requires Safe(s) && s.nb <= MAX_PROCESS && c < |s.children| && s.children[c].phase.Zombie?
    ensures ReapStep(s, c).Next?
  {
    ReapFaultsExactly(s, c);
    var r := Scan(s.slots, s.children[c].pid, s.nb);
    if r.Found? {
      FirstMatchOccupied(s.slots, s.children, c, s.nb, r.index);
    }
  }

  /** Within the limit neither condition can arise: no step that can happen next faults. */
  lemma NoFault(ss: seq<State>, ls: seq<Label>, l: Label)
    requires Run(ss, ls) && WithinLimit(ss) && Enabled(ss[|ls|], l)
    ensures Step(ss[|ls|], l).Next?
  {
    RunSafe(ss, ls, |ls|);
    if l.ReadSignal? { ReapNeverFaults(ss[|ls|], l.c); }
  }

  lemma StepKeepsIdentity(s: State, l: Label, s': State, c: nat)
    requires Follows(s, l, s') && c < |s.children| && c < |s'.children|
    ensures SameIdentity(s.children[c], s'.children[c]) && (s'.children[c].Live() ==> s.children[c].Live())
  {
    if ChildAction(l) { ChildActionFrame(s, l, s'); }
  }

  /** The record and the stack of a child survive every step after which the child is still to be
      reaped. */
  lemma LiveChildKept(ss: seq<State>, ls: seq<Label>, i: nat, c: nat)
    requires Run(ss, ls) && i < |ls|
    requires c < |ss[i].children| && c < |ss[i + 1].children| && ss[i + 1].children[c].Live()
    ensures ss[i].children[c].Live() && SameIdentity(ss[i].children[c], ss[i + 1].children[c])
    ensures ss[i + 1].children[c].stack in ss[i + 1].heap
    ensures match ss[i].children[c].slot
            case Some(k) =>
              && k < |ss[i].slots| == |ss[i + 1].slots|
              && ss[i].slots[k] == ss[i + 1].slots[k]
              && ss[i].slots[k] == Used(Some(ss[i].children[c].stack), ss[i].children[c].pid, ss[i].children[c].errFile)
            case None => true
  {
    var s, l, s' := ss[i], ls[i], ss[i + 1];
    RunIntact(ss, ls, i);
    RunIntact(ss, ls, i + 1);
    assert StepAt(ss, ls, i);
    StepKeepsIdentity(s, l, s', c);
    assert Tracked(s.slots, s.children[c]);
    assert Tracked(s'.slots, s'.children[c]);
  }

  // ----- who owns a descriptor -----

  /** The occupied records that hold descriptor `f`. */
  function Holders(slots: seq<Slot>, f: int): set<nat> {
    set i: nat | i < |slots| && slots[i].Occupied() && slots[i].errFile == f
  }

  /** An open descriptor other than standard output has at most one owner: one occupied record or one
      registration. */
  lemma AtMostOneOwner(s: State, f: nat)
    requires Intact(s) && f != STDOUT_FILENO
    ensures |Holders(s.slots, f)| + (if f in s.regs then 1 else 0) <= 1
    ensures Holders(s.slots, f) != {} || f in s.regs ==> f in s.fds
  {
    if f in s.regs {
      RegisteredNotRecorded(s.slots, s.regs, s.fds, f);
      assert Holders(s.slots, f) == {};
    } else if Holders(s.slots, f) != {} {
      var i :| i in Holders(s.slots, f);
      assert Holders(s.slots, f) == {i};
      assert RecordsErrorFile(s.slots[i], s.fds);
    }
  }

  /** `f` was open, had exactly one owner, and the step took it away from that owner. */
  ghost predicate GivenUp(s: State, l: Label, s': State, f: nat) {
    && f > 2
    && |Holders(s.slots, f)| + (if f in s.regs then 1 else 0) == 1
    && Holders(s'.slots, f) == {} && f !in s'.regs
    && (Holders(s.slots, f) != {} ==> l.ReadSignal?)
    && (f in s.regs ==> (l.Hangup? || l.ReadReport?) && l.fd == f)
  }

  lemma ReapCloses(s: State, c: nat, f: nat)
    requires Intact(s) && c < |s.children| && s.children[c].phase.Zombie? && ReapStep(s, c).Next?
    requires f in s.fds && f !in ReapStep(s, c).state.fds
    ensures GivenUp(s, ReadSignal(c), ReapStep(s, c).state, f)
  {
    var k := Scan(s.slots, s.children[c].pid, s.nb).index;
    var s' := ReapStep(s, c).state;
    assert RecordsErrorFile(s.slots[k], s.fds);
    assert k in Holders(s.slots, f);
    AtMostOneOwner(s, f);
    SubsetSize({k}, Holders(s.slots, f));
    assert Holders(s'.slots, f) == Holders(s.slots, f) - {k};
  }

  lemma UnregisterCloses(s: State, l: Label, s': State)
    requires Intact(s) && Follows(s, l, s') && (l.Hangup? || l.ReadReport?)
    ensures s'.fds == s.fds - {l.fd} && GivenUp(s, l, s', l.fd)
  {
    RegisteredNotRecorded(s.slots, s.regs, s.fds, l.fd);
    assert Holders(s.slots, l.fd) == {};
  }

  lemma OthersCloseNothing(s: State, l: Label, s': State)
    requires Follows(s, l, s') && !l.ReadSignal? && !l.Hangup? && !l.ReadReport?
    ensures s.fds.Keys <= s'.fds.Keys
  {
    if ChildAction(l) { ChildActionFrame(s, l, s'); }
  }

  /** In every run, every descriptor that a step closes is closed by its only owner, which gives it up in that step:
      the record of the child being reaped, or the registration being dropped. */
  lemma ClosedByOwner(ss: seq<State>, ls: seq<Label>, i: nat, f: nat)
    requires Run(ss, ls) && i < |ls|
    requires f in ss[i].fds && f !in ss[i + 1].fds
    ensures GivenUp(ss[i], ls[i], ss[i + 1], f)
  {
    var s, l, s' := ss[i], ls[i], ss[i + 1];
    RunIntact(ss, ls, i);
    assert StepAt(ss, ls, i);
    if l.ReadSignal? {
      ReapCloses(s, l.c, f);
    } else if l.Hangup? || l.ReadReport? {
      UnregisterCloses(s, l, s');
    } else {
      OthersCloseNothing(s, l, s');
    }
  }

  // ----- shutting down -----

  ghost predicate AllocatedOnce(freed: seq<nat>, heap: set<nat>) {
    && (forall j :: 0 <= j < |freed| ==> freed[j] in heap)
    && forall j, k :: 0 <= j < k < |freed| ==> freed[j] != freed[k]
  }

  predicate IsErrorFile(f: int, fds: FdTable) { f in fds && fds[f] == ErrorFile }

  /** Every descriptor closed other than standard output is an open error file, closed once. */
  ghost predicate ErrorFilesOnce(closed: seq<int>, fds: FdTable) {
    && (forall j :: 0 <= j < |closed| && closed[j] != STDOUT_FILENO ==> IsErrorFile(closed[j], fds))
    && forall j, k :: 0 <= j < k < |closed| ==> closed[j] != closed[k] || closed[j] == STDOUT_FILENO
  }

  /** An occupied record among the first `n` holds descriptor `f`. */
  ghost predicate HeldBelow(slots: seq<Slot>, n: nat, f: int) {
    exists i :: 0 <= i < n && i < |slots| && slots[i].Occupied() && slots[i].errFile == f
  }

  /** A record among the first `n` has the stack `x`. */
  ghost predicate StackBelow(slots: seq<Slot>, n: nat, x: nat) {
    exists i :: 0 <= i < n && i < |slots| && slots[i].Used? && slots[i].stack == Some(x)
  }

  /** At any point of any run, `free_manager` stays inside the table exactly when at most 256 children are
      waiting to be reaped.  It then frees exactly the stacks of the records below the counter, which are
      allocated, each once; it closes exactly the
      descriptors that the records below the counter hold; and of these all but standard output are
      open error files, each closed once. */
  lemma ShutdownFreesOnce(ss: seq<State>, ls: seq<Label>, i: nat)
    requires Run(ss, ls) && i < |ss|
    ensures 0 <= ss[i].nb
    ensures ss[i].nb <= |ss[i].slots| <==> |LiveSet(ss[i].children)| <= MAX_PROCESS
    ensures ss[i].nb <= |ss[i].slots| ==>
              var e := ShutdownEffect(ss[i].slots, ss[i].nb);
              && AllocatedOnce(e.freed, ss[i].heap)
              && ErrorFilesOnce(e.closed, ss[i].fds)
              && (forall f :: f in e.closed <==> HeldBelow(ss[i].slots, ss[i].nb, f))
              && (forall x :: x in e.freed <==> StackBelow(ss[i].slots, ss[i].nb, x))
  {
    RunIntact(ss, ls, i);
    if ss[i].nb <= |ss[i].slots| {
      ShutdownDistinct(ss[i], ss[i].nb);
      ShutdownCloses(ss[i], ss[i].nb);
      ShutdownClosesHeld(ss[i].slots, ss[i].nb);
      ShutdownFreesHeld(ss[i].slots, ss[i].nb);
    }
  }

  lemma {:induction false} ShutdownFreesHeld(slots: seq<Slot>, n: nat)
    requires n <= |slots|
    ensures forall x :: x in ShutdownEffect(slots, n).freed <==> StackBelow(slots, n, x)
  {
    if n > 0 {
      ShutdownFreesHeld(slots, n - 1);
      forall x: nat
        ensures StackBelow(slots, n, x) <==> StackBelow(slots, n - 1, x) || (slots[n - 1].Used? && slots[n - 1].stack == Some(x))
      {
        if slots[n - 1].Used? && slots[n - 1].stack == Some(x) { assert StackBelow(slots, n, x); }
      }
    }
  }

  lemma {:induction false} ShutdownClosesHeld(slots: seq<Slot>, n: nat)
    requires n <= |slots|
    ensures forall f :: f in ShutdownEffect(slots, n).closed <==> HeldBelow(slots, n, f)
  {
    if n > 0 {
      ShutdownClosesHeld(slots, n - 1);
      forall f
        ensures HeldBelow(slots, n, f) <==>
                HeldBelow(slots, n - 1, f) || (slots[n - 1].Occupied() && slots[n - 1].errFile == f)
      {
        if slots[n - 1].Occupied() && slots[n - 1].errFile == f { assert HeldBelow(slots, n, f); }
      }
    }
  }

  lemma {:induction false} ShutdownCloses(s: State, n: nat)
    requires DescriptorInv(s.slots, s.regs, s.fds) && n <= |s.slots|
    ensures ErrorFilesOnce(ShutdownEffect(s.slots, n).closed, s.fds)
  {
    if n > 0 {
      ShutdownCloses(s, n - 1);
      var e := ShutdownEffect(s.slots, n - 1);
      if s.slots[n - 1].Occupied() {
        var f := s.slots[n - 1].errFile;
        assert RecordsErrorFile(s.slots[n - 1], s.fds);
        assert f in e.closed ==> f == STDOUT_FILENO;
        assert ErrorFilesOnce(e.closed + [f], s.fds);
      }
    }
  }

  lemma {:induction false} ShutdownDistinct(s: State, n: nat)
    requires StackInv(s.slots, s.heap, s.children) && n <= |s.slots|
    ensures AllocatedOnce(ShutdownEffect(s.slots, n).freed, s.heap)
  {
    if n > 0 {
      ShutdownDistinct(s, n - 1);
      var e := ShutdownEffect(s.slots, n - 1);
      if s.slots[n - 1].Occupied() {
        var x := s.slots[n - 1].stack.value;
        assert x !in e.freed && x in s.heap;
        assert AllocatedOnce(e.freed + [x], s.heap);
      }
    }
  }
}
