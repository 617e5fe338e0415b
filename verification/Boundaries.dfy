/** Runs that show where the daemon's memory safety ends: records leak within the limit, and one child
    beyond it is enough for a descriptor to be closed twice or for the scan to leave the table. */
module Boundaries {
  import opened Options
  import opened ProcessManager
  import opened DaemonState
  import opened TableSafety
  import opened RunSafety

  /** One client has launched `n` children with pids 1 to `n`; all are alive and tracked in order.
      Only the first one's error file could be opened. */
  ghost predicate Crowd(s: State, conn: nat, n: nat) {
    && |s.children| == n && s.nb == n && |s.slots| == MAX_PROCESS && n <= MAX_PROCESS
    && conn in s.fds && conn in s.regs && s.regs[conn].Conn?
    && s.pending.None?
    && (forall c :: 0 <= c < n ==>
          s.children[c].pid == c + 1 && s.children[c].phase == Cloned)
    && (forall c :: 0 <= c < n ==> s.slots[c].Occupied() && s.slots[c].childId == c + 1)
    && (forall j :: n <= j < MAX_PROCESS ==> s.slots[j].Fresh?)
    && (forall x :: x in s.heap ==> x <= n)
    && (0 < n ==> s.slots[0].errFile != STDOUT_FILENO)
  }

  lemma OneMore(s: State, conn: nat, n: nat)
    requires Crowd(s, conn, n) && n < MAX_PROCESS && STDOUT_FILENO in s.fds
    ensures var l := Launch(conn, "p", n == 0, n + 1, n + 1);
            Enabled(s, l) && Crowd(LaunchStep(s, conn, "p", n == 0, n + 1, n + 1), conn, n + 1)
  {
    assert s.slots[n].Fresh?;
    assert FirstFree(s.slots) >= n;
  }

  lemma Arrive() returns (ss: seq<State>, ls: seq<Label>, conn: nat)
    ensures Run(ss, ls) && WithinLimit(ss) && Crowd(ss[|ls|], conn, 0)
  {
    conn := LowestFree(Initial().fds.Keys);
    ss, ls := Extend([Initial()], [], Accept);
    assert LiveSet(ss[0].children) == {} && LiveSet(ss[1].children) == {};
  }

  lemma OutputOpen(ss: seq<State>, ls: seq<Label>)
    requires Run(ss, ls)
    ensures STDOUT_FILENO in ss[|ls|].fds
  {
    RunIntact(ss, ls, |ls|);
  }

  lemma Counted(ss: seq<State>, ls: seq<Label>)
    requires Run(ss, ls)
    ensures ss[|ls|].nb == |LiveSet(ss[|ls|].children)|
  {
    CounterIsLive(ss, ls, |ls|);
  }

  lemma Join(ss: seq<State>, ls: seq<Label>, conn: nat, n: nat) returns (ss': seq<State>, ls': seq<Label>)
    requires Run(ss, ls) && WithinLimit(ss) && Crowd(ss[|ls|], conn, n) && n < MAX_PROCESS
    ensures Run(ss', ls') && WithinLimit(ss') && Crowd(ss'[|ls'|], conn, n + 1)
  {
    OutputOpen(ss, ls);
    OneMore(ss[|ls|], conn, n);
    ss', ls' := Extend(ss, ls, Launch(conn, "p", n == 0, n + 1, n + 1));
    Counted(ss', ls');
  }

  lemma {:induction false} Gather(n: nat) returns (ss: seq<State>, ls: seq<Label>, conn: nat)
    requires n <= MAX_PROCESS
    ensures Run(ss, ls) && WithinLimit(ss) && Crowd(ss[|ls|], conn, n)
  {
    if n == 0 {
      ss, ls, conn := Arrive();
    } else {
      ss, ls, conn := Gather(n - 1);
      ss, ls := Join(ss, ls, conn, n - 1);
    }
  }

  /** A crowd of `n` and one more launch for each of `extra`: what `ReapFirst` starts from. */
  ghost predicate FirstToGo(s: State, conn: nat, n: nat, extra: nat) {
    && |s.slots| == MAX_PROCESS && 2 <= n <= MAX_PROCESS && |s.children| == n + extra && s.nb == n + extra
    && conn in s.regs && s.regs[conn].Conn?
    && s.pending.None?
    && (forall c :: 0 <= c < n ==> s.children[c].pid == c + 1 && s.children[c].phase == Cloned)
    && (forall c :: 0 <= c < n ==> s.slots[c].Occupied() && s.slots[c].childId == c + 1)
    && (forall c :: n <= c < |s.children| ==> s.children[c].pid != 1)
    && (forall x :: x in s.heap ==> x <= n + extra)
    && s.slots[0].Occupied() && s.slots[0].stack.value in s.heap
    && s.slots[0].errFile != STDOUT_FILENO && s.slots[0].errFile in s.fds && s.fds[s.slots[0].errFile] == ErrorFile
  }

  /** The first child of the crowd has died and been reaped: its record is free but still bears pid 1,
      and pid 1 may be used again. */
  ghost predicate FirstGone(s: State, conn: nat, n: nat, extra: nat) {
    && |s.children| == n + extra && s.nb == n + extra - 1 && |s.slots| == MAX_PROCESS && 2 <= n <= MAX_PROCESS
    && conn in s.regs && s.regs[conn].Conn?
    && s.pending.None?
    && PidFree(s.children, 1)
    && s.children[0].phase.Reaped?
    && s.slots[0].Used? && s.slots[0].childId == 1 && s.slots[0].stack.None? && s.slots[0].errFile != STDOUT_FILENO
    && (forall c :: 1 <= c < n ==> s.children[c].pid == c + 1 && s.children[c].phase == Cloned)
    && (forall c :: 1 <= c < n ==> s.slots[c].Occupied() && s.slots[c].childId == c + 1)
    && (forall x :: x in s.heap ==> x <= n + extra)
  }

  lemma CrowdIsFirstToGo(s: State, conn: nat, n: nat)
    requires Crowd(s, conn, n) && 2 <= n && Safe(s)
    ensures FirstToGo(s, conn, n, 0)
  {
    assert RecordsErrorFile(s.slots[0], s.fds);
  }

  /** `more` was added to the run, in states whose counter is at most `bound`. */
  ghost predicate Prolonged(ss: seq<State>, ls: seq<Label>, ss': seq<State>, ls': seq<Label>, bound: int) {
    && Run(ss', ls') && |ss| <= |ss'| && ss'[..|ss|] == ss
    && forall i :: |ss| <= i < |ss'| ==> ss'[i].nb <= bound
  }

  lemma ReapFirst(ss: seq<State>, ls: seq<Label>, conn: nat, n: nat, extra: nat) returns (ss': seq<State>, ls': seq<Label>)
    requires Run(ss, ls) && FirstToGo(ss[|ls|], conn, n, extra)
    ensures Prolonged(ss, ls, ss', ls', n + extra) && FirstGone(ss'[|ls'|], conn, n, extra)
  {
    var died := DieStep(ss[|ls|], 0, Exited(0));
    var ss1, ls1 := Extend(ss, ls, Die(0, Exited(0)));
    assert Scan(died.slots, 1, died.nb) == Found(0);
    ss', ls' := Extend(ss1, ls1, ReadSignal(0));
  }

  /** Every state of a prolonged run has at most `bound` live children. */
  lemma WithinBound(ss: seq<State>, ls: seq<Label>, ss': seq<State>, ls': seq<Label>, bound: int)
    requires Run(ss, ls) && Prolonged(ss, ls, ss', ls', bound)
    requires forall i :: 0 <= i < |ss| ==> |LiveSet(ss[i].children)| <= bound
    ensures forall i :: 0 <= i < |ss'| ==> |LiveSet(ss'[i].children)| <= bound
  {
    forall i | 0 <= i < |ss'|
      ensures |LiveSet(ss'[i].children)| <= bound
    {
      CounterIsLive(ss', ls', i);
      assert i < |ss| ==> ss'[i] == ss'[..|ss|][i];
    }
  }

  // ----- a leak within the limit -----

  /** The third child's record survived it. */
  ghost predicate Leaked(s: State) {
    && |s.children| == 3 && s.children[0].phase.Reaped? && s.children[2].phase.Reaped? && s.children[2].pid == 3
    && |s.slots| == MAX_PROCESS && s.slots[1].Occupied() && s.slots[2].Occupied() && s.slots[2].childId == 3
    && s.nb == 1
  }

  lemma LastLeaks(ss: seq<State>, ls: seq<Label>, conn: nat) returns (ss': seq<State>, ls': seq<Label>)
    requires Run(ss, ls) && FirstGone(ss[|ls|], conn, 3, 0)
    ensures Prolonged(ss, ls, ss', ls', MAX_PROCESS) && Leaked(ss'[|ls'|])
  {
    var died := DieStep(ss[|ls|], 2, Exited(0));
    var ss1, ls1 := Extend(ss, ls, Die(2, Exited(0)));
    assert Scan(died.slots, 3, died.nb, 2) == NotFound;
    assert Scan(died.slots, 3, died.nb, 1) == NotFound;
    assert Scan(died.slots, 3, died.nb) == NotFound;
    ss', ls' := Extend(ss1, ls1, ReadSignal(2));
  }

  /** Launch three children, reap the first, reap the third: the third record stays occupied although
      its child is gone, and the counter is 1 while two records are occupied. */
  lemma RecordsLeak() returns (ss: seq<State>, ls: seq<Label>)
    ensures Run(ss, ls) && WithinLimit(ss) && Leaked(ss[|ls|])
  {
    var ss0, ls0, conn := Gather(3);
    RunSafe(ss0, ls0, |ls0|);
    CrowdIsFirstToGo(ss0[|ls0|], conn, 3);
    var ss1, ls1 := ReapFirst(ss0, ls0, conn, 3, 0);
    WithinBound(ss0, ls0, ss1, ls1, MAX_PROCESS);
    ss, ls := LastLeaks(ss1, ls1, conn);
    WithinBound(ss1, ls1, ss, ls, MAX_PROCESS);
  }

  // ----- one child beyond the limit -----

  /** All records bear other pids than the last of 257 children. */
  ghost predicate Full(s: State) {
    && |s.slots| == MAX_PROCESS && |s.children| == MAX_PROCESS + 1 && s.nb == MAX_PROCESS + 1 && s.pending.None?
    && s.children[MAX_PROCESS].phase == Cloned
    && forall k :: 0 <= k < MAX_PROCESS ==> !s.slots[k].Bears(s.children[MAX_PROCESS].pid)
  }

  lemma Overflow(ss: seq<State>, ls: seq<Label>, conn: nat) returns (ss': seq<State>, ls': seq<Label>)
    requires Run(ss, ls) && Crowd(ss[|ls|], conn, MAX_PROCESS) && FirstToGo(ss[|ls|], conn, MAX_PROCESS, 0)
    ensures Prolonged(ss, ls, ss', ls', MAX_PROCESS + 1) && FirstToGo(ss'[|ls'|], conn, MAX_PROCESS, 1)
    ensures Full(ss'[|ls'|])
  {
    ss', ls' := Extend(ss, ls, Launch(conn, "p", false, 257, 257));
  }

  lemma ReusedPidFaults(ss: seq<State>, ls: seq<Label>, conn: nat) returns (ss': seq<State>, ls': seq<Label>, l: Label)
    requires Run(ss, ls) && FirstGone(ss[|ls|], conn, MAX_PROCESS, 1)
    ensures Prolonged(ss, ls, ss', ls', MAX_PROCESS + 1)
    ensures Enabled(ss'[|ls'|], l) && Step(ss'[|ls'|], l) == Fault(StrayClose)
  {
    var ss1, ls1 := Extend(ss, ls, Launch(conn, "p", false, 1000, 1));
    ss', ls' := Extend(ss1, ls1, Die(257, Exited(0)));
    l := ReadSignal(257);
    var died := ss'[|ls'|];
    assert Scan(died.slots, 1, died.nb) == Found(0);
  }

  /** A run that has at most 257 children waiting to be reaped, and a step that then closes a
      descriptor its record gave up before: 256 is the exact limit. */
  lemma LimitIsTight() returns (ss: seq<State>, ls: seq<Label>, l: Label)
    ensures Run(ss, ls) && forall i :: 0 <= i < |ss| ==> |LiveSet(ss[i].children)| <= MAX_PROCESS + 1
    ensures Enabled(ss[|ls|], l) && Step(ss[|ls|], l) == Fault(StrayClose)
  {
    var ss0, ls0, conn := Gather(MAX_PROCESS);
    RunSafe(ss0, ls0, |ls0|);
    CrowdIsFirstToGo(ss0[|ls0|], conn, MAX_PROCESS);
    var ss1, ls1 := Overflow(ss0, ls0, conn);
    WithinBound(ss0, ls0, ss1, ls1, MAX_PROCESS + 1);
    var ss2, ls2 := ReapFirst(ss1, ls1, conn, MAX_PROCESS, 1);
    WithinBound(ss1, ls1, ss2, ls2, MAX_PROCESS + 1);
    ss, ls, l := ReusedPidFaults(ss2, ls2, conn);
    WithinBound(ss2, ls2, ss, ls, MAX_PROCESS + 1);
  }

  /** The same 257 children: the last one was given no record, and reaping it takes the scan out of the
      table. */
  lemma UntrackedReapFaults() returns (ss: seq<State>, ls: seq<Label>, l: Label)
    ensures Run(ss, ls) && forall i :: 0 <= i < |ss| ==> |LiveSet(ss[i].children)| <= MAX_PROCESS + 1
    ensures Enabled(ss[|ls|], l) && Step(ss[|ls|], l) == Fault(BadScan)
  {
    var ss0, ls0, conn := Gather(MAX_PROCESS);
    RunSafe(ss0, ls0, |ls0|);
    CrowdIsFirstToGo(ss0[|ls0|], conn, MAX_PROCESS);
    var ss1, ls1 := Overflow(ss0, ls0, conn);
    WithinBound(ss0, ls0, ss1, ls1, MAX_PROCESS + 1);
    ss, ls := LastDies(ss1, ls1);
    WithinBound(ss1, ls1, ss, ls, MAX_PROCESS + 1);
    l := ReadSignal(256);
    FaultsExactly(ss, ls, l);
  }

  lemma LastDies(ss: seq<State>, ls: seq<Label>) returns (ss': seq<State>, ls': seq<Label>)
    requires Run(ss, ls) && Full(ss[|ls|])
    ensures Prolonged(ss, ls, ss', ls', MAX_PROCESS + 1)
    ensures Enabled(ss'[|ls'|], ReadSignal(256)) && ScanLeavesTable(ss'[|ls'|], ss'[|ls'|].children[256].pid)
  {
    ss', ls' := Extend(ss, ls, Die(256, Exited(0)));
  }
}
