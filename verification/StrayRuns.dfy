/** Runs that go on where the model's `Run` stops.  Closing a stale descriptor harms whoever has that
    number now, but it leaves the daemon's memory alone; so the daemon carries on, and what is
    said here of records, stacks and the counter holds of it for as long as it does. */
module StrayRuns {
  import opened Options
  import opened ProcessManager
  import opened DaemonState
  import opened TableSafety
  import opened RunSafety

  /** A reap that closed a descriptor its record did not own.  Nothing is assumed of the descriptors and
      registrations after that. */
  ghost predicate AfterStrayClose(s: State, c: nat, s': State)
    requires c < |s.children| && s.children[c].phase.Zombie?
  {
    var ch := s.children[c];
    match Scan(s.slots, ch.pid, s.nb)
    case Found(k) =>
      var r := s.slots[k];
      s' == WithChild(s, c, ch.(phase := Reaped(ch.phase.status))).(
        pending := None, nb := s.nb - 1,
        out := s.out + [Sent(s.comm, Terminated(ch.pid, StatusCode(ch.phase.status)), Some(c))],
        slots := Released(s.slots, k),
        heap := if r.stack.Some? then s.heap - {r.stack.value} else s.heap,
        fds := s'.fds, regs := s'.regs)
    case _ => false
  }

  /** The code takes the step from `s` to `s'`, be it one that closes a stale descriptor. */
  ghost predicate Proceeds(s: State, l: Label, s': State) {
    || Follows(s, l, s')
    || (Enabled(s, l) && l.ReadSignal? && Step(s, l) == Fault(StrayClose) && AfterStrayClose(s, l.c, s'))
  }

  ghost predicate ProceedsAt(ss: seq<State>, ls: seq<Label>, i: nat)
    requires i < |ls| && |ss| == |ls| + 1
  {
    Proceeds(ss[i], ls[i], ss[i + 1])
  }

  /** A run of the code from the initial state, through any number of stray closes. */
  ghost predicate LongRun(ss: seq<State>, ls: seq<Label>) {
    && |ss| == |ls| + 1 && ss[0] == Initial()
    && forall i {:trigger ProceedsAt(ss, ls, i)} :: 0 <= i < |ls| ==> ProceedsAt(ss, ls, i)
  }

  lemma RunIsLong(ss: seq<State>, ls: seq<Label>)
    requires Run(ss, ls)
    ensures LongRun(ss, ls)
  {
    forall i: nat | i < |ls|
      ensures ProceedsAt(ss, ls, i)
    {
      assert StepAt(ss, ls, i);
    }
  }

  /** What survives a stray close. */
  ghost predicate MemoryInv(s: State) {
    && TableInv(s.slots, s.nb, s.children)
    && RecordsInv(s.slots, s.children)
    && StackInv(s.slots, s.heap, s.children)
  }

  lemma StrayKeepsMemory(s: State, c: nat, s': State)
    requires MemoryInv(s) && c < |s.children| && s.children[c].phase.Zombie? && AfterStrayClose(s, c, s')
    ensures MemoryInv(s')
  {
    var k := Scan(s.slots, s.children[c].pid, s.nb).index;
    var ch := s'.children[c];
    assert s'.children == s.children[c := ch];
    ReleaseKeepsTable(s.slots, s.nb, s.children, c, ch, k);
    ReleaseKeepsRecords(s.slots, s.children, c, k, ch);
    if s.slots[k].Occupied() {
      ReleaseKeepsStacks(s.slots, s.heap, s.children, c, k, ch);
    } else {
      assert Released(s.slots, k) == s.slots;
      EditKeepsStacks(s.slots, s.heap, s.children, c, ch);
    }
  }

  lemma {:induction false} LongRunMemory(ss: seq<State>, ls: seq<Label>, i: nat)
    requires LongRun(ss, ls) && i < |ss|
    ensures MemoryInv(ss[i])
  {
    if i == 0 {
      InitialSafe();
    } else {
      LongRunMemory(ss, ls, i - 1);
      var s, l, s' := ss[i - 1], ls[i - 1], ss[i];
      assert ProceedsAt(ss, ls, i - 1);
      if Follows(s, l, s') {
        StepKeepsTable(s, l, s');
        StepKeepsRecords(s, l, s');
        StepKeepsStacks(s, l, s');
      } else {
        StrayKeepsMemory(s, l.c, s');
      }
    }
  }

  /** However many children there are and however many stale descriptors have been closed: no step ever
      frees a stack twice, and one leaves the table exactly when it is a reap with the counter above
      256 and no record bearing the pid. */
  lemma NeverFreesTwice(ss: seq<State>, ls: seq<Label>, l: Label)
    requires LongRun(ss, ls) && Enabled(ss[|ls|], l)
    ensures var s := ss[|ls|];
            && Step(s, l) != Fault(DoubleFree)
            && (Step(s, l) == Fault(BadScan) <==> l.ReadSignal? && ScanLeavesTable(s, s.children[l.c].pid))
  {
    LongRunMemory(ss, ls, |ls|);
    if l.ReadSignal? { ScanDefinedExactly(ss[|ls|], ss[|ls|].children[l.c].pid); }
  }

  lemma ProceedsKeepsIdentity(s: State, l: Label, s': State, c: nat)
    requires Proceeds(s, l, s') && c < |s.children| && c < |s'.children|
    ensures SameIdentity(s.children[c], s'.children[c]) && (s'.children[c].Live() ==> s.children[c].Live())
  {
    if Follows(s, l, s') { StepKeepsIdentity(s, l, s', c); }
  }

  /** Nor does any step free or overwrite the record or the stack of a child still to be reaped. */
  lemma LiveChildKeptOn(ss: seq<State>, ls: seq<Label>, i: nat, c: nat)
    requires LongRun(ss, ls) && i < |ls|
    requires c < |ss[i].children| && c < |ss[i + 1].children| && ss[i + 1].children[c].Live()
    ensures ss[i].children[c].Live() && SameIdentity(ss[i].children[c], ss[i + 1].children[c])
    ensures ss[i + 1].children[c].stack in ss[i + 1].heap
    ensures match ss[i].children[c].slot
            case Some(k) =>
              && k < |ss[i].slots| == |ss[i + 1].slots|
              && ss[i].slots[k] == ss[i + 1].slots[k]
              && ss[i].slots[k] == Used(Some(ss[i].children[c].stack), ss[i].children[c].pid, ss[i].children[c].errFile)
            case None => true
  {
    LongRunMemory(ss, ls, i);
    LongRunMemory(ss, ls, i + 1);
    assert ProceedsAt(ss, ls, i);
    ProceedsKeepsIdentity(ss[i], ls[i], ss[i + 1], c);
    assert Tracked(ss[i].slots, ss[i].children[c]);
    assert Tracked(ss[i + 1].slots, ss[i + 1].children[c]);
  }
}
