/** Why the daemon's table stays memory-safe over whole runs, although a released record keeps its
    pid, the lookup never tests occupancy, and the scan is bounded by a live counter. */
module TableSafety {
  import opened Options
  import opened ProcessManager
  import opened DaemonState

  // ----- counting -----

  function Below(n: nat): (r: set<nat>)
    ensures |r| == n && forall i: nat :: i in r <==> i < n
  {
    if n == 0 then {} else Below(n - 1) + {n - 1}
  }

  lemma SubsetSize<T>(a: set<T>, b: set<T>)
    requires a <= b
    ensures |a| <= |b|
    ensures |a| == |b| ==> a == b
  {
    assert b == a + (b - a);
  }

  function OccupiedSet(slots: seq<Slot>): set<nat> {
    set i: nat | i < |slots| && slots[i].Occupied()
  }

  // ----- the counter and the written prefix -----

  ghost predicate WrittenPrefix(slots: seq<Slot>) {
    forall i, j :: 0 <= i < j < |slots| && slots[j].Used? ==> slots[i].Used?
  }

  /** The counter is the number of live children, written records form a prefix, and there are at
      least as many occupied records as the counter says unless the whole table has been written. */
  ghost predicate TableInv(slots: seq<Slot>, nb: int, children: seq<Child>) {
    && |slots| == MAX_PROCESS
    && nb == |LiveSet(children)|
    && WrittenPrefix(slots)
    && (nb <= |OccupiedSet(slots)| || slots[MAX_PROCESS - 1].Used?)
  }

  /** Every record below the counter has been written. */
  lemma CountedAreWritten(slots: seq<Slot>, nb: int, children: seq<Child>, j: nat)
    requires TableInv(slots, nb, children) && j < nb && j < MAX_PROCESS
    ensures slots[j].Used?
  {
    if slots[j].Fresh? {
      assert OccupiedSet(slots) <= Below(j);
      SubsetSize(OccupiedSet(slots), Below(j));
    }
  }

  /** In every state of every run, however many children there are, the removal scan is defined
      exactly when the counter is within the table or some record bears the pid. */
  lemma ScanDefinedExactly(s: State, pid: int)
    requires TableInv(s.slots, s.nb, s.children)
    ensures Scan(s.slots, pid, s.nb) != Undefined <==>
            s.nb <= MAX_PROCESS || exists k :: 0 <= k < MAX_PROCESS && s.slots[k].Bears(pid)
  {
    forall j: nat | j < s.nb && j < MAX_PROCESS
      ensures s.slots[j].Used?
    {
      CountedAreWritten(s.slots, s.nb, s.children, j);
    }
  }

  lemma AddKeepsPrefix(slots: seq<Slot>, k: nat, r: Slot)
    requires WrittenPrefix(slots) && k < |slots| && r.Used?
    requires forall j :: 0 <= j < k ==> slots[j].Occupied()
    ensures WrittenPrefix(slots[k := r])
  {
  }

  lemma FullTable(slots: seq<Slot>, nb: int)
    requires |slots| == MAX_PROCESS && Placement(slots, nb).None?
    requires nb <= |OccupiedSet(slots)| || slots[MAX_PROCESS - 1].Used?
    ensures slots[MAX_PROCESS - 1].Used?
  {
    if slots[MAX_PROCESS - 1].Fresh? {
      assert OccupiedSet(slots) <= Below(MAX_PROCESS - 1);
      SubsetSize(OccupiedSet(slots), Below(MAX_PROCESS - 1));
    }
  }

  lemma OneMoreLive(children: seq<Child>, ch: Child)
    requires ch.Live()
    ensures |LiveSet(children + [ch])| == |LiveSet(children)| + 1
  {
    var n := |children|;
    forall c: nat
      ensures c in LiveSet(children + [ch]) <==> c in LiveSet(children) + {n}
    {
      if c < n { assert (children + [ch])[c] == children[c]; }
    }
    assert LiveSet(children + [ch]) == LiveSet(children) + {n} && n !in LiveSet(children);
  }

  lemma OneMoreOccupied(slots: seq<Slot>, k: nat, r: Slot)
    requires k < |slots| && !slots[k].Occupied() && r.Occupied()
    ensures |OccupiedSet(slots[k := r])| == |OccupiedSet(slots)| + 1
  {
    assert OccupiedSet(slots[k := r]) == OccupiedSet(slots) + {k};
  }

  lemma AddKeepsTable(slots: seq<Slot>, nb: int, children: seq<Child>, ch: Child)
    requires TableInv(slots, nb, children) && ch.Live()
    ensures TableInv(Added(slots, ch.pid, ch.errFile, ch.stack, nb), nb + 1, children + [ch])
  {
    OneMoreLive(children, ch);
    match Placement(slots, nb)
    case Some(k) =>
      var r := Used(Some(ch.stack), ch.pid, ch.errFile);
      OneMoreOccupied(slots, k, r);
      AddKeepsPrefix(slots, k, r);
    case None =>
      FullTable(slots, nb);
  }

  lemma ReapKeepsTable(s: State, c: nat)
    requires TableInv(s.slots, s.nb, s.children) && c < |s.children| && s.children[c].phase.Zombie?
    requires ReapStep(s, c).Next?
    ensures var s' := ReapStep(s, c).state; TableInv(s'.slots, s'.nb, s'.children)
  {
    var ch := ReapStep(s, c).state.children[c];
    match Scan(s.slots, s.children[c].pid, s.nb)
    case Found(k) => ReleaseKeepsTable(s.slots, s.nb, s.children, c, ch, k);
    case _ => ReapedKeepsCount(s.children, c, ch);
  }

  lemma ReapedKeepsCount(children: seq<Child>, c: nat, ch: Child)
    requires c < |children| && children[c].Live() && !ch.Live()
    ensures |LiveSet(children[c := ch])| == |LiveSet(children)| - 1
  {
    assert LiveSet(children[c := ch]) == LiveSet(children) - {c};
  }

  lemma ReleaseKeepsTable(slots: seq<Slot>, nb: int, children: seq<Child>, c: nat, ch: Child, k: nat)
    requires TableInv(slots, nb, children) && c < |children| && children[c].Live() && !ch.Live()
    requires k < |slots| && slots[k].Used?
    ensures TableInv(Released(slots, k), nb - 1, children[c := ch])
  {
    ReapedKeepsCount(children, c, ch);
    assert OccupiedSet(Released(slots, k)) == OccupiedSet(slots) - {k};
  }

  lemma StepKeepsTable(s: State, l: Label, s': State)
    requires TableInv(s.slots, s.nb, s.children) && Follows(s, l, s')
    ensures TableInv(s'.slots, s'.nb, s'.children)
  {
    if l.Launch? {
      AddKeepsTable(s.slots, s.nb, s.children, NewChild(s, l.path, l.openOk, l.stack, l.pid));
    } else if l.ReadSignal? {
      ReapKeepsTable(s, l.c);
    } else if ChildAction(l) {
      ChildActionFrame(s, l, s');
      assert LiveSet(s'.children) == LiveSet(s.children);
    }
  }

  // ----- live children and their records -----

  ghost predicate PidsUnique(children: seq<Child>) {
    forall c, d :: 0 <= c < d < |children| && children[c].Live() && children[d].Live() ==>
      children[c].pid != children[d].pid
  }

  /** The record a child was given still holds what was put there. */
  ghost predicate Tracked(slots: seq<Slot>, ch: Child) {
    match ch.slot
    case Some(k) => k < |slots| && slots[k] == Used(Some(ch.stack), ch.pid, ch.errFile)
    case None => true
  }

  ghost predicate RecordsInv(slots: seq<Slot>, children: seq<Child>) {
    && PidsUnique(children)
    && forall c :: 0 <= c < |children| && children[c].Live() ==> Tracked(slots, children[c])
  }

  lemma AddKeepsRecords(slots: seq<Slot>, nb: int, children: seq<Child>, ch: Child)
    requires RecordsInv(slots, children) && PidFree(children, ch.pid) && ch.slot == Placement(slots, nb)
    ensures RecordsInv(Added(slots, ch.pid, ch.errFile, ch.stack, nb), children + [ch])
  {
    var slots' := Added(slots, ch.pid, ch.errFile, ch.stack, nb);
    forall c | 0 <= c < |children| && children[c].Live()
      ensures Tracked(slots', children[c])
    {
      assert Tracked(slots, children[c]);
    }
  }

  lemma ReleaseKeepsRecords(slots: seq<Slot>, children: seq<Child>, c: nat, k: nat, ch: Child)
    requires RecordsInv(slots, children) && c < |children| && children[c].Live() && !ch.Live()
    requires k < |slots| && slots[k].Bears(children[c].pid)
    ensures RecordsInv(Released(slots, k), children[c := ch])
  {
    forall d | 0 <= d < |children| && d != c && children[d].Live()
      ensures Tracked(Released(slots, k), children[d])
    {
      assert Tracked(slots, children[d]);
    }
  }

  lemma EditKeepsRecords(slots: seq<Slot>, children: seq<Child>, c: nat, ch: Child)
    requires RecordsInv(slots, children) && c < |children|
    requires SameIdentity(children[c], ch) && (ch.Live() ==> children[c].Live())
    ensures RecordsInv(slots, children[c := ch])
  {
    assert ch.Live() ==> Tracked(slots, children[c]);
  }

  lemma StepKeepsRecords(s: State, l: Label, s': State)
    requires RecordsInv(s.slots, s.children) && Follows(s, l, s')
    ensures RecordsInv(s'.slots, s'.children)
  {
    if l.Launch? {
      AddKeepsRecords(s.slots, s.nb, s.children, NewChild(s, l.path, l.openOk, l.stack, l.pid));
    } else if l.ReadSignal? {
      var r := Scan(s.slots, s.children[l.c].pid, s.nb);
      if r.Found? {
        ReleaseKeepsRecords(s.slots, s.children, l.c, r.index, s'.children[l.c]);
      } else {
        EditKeepsRecords(s.slots, s.children, l.c, s'.children[l.c]);
      }
    } else if ChildAction(l) {
      ChildActionFrame(s, l, s');
      EditKeepsRecords(s.slots, s.children, l.c, s'.children[l.c]);
    }
  }

  // ----- the history that makes the first match an occupied one -----

  /** Below the record of a tracked child, or anywhere for an untracked one, every record that bears
      the child's pid is occupied. */
  ghost predicate Shadowed(slots: seq<Slot>, ch: Child) {
    match ch.slot
    case Some(k) =>
      && k < |slots| && slots[k] == Used(Some(ch.stack), ch.pid, ch.errFile)
      && forall j :: 0 <= j < k && slots[j].Bears(ch.pid) ==> slots[j].Occupied()
    case None =>
      forall j :: 0 <= j < |slots| && slots[j].Bears(ch.pid) ==> slots[j].Occupied()
  }

  ghost predicate HistoryInv(slots: seq<Slot>, children: seq<Child>) {
    && PidsUnique(children)
    && forall c :: 0 <= c < |children| && children[c].Live() ==> Shadowed(slots, children[c])
  }

  /** Whatever record the scan for a live child's pid stops at is occupied. */
  lemma FirstMatchOccupied(slots: seq<Slot>, children: seq<Child>, c: nat, size: int, k: nat)
    requires HistoryInv(slots, children) && c < |children| && children[c].Live()
    requires Scan(slots, children[c].pid, size) == Found(k)
    ensures slots[k].Occupied()
  {
    ScanFindsLowest(slots, children[c].pid, size, k);
    assert Shadowed(slots, children[c]);
  }

  lemma AddKeepsHistory(slots: seq<Slot>, nb: int, children: seq<Child>, ch: Child)
    requires |slots| == MAX_PROCESS && nb < MAX_PROCESS
    requires HistoryInv(slots, children) && PidFree(children, ch.pid) && ch.slot == Placement(slots, nb)
    ensures HistoryInv(Added(slots, ch.pid, ch.errFile, ch.stack, nb), children + [ch])
  {
    var slots' := Added(slots, ch.pid, ch.errFile, ch.stack, nb);
    forall c | 0 <= c < |children| && children[c].Live()
      ensures Shadowed(slots', children[c])
    {
      assert Shadowed(slots, children[c]);
    }
    assert Shadowed(slots', ch);
  }

  lemma ReleaseKeepsHistory(slots: seq<Slot>, children: seq<Child>, c: nat, k: nat, ch: Child)
    requires HistoryInv(slots, children) && c < |children| && children[c].Live() && !ch.Live()
    requires k < |slots| && slots[k].Bears(children[c].pid)
    ensures HistoryInv(Released(slots, k), children[c := ch])
  {
    forall d | 0 <= d < |children| && d != c && children[d].Live()
      ensures Shadowed(Released(slots, k), children[d])
    {
      assert Shadowed(slots, children[d]);
    }
  }

  lemma EditKeepsHistory(slots: seq<Slot>, children: seq<Child>, c: nat, ch: Child)
    requires HistoryInv(slots, children) && c < |children|
    requires SameIdentity(children[c], ch) && (ch.Live() ==> children[c].Live())
    ensures HistoryInv(slots, children[c := ch])
  {
    assert ch.Live() ==> Shadowed(slots, children[c]);
  }

  lemma StepKeepsHistory(s: State, l: Label, s': State)
    requires |s.slots| == MAX_PROCESS && HistoryInv(s.slots, s.children) && Follows(s, l, s')
    requires l.Launch? ==> s.nb < MAX_PROCESS
    ensures HistoryInv(s'.slots, s'.children)
  {
    if l.Launch? {
      AddKeepsHistory(s.slots, s.nb, s.children, NewChild(s, l.path, l.openOk, l.stack, l.pid));
    } else if l.ReadSignal? {
      var r := Scan(s.slots, s.children[l.c].pid, s.nb);
      if r.Found? {
        ReleaseKeepsHistory(s.slots, s.children, l.c, r.index, s'.children[l.c]);
      } else {
        EditKeepsHistory(s.slots, s.children, l.c, s'.children[l.c]);
      }
    } else if ChildAction(l) {
      ChildActionFrame(s, l, s');
      EditKeepsHistory(s.slots, s.children, l.c, s'.children[l.c]);
    }
  }

  // ----- stacks -----

  /** Occupied records hold distinct allocated stacks; so do live children, and the only occupied
      record that can hold a live child's stack is the one it was given. */
  ghost predicate StackInv(slots: seq<Slot>, heap: set<nat>, children: seq<Child>) {
    && (forall i :: 0 <= i < |slots| && slots[i].Occupied() ==> slots[i].stack.value in heap)
    && (forall i, j :: 0 <= i < j < |slots| && slots[i].Occupied() && slots[j].Occupied() ==>
          slots[i].stack != slots[j].stack)
    && (forall c :: 0 <= c < |children| && children[c].Live() ==> children[c].stack in heap)
    && (forall c, d :: 0 <= c < d < |children| && children[c].Live() && children[d].Live() ==>
          children[c].stack != children[d].stack)
    && (forall c, i :: 0 <= c < |children| && 0 <= i < |slots| ==> OwnStack(slots[i], i, children[c]))
  }

  ghost predicate OwnStack(r: Slot, i: nat, ch: Child) {
    ch.Live() && r.Occupied() && r.stack.value == ch.stack ==> ch.slot == Some(i)
  }

  lemma AddKeepsStacks(slots: seq<Slot>, nb: int, heap: set<nat>, children: seq<Child>, ch: Child)
    requires StackInv(slots, heap, children) && ch.stack !in heap && ch.slot == Placement(slots, nb)
    ensures StackInv(Added(slots, ch.pid, ch.errFile, ch.stack, nb), heap + {ch.stack}, children + [ch])
  {
    var slots' := Added(slots, ch.pid, ch.errFile, ch.stack, nb);
    forall c, i | 0 <= c < |children| && 0 <= i < |slots|
      ensures OwnStack(slots'[i], i, children[c])
    {
      assert OwnStack(slots[i], i, children[c]);
    }
  }

  lemma ReleaseKeepsStacks(slots: seq<Slot>, heap: set<nat>, children: seq<Child>, c: nat, k: nat, ch: Child)
    requires RecordsInv(slots, children) && StackInv(slots, heap, children)
    requires c < |children| && children[c].Live() && !ch.Live()
    requires k < |slots| && slots[k].Bears(children[c].pid) && slots[k].Occupied()
    ensures StackInv(Released(slots, k), heap - {slots[k].stack.value}, children[c := ch])
  {
    forall d | 0 <= d < |children| && d != c && children[d].Live()
      ensures children[d].stack != slots[k].stack.value
    {
      assert Tracked(slots, children[d]);
      assert OwnStack(slots[k], k, children[d]);
    }
    var slots', children' := Released(slots, k), children[c := ch];
    forall d, i | 0 <= d < |children| && 0 <= i < |slots|
      ensures OwnStack(slots'[i], i, children'[d])
    {
      assert OwnStack(slots[i], i, children[d]);
    }
  }

  lemma EditKeepsStacks(slots: seq<Slot>, heap: set<nat>, children: seq<Child>, c: nat, ch: Child)
    requires StackInv(slots, heap, children) && c < |children|
    requires SameIdentity(children[c], ch) && (ch.Live() ==> children[c].Live())
    ensures StackInv(slots, heap, children[c := ch])
  {
    var children' := children[c := ch];
    forall d, i | 0 <= d < |children| && 0 <= i < |slots|
      ensures OwnStack(slots[i], i, children'[d])
    {
      assert OwnStack(slots[i], i, children[d]);
    }
  }

  lemma StepKeepsStacks(s: State, l: Label, s': State)
    requires RecordsInv(s.slots, s.children) && StackInv(s.slots, s.heap, s.children) && Follows(s, l, s')
    ensures StackInv(s'.slots, s'.heap, s'.children)
  {
    if l.Launch? {
      AddKeepsStacks(s.slots, s.nb, s.heap, s.children, NewChild(s, l.path, l.openOk, l.stack, l.pid));
    } else if l.ReadSignal? {
      var r := Scan(s.slots, s.children[l.c].pid, s.nb);
      if r.Found? && s.slots[r.index].Occupied() {
        ReleaseKeepsStacks(s.slots, s.heap, s.children, l.c, r.index, s'.children[l.c]);
      } else {
        assert r.Found? ==> Released(s.slots, r.index) == s.slots;
        EditKeepsStacks(s.slots, s.heap, s.children, l.c, s'.children[l.c]);
      }
    } else if ChildAction(l) {
      ChildActionFrame(s, l, s');
      EditKeepsStacks(s.slots, s.heap, s.children, l.c, s'.children[l.c]);
    }
  }

  // ----- descriptors -----

  ghost predicate KindMatches(reg: Reg, file: File) {
    match reg
    case Listener => file == Plain
    case Signals => file == Plain
    case Inotify(_) => file == Watcher
    case Conn => file == Connection
    case Exec(_, _, _) => file.PipeRead?
  }

  /** An occupied record's descriptor is standard output or an open error file. */
  ghost predicate RecordsErrorFile(r: Slot, fds: FdTable) {
    r.Occupied() && r.errFile != STDOUT_FILENO ==> r.errFile in fds && fds[r.errFile] == ErrorFile
  }

  /** Every occupied record's descriptor is an open error file (or standard output), recorded by no
      other occupied record; every registered descriptor is open and of its registration's kind. */
  ghost predicate DescriptorInv(slots: seq<Slot>, regs: map<nat, Reg>, fds: FdTable) {
    && (forall f :: 0 <= f <= 2 ==> f in fds && fds[f] == Std)
    && (forall i :: 0 <= i < |slots| ==> RecordsErrorFile(slots[i], fds))
    && (forall i, j :: 0 <= i < j < |slots| && slots[i].Occupied() && slots[j].Occupied() ==>
          slots[i].errFile != slots[j].errFile || slots[i].errFile == STDOUT_FILENO)
    && (forall f :: f in regs ==> f in fds && KindMatches(regs[f], fds[f]))
  }

  /** Opening a descriptor that was not in use disturbs nothing. */
  lemma OpenKeepsDescriptors(slots: seq<Slot>, regs: map<nat, Reg>, fds: FdTable, f: nat, file: File)
    requires DescriptorInv(slots, regs, fds) && f !in fds
    ensures DescriptorInv(slots, regs, fds[f := file])
    ensures forall reg :: KindMatches(reg, file) ==> DescriptorInv(slots, regs[f := reg], fds[f := file])
  {
    forall i | 0 <= i < |slots|
      ensures RecordsErrorFile(slots[i], fds[f := file])
    {
      assert RecordsErrorFile(slots[i], fds);
    }
  }

  /** Closing a descriptor that no occupied record holds, with its registration, disturbs nothing. */
  lemma CloseKeepsDescriptors(slots: seq<Slot>, regs: map<nat, Reg>, fds: FdTable, f: int)
    requires DescriptorInv(slots, regs, fds) && f > 2
    requires forall i :: 0 <= i < |slots| && slots[i].Occupied() ==> slots[i].errFile != f
    ensures DescriptorInv(slots, regs - {f}, fds - {f})
  {
    forall i | 0 <= i < |slots|
      ensures RecordsErrorFile(slots[i], fds - {f})
    {
      assert RecordsErrorFile(slots[i], fds);
    }
  }

  lemma OpeningKeepsDescriptors(s: State, openOk: bool)
    requires DescriptorInv(s.slots, s.regs, s.fds)
    ensures var fds := WithErrorFile(s.fds, openOk);
            && DescriptorInv(s.slots, s.regs, fds)
            && DescriptorInv(s.slots, s.regs, WithPipe(fds, |s.pipes|))
  {
    OpenKeepsDescriptors(s.slots, s.regs, s.fds, LowestFree(s.fds.Keys), ErrorFile);
    var fds := WithErrorFile(s.fds, openOk);
    OpenKeepsDescriptors(s.slots, s.regs, fds, ReadEnd(fds), PipeRead(|s.pipes|));
    OpenKeepsDescriptors(s.slots, s.regs, fds[ReadEnd(fds) := PipeRead(|s.pipes|)], WriteEnd(fds), PipeWrite(|s.pipes|));
  }

  lemma LaunchKeepsDescriptors(s: State, conn: nat, path: string, openOk: bool, stack: nat, pid: int)
    requires DescriptorInv(s.slots, s.regs, s.fds)
    ensures var s' := LaunchStep(s, conn, path, openOk, stack, pid); DescriptorInv(s'.slots, s'.regs, s'.fds)
  {
    var s' := LaunchStep(s, conn, path, openOk, stack, pid);
    var fds := WithErrorFile(s.fds, openOk);
    if openOk { OpenKeepsDescriptors(s.slots, s.regs, s.fds, LowestFree(s.fds.Keys), ErrorFile); }
    var r, w := ReadEnd(fds), WriteEnd(fds);
    assert s'.fds == fds[r := PipeRead(|s.pipes|)];
    forall i | 0 <= i < |s.slots|
      ensures RecordsErrorFile(s'.slots[i], s'.fds)
      ensures s.slots[i].Occupied() ==> s.slots[i].errFile == STDOUT_FILENO || s.slots[i].errFile in s.fds
    {
      assert RecordsErrorFile(s.slots[i], s.fds);
    }
  }

  lemma StepKeepsDescriptors(s: State, l: Label, s': State)
    requires DescriptorInv(s.slots, s.regs, s.fds) && Follows(s, l, s')
    ensures DescriptorInv(s'.slots, s'.regs, s'.fds)
  {
    if l.Launch? {
      LaunchKeepsDescriptors(s, l.conn, l.path, l.openOk, l.stack, l.pid);
    } else if l.LaunchFails? {
      OpeningKeepsDescriptors(s, l.openOk);
    } else if l.ReadSignal? {
      ReapKeepsDescriptors(s, l.c);
    } else if l.Accept? || l.WatchPath? {
      var fd := LowestFree(s.fds.Keys);
      OpenKeepsDescriptors(s.slots, s.regs, s.fds, fd, if l.Accept? then Connection else Watcher);
      assert KindMatches(Conn, Connection);
      if l.WatchPath? { assert KindMatches(Inotify(l.limit), Watcher); }
    } else if l.Hangup? || l.ReadReport? {
      RegisteredNotRecorded(s.slots, s.regs, s.fds, l.fd);
      CloseKeepsDescriptors(s.slots, s.regs, s.fds, l.fd);
    } else if ChildAction(l) {
      ChildActionFrame(s, l, s');
    }
  }

  /** A registered connection or pipe is recorded by no occupied record. */
  lemma RegisteredNotRecorded(slots: seq<Slot>, regs: map<nat, Reg>, fds: FdTable, f: nat)
    requires DescriptorInv(slots, regs, fds) && f in regs
    ensures f > 2
    ensures forall i :: 0 <= i < |slots| && slots[i].Occupied() ==> slots[i].errFile != f
  {
    assert KindMatches(regs[f], fds[f]);
    forall i | 0 <= i < |slots| && slots[i].Occupied()
      ensures slots[i].errFile != f
    {
      assert RecordsErrorFile(slots[i], fds);
    }
  }

  lemma ReapKeepsDescriptors(s: State, c: nat)
    requires DescriptorInv(s.slots, s.regs, s.fds)
    requires c < |s.children| && s.children[c].phase.Zombie? && ReapStep(s, c).Next?
    ensures var s' := ReapStep(s, c).state; DescriptorInv(s'.slots, s'.regs, s'.fds)
  {
    var r := Scan(s.slots, s.children[c].pid, s.nb);
    var s' := ReapStep(s, c).state;
    if r.Found? {
      var k := r.index;
      assert RecordsErrorFile(s.slots[k], s.fds);
      forall i | 0 <= i < |s.slots|
        ensures RecordsErrorFile(s'.slots[i], s'.fds)
      {
        assert RecordsErrorFile(s.slots[i], s.fds);
      }
      forall f | f in s.regs
        ensures f in s'.fds && KindMatches(s.regs[f], s'.fds[f])
      {
        assert KindMatches(s.regs[f], s.fds[f]);
      }
    }
  }
}
