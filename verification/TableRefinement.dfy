/** The child table as a finite map from live pids to stacks and descriptors: what it implements when
    the scan covers the whole table, and exactly where the bound that the daemon passes departs. */
module TableRefinement {
  import opened Options
  import opened ProcessManager
  import opened DaemonState
  import opened TableSafety
  import opened RunSafety

  datatype Op = Add(pid: int, stack: nat, errFile: int) | Remove(pid: int)

  datatype Entry = Entry(stack: nat, errFile: int)

  /** The abstract map: one entry for each child still to be reaped. */
  type Tracker = map<int, Entry>

  datatype Table = Table(slots: seq<Slot>, nb: int)

  function Empty(): Table { Table(seq(MAX_PROCESS, _ => Fresh), 0) }

  const NOTHING := Effect([], [])

  /** An operation on the table, the removal scanning all of it. */
  function OnTable(t: Table, op: Op): (Table, Effect) {
    match op
    case Add(pid, stack, errFile) => (Table(Added(t.slots, pid, errFile, stack, t.nb), t.nb + 1), NOTHING)
    case Remove(pid) =>
      match Scan(t.slots, pid, MAX_PROCESS)
      case Found(k) => (Table(Released(t.slots, k), t.nb - 1), ReleaseEffect(t.slots[k]))
      case _ => (t.(nb := t.nb - 1), NOTHING)
  }

  /** The same operation on the map. */
  function OnTracker(m: Tracker, op: Op): (Tracker, Effect) {
    match op
    case Add(pid, stack, errFile) => (m[pid := Entry(stack, errFile)], NOTHING)
    case Remove(pid) =>
      (m - {pid},
       if pid in m then Effect([m[pid].stack], if m[pid].errFile != STDOUT_FILENO then [m[pid].errFile] else [])
       else NOTHING)
  }

  /** What the kernel guarantees of the calls: no pid is added while it is tracked, at most 256 are
      tracked at once, and only tracked children are removed. */
  predicate Allowed(m: Tracker, op: Op) {
    match op
    case Add(pid, _, _) => pid !in m && |m| < MAX_PROCESS
    case Remove(pid) => pid in m
  }

  ghost predicate Held(slots: seq<Slot>, pid: int) {
    exists i :: 0 <= i < |slots| && slots[i].Occupied() && slots[i].Bears(pid)
  }

  /** The occupied records are the entries of the map. */
  ghost predicate HoldsEntries(slots: seq<Slot>, m: Tracker) {
    && (forall i :: 0 <= i < |slots| && slots[i].Occupied() ==>
          slots[i].childId in m && m[slots[i].childId] == Entry(slots[i].stack.value, slots[i].errFile))
    && forall pid {:trigger Held(slots, pid)} :: pid in m ==> Held(slots, pid)
  }

  /** No record below an occupied one bears its pid. */
  ghost predicate Unshadowed(slots: seq<Slot>) {
    forall j, i :: 0 <= j < i < |slots| && slots[i].Occupied() ==> !slots[j].Bears(slots[i].childId)
  }

  ghost predicate Represents(t: Table, m: Tracker) {
    && |t.slots| == MAX_PROCESS && t.nb == |m| == |OccupiedSet(t.slots)|
    && WrittenPrefix(t.slots)
    && HoldsEntries(t.slots, m)
    && Unshadowed(t.slots)
  }

  lemma AddKeepsEntries(slots: seq<Slot>, m: Tracker, k: nat, pid: int, e: Entry)
    requires HoldsEntries(slots, m) && Unshadowed(slots) && pid !in m
    requires k < |slots| && !slots[k].Occupied() && forall j :: 0 <= j < k ==> slots[j].Occupied()
    ensures HoldsEntries(slots[k := Used(Some(e.stack), pid, e.errFile)], m[pid := e])
    ensures Unshadowed(slots[k := Used(Some(e.stack), pid, e.errFile)])
  {
    var slots' := slots[k := Used(Some(e.stack), pid, e.errFile)];
    var m' := m[pid := e];
    forall p | p in m'
      ensures Held(slots', p)
    {
      if p in m {
        assert Held(slots, p);
        var i :| 0 <= i < |slots| && slots[i].Occupied() && slots[i].Bears(p);
        assert slots'[i].Bears(p);
      } else {
        assert slots'[k].Bears(p);
      }
    }
  }

  lemma PlacementExists(slots: seq<Slot>, nb: int)
    requires |slots| == MAX_PROCESS && nb < MAX_PROCESS && |OccupiedSet(slots)| < MAX_PROCESS
    ensures Placement(slots, nb).Some?
  {
    if Placement(slots, nb).None? {
      SubsetSize(Below(MAX_PROCESS), OccupiedSet(slots));
    }
  }

  lemma AddRefines(t: Table, m: Tracker, pid: int, e: Entry)
    requires Represents(t, m) && pid !in m && |m| < MAX_PROCESS
    ensures Represents(Table(Added(t.slots, pid, e.errFile, e.stack, t.nb), t.nb + 1), m[pid := e])
  {
    PlacementExists(t.slots, t.nb);
    var k := Placement(t.slots, t.nb).value;
    var r := Used(Some(e.stack), pid, e.errFile);
    assert OccupiedSet(t.slots[k := r]) == OccupiedSet(t.slots) + {k};
    AddKeepsPrefix(t.slots, k, r);
    AddKeepsEntries(t.slots, m, k, pid, e);
  }

  /** Occupied records bear different pids. */
  lemma OthersBearOtherPids(slots: seq<Slot>, k: nat, i: nat)
    requires Unshadowed(slots) && k < |slots| && i < |slots| && i != k
    requires slots[k].Occupied() && slots[i].Occupied()
    ensures slots[i].childId != slots[k].childId
  {
    assert i < k ==> !slots[i].Bears(slots[k].childId);
    assert k < i ==> !slots[k].Bears(slots[i].childId);
  }

  lemma ReleaseKeepsEntries(slots: seq<Slot>, m: Tracker, m': Tracker, k: nat)
    requires HoldsEntries(slots, m) && Unshadowed(slots)
    requires k < |slots| && slots[k].Occupied() && m' == m - {slots[k].childId}
    ensures HoldsEntries(Released(slots, k), m')
  {
    var slots' := Released(slots, k);
    forall p | p in m'
      ensures Held(slots', p)
    {
      assert Held(slots, p);
      var i :| 0 <= i < |slots| && slots[i].Occupied() && slots[i].Bears(p);
      assert slots'[i].Bears(p);
    }
    forall i | 0 <= i < |slots'| && slots'[i].Occupied()
      ensures slots'[i].childId in m' && m'[slots'[i].childId] == Entry(slots'[i].stack.value, slots'[i].errFile)
    {
      OthersBearOtherPids(slots, k, i);
    }
  }

  lemma ReleaseKeepsUnshadowed(slots: seq<Slot>, k: nat)
    requires Unshadowed(slots) && k < |slots| && slots[k].Used?
    ensures Unshadowed(Released(slots, k))
  {
    var slots' := Released(slots, k);
    forall j, i | 0 <= j < i < |slots'| && slots'[i].Occupied()
      ensures !slots'[j].Bears(slots'[i].childId)
    {
      assert !slots[j].Bears(slots[i].childId);
    }
  }

  /** With the scan bound 256 the record holding a pid is the one that is found. */
  lemma HolderFound(slots: seq<Slot>, pid: int)
    requires |slots| == MAX_PROCESS && WrittenPrefix(slots) && Unshadowed(slots) && Held(slots, pid)
    ensures var r := Scan(slots, pid, MAX_PROCESS);
            r.Found? && slots[r.index].Occupied() && slots[r.index].Bears(pid)
  {
    var k :| 0 <= k < |slots| && slots[k].Occupied() && slots[k].Bears(pid);
    assert forall j :: 0 <= j < k ==> !slots[j].Bears(slots[k].childId);
    ScanFindsLowest(slots, pid, MAX_PROCESS, k);
  }

  lemma RemoveRefines(t: Table, m: Tracker, m': Tracker, pid: int)
    requires Represents(t, m) && pid in m && m' == m - {pid}
    ensures Scan(t.slots, pid, MAX_PROCESS).Found?
    ensures var k := Scan(t.slots, pid, MAX_PROCESS).index;
            && Represents(Table(Released(t.slots, k), t.nb - 1), m')
            && t.slots[k].Occupied() && m[pid] == Entry(t.slots[k].stack.value, t.slots[k].errFile)
  {
    assert Held(t.slots, pid);
    HolderFound(t.slots, pid);
    var k := Scan(t.slots, pid, MAX_PROCESS).index;
    assert OccupiedSet(Released(t.slots, k)) == OccupiedSet(t.slots) - {k};
    assert m'.Keys == m.Keys - {pid};
    ReleaseKeepsEntries(t.slots, m, m', k);
    ReleaseKeepsUnshadowed(t.slots, k);
  }

  function RunTable(t: Table, ops: seq<Op>): (Table, seq<Effect>)
    decreases |ops|
  {
    if ops == [] then (t, [])
    else
      var rest := RunTable(OnTable(t, ops[0]).0, ops[1..]);
      (rest.0, [OnTable(t, ops[0]).1] + rest.1)
  }

  function RunTracker(m: Tracker, ops: seq<Op>): (Tracker, seq<Effect>)
    decreases |ops|
  {
    if ops == [] then (m, [])
    else
      var rest := RunTracker(OnTracker(m, ops[0]).0, ops[1..]);
      (rest.0, [OnTracker(m, ops[0]).1] + rest.1)
  }

  predicate AllAllowed(m: Tracker, ops: seq<Op>)
    decreases |ops|
  {
    ops == [] || (Allowed(m, ops[0]) && AllAllowed(OnTracker(m, ops[0]).0, ops[1..]))
  }

  lemma {:induction false} RunRefines(t: Table, m: Tracker, ops: seq<Op>)
    requires Represents(t, m) && AllAllowed(m, ops)
    ensures Represents(RunTable(t, ops).0, RunTracker(m, ops).0)
    ensures RunTable(t, ops).1 == RunTracker(m, ops).1
    decreases |ops|
  {
    if ops != [] {
      match ops[0] {
        case Add(pid, stack, errFile) => AddRefines(t, m, pid, Entry(stack, errFile));
        case Remove(pid) => RemoveRefines(t, m, m - {pid}, pid);
      }
      RunRefines(OnTable(t, ops[0]).0, OnTracker(m, ops[0]).0, ops[1..]);
    }
  }

  /** With the scan bound 256, over every allowed sequence of operations, the table holds exactly the
      map, and gives back exactly the stacks and descriptors that the map does. */
  lemma TableImplementsMap(ops: seq<Op>)
    requires AllAllowed(map[], ops)
    ensures Represents(RunTable(Empty(), ops).0, RunTracker(map[], ops).0)
    ensures RunTable(Empty(), ops).1 == RunTracker(map[], ops).1
  {
    assert OccupiedSet(Empty().slots) == {};
    RunRefines(Empty(), map[], ops);
  }

  // ----- what the map is -----

  /** Operation `j` is the last of the sequence that concerns the pid. */
  ghost predicate LastAbout(ops: seq<Op>, pid: int, j: int) {
    0 <= j < |ops| && ops[j].pid == pid && forall k :: j < k < |ops| ==> ops[k].pid != pid
  }

  lemma {:induction false} TrackerLast(m: Tracker, ops: seq<Op>, op: Op)
    ensures RunTracker(m, ops + [op]).0 == OnTracker(RunTracker(m, ops).0, op).0
    ensures RunTracker(m, ops + [op]).1 == RunTracker(m, ops).1 + [OnTracker(RunTracker(m, ops).0, op).1]
    decreases |ops|
  {
    if ops == [] {
      assert (ops + [op])[1..] == [];
    } else {
      TrackerLast(OnTracker(m, ops[0]).0, ops[1..], op);
      assert (ops + [op])[1..] == ops[1..] + [op];
    }
  }

  /** After any operations a pid is in the map exactly when the last operation about it added it, and then
      with what that operation added. */
  lemma {:induction false} TrackerIsLastAdd(ops: seq<Op>, pid: int)
    ensures pid in RunTracker(map[], ops).0 <==> exists j :: LastAbout(ops, pid, j) && ops[j].Add?
    ensures forall j :: LastAbout(ops, pid, j) && ops[j].Add? ==>
              pid in RunTracker(map[], ops).0 && RunTracker(map[], ops).0[pid] == Entry(ops[j].stack, ops[j].errFile)
    decreases |ops|
  {
    if ops != [] {
      var n := |ops| - 1;
      var front, op := ops[..n], ops[n];
      assert ops == front + [op];
      TrackerIsLastAdd(front, pid);
      TrackerLast(map[], front, op);
      if op.pid == pid {
        assert LastAbout(ops, pid, n);
        assert forall j :: LastAbout(ops, pid, j) ==> j == n;
      } else {
        assert forall j :: LastAbout(ops, pid, j) <==> LastAbout(front, pid, j);
      }
    }
  }

  /** The last operation of any sequence gives back nothing if it adds; if it removes a pid, the stack and the
      descriptor that the last operation about the pid added, if it was an addition. */
  lemma TrackerGivesBack(ops: seq<Op>, op: Op, j: int)
    ensures |RunTracker(map[], ops + [op]).1| == |RunTracker(map[], ops).1| + 1
    ensures var e := RunTracker(map[], ops + [op]).1[|RunTracker(map[], ops).1|];
            && (op.Add? ==> e.freed == [] && e.closed == [])
            && (op.Remove? && LastAbout(ops, op.pid, j) && ops[j].Add? ==>
                  e.freed == [ops[j].stack] && e.closed == if ops[j].errFile == 1 then [] else [ops[j].errFile])
  {
    TrackerLast(map[], ops, op);
    TrackerIsLastAdd(ops, op.pid);
  }

  // ----- the bound actually passed -----

  /** At any point of any run, reaping a tracked child releases its own record `k` exactly when `k` is
      below the counter and no lower record bears the pid.  Otherwise its record leaks; and then either
      nothing is found, or the lowest record bearing the pid is, which never holds a live child's
      stack; within the limit it is one that an earlier child leaked. */
  lemma OwnRecordReleasedIff(ss: seq<State>, ls: seq<Label>, i: nat, c: nat, k: nat)
    requires Run(ss, ls) && i < |ss|
    requires c < |ss[i].children| && ss[i].children[c].Live() && ss[i].children[c].slot == Some(k)
    ensures var slots, pid, nb := ss[i].slots, ss[i].children[c].pid, ss[i].nb;
            && k < |slots| && slots[k].Occupied()
            && (Scan(slots, pid, nb) == Found(k) <==> k < nb && forall j :: 0 <= j < k ==> !slots[j].Bears(pid))
            && (Scan(slots, pid, nb) == NotFound <==> forall j :: 0 <= j <= k && slots[j].Bears(pid) ==> nb <= j)
            && (Scan(slots, pid, nb).Found? && Scan(slots, pid, nb).index != k ==>
                  && Scan(slots, pid, nb).index < k
                  && var r := slots[Scan(slots, pid, nb).index];
                     && (WithinLimit(ss) ==> r.Occupied())
                     && forall d :: 0 <= d < |ss[i].children| && ss[i].children[d].Live() ==>
                          r.stack != Some(ss[i].children[d].stack))
  {
    var s := ss[i];
    var slots, pid, nb := s.slots, s.children[c].pid, s.nb;
    RunIntact(ss, ls, i);
    assert Tracked(slots, s.children[c]);
    ScanFindsLowest(slots, pid, nb, k);
    ScanDefinedExactly(s, pid);
    var r := Scan(slots, pid, nb);
    if r.Found? && r.index != k {
      if WithinLimit(ss) {
        RunSafe(ss, ls, i);
        FirstMatchOccupied(slots, s.children, c, nb, r.index);
      }
      assert !(k < r.index);
      forall d | 0 <= d < |s.children| && s.children[d].Live()
        ensures slots[r.index].stack != Some(s.children[d].stack)
      {
        assert Tracked(slots, s.children[d]);
        assert OwnStack(slots[r.index], r.index, s.children[d]);
      }
    }
  }
}
