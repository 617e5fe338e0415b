/** The child table of the C daemon (`c/daemon-features/process_manager.c`): a fixed
    array of records, filled first-fit and searched by pid. */
module ProcessManager {
  import opened Options

  const MAX_PROCESS: nat := 256
  const STDOUT_FILENO: int := 1

  /** One `process_info` record.  `Fresh` is a record just allocated: its stack pointer is
      NULL and its other two fields have never been written.  `Used` has been written at
      least once; its stack pointer is `None` (NULL) once the record has been released,
      but the pid and the descriptor stay. */
  datatype Slot = Fresh | Used(stack: Option<nat>, childId: int, errFile: int) {
    predicate Occupied() { Used? && stack.Some? }

    predicate Bears(pid: int) { Used? && childId == pid }
  }

  // ----- looking a pid up -----

  /** What the search loop does: stop at a record, run to the bound, or perform a read that C
      does not define (a record outside the table, or a pid that was never written). */
  datatype Lookup = Found(index: nat) | NotFound | Undefined

  /** From record `i` on, the loop gets to `k` without a match and finds nothing written there. */
  predicate UndefinedAt(slots: seq<Slot>, pid: int, size: int, i: nat, k: nat) {
    && i <= k < size && k <= |slots| && (k < |slots| ==> slots[k].Fresh?)
    && forall j :: i <= j < k ==> slots[j].Used? && !slots[j].Bears(pid)
  }

  /** The search loop of `manager_remove_process` and `search_process`, from index `i`. */
  function Scan(slots: seq<Slot>, pid: int, size: int, i: nat := 0): (r: Lookup)
    ensures r.Found? ==> i <= r.index < size && r.index < |slots| && slots[r.index].Bears(pid)
    ensures r.Found? ==> forall j :: i <= j < r.index ==> slots[j].Used? && !slots[j].Bears(pid)
    ensures r.NotFound? && i < size ==> size <= |slots|
    ensures r.NotFound? ==> forall j :: i <= j < size ==> slots[j].Used? && !slots[j].Bears(pid)
    ensures r.Undefined? && i <= |slots| ==> exists k :: UndefinedAt(slots, pid, size, i, k)
    decreases size - i
  {
    if i >= size then NotFound
    else if i >= |slots| || slots[i].Fresh? then
      assert i <= |slots| ==> UndefinedAt(slots, pid, size, i, i);
      Undefined
    else if slots[i].childId == pid then Found(i)
    else
      var r := Scan(slots, pid, size, i + 1);
      assert r.Undefined? ==> exists k :: UndefinedAt(slots, pid, size, i, k) by {
        if r.Undefined? {
          var k :| UndefinedAt(slots, pid, size, i + 1, k);
          assert UndefinedAt(slots, pid, size, i, k);
        }
      }
      r
  }

  /** The scan finds `k` exactly when `k` is below the bound and is the lowest record bearing the
      pid, all records before it having been written. */
  lemma ScanFindsLowest(slots: seq<Slot>, pid: int, size: int, k: nat)
    ensures Scan(slots, pid, size) == Found(k) <==>
            && k < size && k < |slots| && slots[k].Bears(pid)
            && forall j :: 0 <= j < k ==> slots[j].Used? && !slots[j].Bears(pid)
  {
    var r := Scan(slots, pid, size);
    if k < size && k < |slots| && slots[k].Bears(pid) && forall j :: 0 <= j < k ==> slots[j].Used? && !slots[j].Bears(pid) {
      if r.Found? {
        assert !(r.index < k) && !(k < r.index);
      }
    }
  }

  // ----- adding and removing -----

  /** The lowest record without a stack; the length of the table when there is none. */
  function FirstFree(slots: seq<Slot>, i: nat := 0): (k: nat)
    requires i <= |slots|
    ensures i <= k <= |slots|
    ensures forall j :: i <= j < k ==> slots[j].Occupied()
    ensures k < |slots| ==> !slots[k].Occupied()
    decreases |slots| - i
  {
    if i == |slots| || !slots[i].Occupied() then i else FirstFree(slots, i + 1)
  }

  /** The record a new child gets: none when the counter is at the limit or the table is full. */
  function Placement(slots: seq<Slot>, nbProcess: int): (k: Option<nat>)
    ensures k.Some? ==> k.value < |slots| && !slots[k.value].Occupied()
                        && forall j :: 0 <= j < k.value ==> slots[j].Occupied()
    ensures k.None? && nbProcess < MAX_PROCESS ==> forall j :: 0 <= j < |slots| ==> slots[j].Occupied()
  {
    if nbProcess < MAX_PROCESS && FirstFree(slots) < |slots| then Some(FirstFree(slots)) else None
  }

  /** The table after `manager_add_process`. */
  function Added(slots: seq<Slot>, pid: int, errFile: int, stack: nat, nbProcess: int): (r: seq<Slot>)
    ensures |r| == |slots|
  {
    match Placement(slots, nbProcess)
    case None => slots
    case Some(k) => slots[k := Used(Some(stack), pid, errFile)]
  }

  /** The table after record `k` has been released: the stack pointer is cleared, nothing else. */
  function Released(slots: seq<Slot>, k: nat): (r: seq<Slot>)
    requires k < |slots| && slots[k].Used?
    ensures |r| == |slots|
  {
    slots[k := slots[k].(stack := None)]
  }

  /** What a call hands back to the allocator and to the kernel. */
  datatype Effect = Effect(freed: seq<nat>, closed: seq<int>)

  /** The stack and the descriptor that releasing record `r` gives up; standard output is spared. */
  function ReleaseEffect(r: Slot): Effect
    requires r.Used?
  {
    Effect(if r.stack.Some? then [r.stack.value] else [],
           if r.errFile != STDOUT_FILENO then [r.errFile] else [])
  }

  /** What `free_manager` gives up for the first `n` records; standard output is not spared. */
  function ShutdownEffect(slots: seq<Slot>, n: nat): (e: Effect)
    requires n <= |slots|
    ensures |e.freed| == |e.closed|
    ensures forall x :: x in e.freed ==> exists i :: 0 <= i < n && slots[i].Occupied() && slots[i].stack.value == x
    ensures forall x :: x in e.closed ==> exists i :: 0 <= i < n && slots[i].Occupied() && slots[i].errFile == x
  {
    if n == 0 then Effect([], [])
    else
      var e := ShutdownEffect(slots, n - 1);
      if slots[n - 1].Occupied()
      then Effect(e.freed + [slots[n - 1].stack.value], e.closed + [slots[n - 1].errFile])
      else e
  }

  /** Adding takes the first free record and leaves the others alone. */
  lemma AddTakesFirstFree(slots: seq<Slot>, pid: int, errFile: int, stack: nat, nbProcess: int, k: nat)
    requires nbProcess < 256 && k < |slots| && !slots[k].Occupied() && forall j :: 0 <= j < k ==> slots[j].Occupied()
    ensures Added(slots, pid, errFile, stack, nbProcess) == slots[k := Used(Some(stack), pid, errFile)]
  {
    var p := Placement(slots, nbProcess);
    assert p.Some? && !(p.value < k) && !(k < p.value);
  }

  /** At the limit, or with no free record, adding does nothing. */
  lemma AddWithoutRoom(slots: seq<Slot>, pid: int, errFile: int, stack: nat, nbProcess: int)
    requires nbProcess >= 256 || forall j :: 0 <= j < |slots| ==> slots[j].Occupied()
    ensures Added(slots, pid, errFile, stack, nbProcess) == slots
  {
  }

  /** Releasing clears one stack pointer, frees that stack if there was one, and closes that record's
      descriptor unless it is standard output. */
  lemma ReleaseDoes(slots: seq<Slot>, k: nat)
    requires k < |slots| && slots[k].Used?
    ensures Released(slots, k) == slots[k := Used(None, slots[k].childId, slots[k].errFile)]
    ensures match slots[k].stack
            case Some(x) => ReleaseEffect(slots[k]).freed == [x]
            case None => ReleaseEffect(slots[k]).freed == []
    ensures ReleaseEffect(slots[k]).closed == if slots[k].errFile == 1 then [] else [slots[k].errFile]
  {
  }

  class Manager {
    const records: array<Slot>

    /** `create_process_manager`, every allocation succeeding. */
    constructor (size: nat)
      ensures fresh(records) && records.Length == size
      ensures forall i :: 0 <= i < size ==> records[i] == Fresh
    {
      var a := new Slot[size];
      for i := 0 to size
        invariant forall j :: 0 <= j < i ==> a[j] == Fresh
      {
        a[i] := Fresh;
      }
      records := a;
    }

    /** `search_process`: the lowest record bearing the pid, or -1. */
    method Search(pid: int, size: int) returns (r: int)
      requires Scan(records[..], pid, size) != Undefined
      ensures -1 <= r < records.Length
      ensures r >= 0 ==> Scan(records[..], pid, size) == Found(r)
      ensures r == -1 ==> Scan(records[..], pid, size) == NotFound
    {
      var i := 0;
      while i < size
        invariant 0 <= i
        invariant forall j :: 0 <= j < i && j < size ==> j < records.Length && records[j].Used? && !records[j].Bears(pid)
        invariant Scan(records[..], pid, size) == Scan(records[..], pid, size, i)
        decreases size - i
      {
        if records[i].childId == pid {
          return i;
        }
        i := i + 1;
      }
      return -1;
    }

    /** `manager_remove_process`.  The record keeps its pid and its descriptor, and nothing tests
        whether it was still occupied. */
    method Remove(pid: int, size: int) returns (r: int, effect: Effect)
      requires Scan(records[..], pid, size) != Undefined
      modifies records
      ensures match Scan(old(records[..]), pid, size)
              case Found(k) =>
                && r == 0
                && records[..] == Released(old(records[..]), k)
                && effect == ReleaseEffect(old(records[k]))
              case _ =>
                r == -1 && records[..] == old(records[..]) && effect == Effect([], [])
    {
      var i := 0;
      effect := Effect([], []);
      while i < size
        invariant 0 <= i
        invariant records[..] == old(records[..]) && effect == Effect([], [])
        invariant Scan(records[..], pid, size) == Scan(records[..], pid, size, i)
        decreases size - i
      {
        if records[i].childId == pid {
          if records[i].stack.Some? {
            effect := effect.(freed := [records[i].stack.value]);
          }
          records[i] := records[i].(stack := None);
          if records[i].errFile != STDOUT_FILENO {
            effect := effect.(closed := [records[i].errFile]);
          }
          return 0, effect;
        }
        i := i + 1;
      }
      r := -1;
    }

    /** `manager_add_process`.  The result is never 0, so the caller's test always succeeds. */
    method Add(pid: int, errFile: int, stack: nat, nbProcess: int) returns (r: int)
      requires records.Length == MAX_PROCESS
      modifies records
      ensures records[..] == Added(old(records[..]), pid, errFile, stack, nbProcess)
      ensures r == if Placement(old(records[..]), nbProcess).Some? then 1 else -1
    {
      if nbProcess < MAX_PROCESS {
        for j := 0 to MAX_PROCESS
          invariant records[..] == old(records[..])
          invariant forall i :: 0 <= i < j ==> records[i].Occupied()
        {
          if !records[j].Occupied() {
            assert FirstFree(records[..]) == j;
            records[j] := Used(Some(stack), pid, errFile);
            return 1;
          }
        }
        assert FirstFree(records[..]) == MAX_PROCESS;
        return -1;
      } else {
        return -1;
      }
    }

    /** `free_manager`: the stack and the descriptor of every occupied record below `size`, in order.
        (The records and the table themselves are freed too; the daemon then ends.) */
    method FreeManager(size: nat) returns (effect: Effect)
      requires size <= records.Length
      ensures effect == ShutdownEffect(records[..], size)
    {
      effect := Effect([], []);
      for i := 0 to size
        invariant effect == ShutdownEffect(records[..], i)
      {
        if records[i].Occupied() {
          effect := Effect(effect.freed + [records[i].stack.value], effect.closed + [records[i].errFile]);
        }
      }
    }
  }
}
