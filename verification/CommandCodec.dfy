/** The command message at the level of tables, vectors and unions: the C++ writer and reader
    (`c/daemon-features/serialize.cpp`) and the Python writer (`tests_python/serialization.py`). */
module CommandCodec {
  import opened Machine

  // ----- buffers -----

  /** A place in a buffer; 0 is the null offset, `n + 1` is node `n`. */
  type Offset = nat

  datatype Field = Scalar(value: int) | Ref(target: Offset)

  /** A table maps the slots that were written; a slot that holds its default is not written. */
  type Fields = map<nat, Field>

  datatype Node = Str(text: string) | Vec(elems: seq<Offset>) | Table(fields: Fields)

  type Arena = seq<Node>

  predicate Points(a: Arena, off: Offset) { 0 < off <= |a| }

  predicate IsStr(a: Arena, off: Offset) { Points(a, off) && a[off - 1].Str? }

  predicate IsVec(a: Arena, off: Offset) { Points(a, off) && a[off - 1].Vec? }

  predicate IsTable(a: Arena, off: Offset) { Points(a, off) && a[off - 1].Table? }

  /** Reading a slot: its default when it was not written. */
  function GetScalar(t: Fields, slot: nat): int {
    if slot in t && t[slot].Scalar? then t[slot].value else 0
  }

  // the slots of each table, and the tags of the unions
  const MESSAGE_TYPE: nat := 0
  const MESSAGE_EVENT: nat := 1
  const RUN_PATH: nat := 0
  const RUN_ARGS: nat := 1
  const RUN_ENVP: nat := 2
  const RUN_FLAGS: nat := 3
  const RUN_STACK: nat := 4
  const RUN_WATCH: nat := 5
  const SURVEILLANCE_TYPE: nat := 0
  const SURVEILLANCE_EVENT: nat := 1
  const INOTIFY_PATHS: nat := 0
  const INOTIFY_MASK: nat := 1
  const INOTIFY_SIZE: nat := 2
  const SOCKET_PORT: nat := 0
  const KILL_PID: nat := 0

  const EVENT_RUN_COMMAND: int := 1
  const EVENT_KILL_PROCESS: int := 2
  const KIND_INOTIFY: int := 1
  const KIND_SOCKET: int := 2

  // ----- commands -----

  datatype Watch =
    | InotifyWatch(paths: string, mask: int, size: int)
    | SocketWatch(port: int)
    | UnknownWatch

  datatype Command = Command(
    path: string, args: seq<string>, envp: seq<string>, flags: int, stackSize: int, toWatch: seq<Watch>)

  function CStrings(ss: seq<string>): (r: seq<string>)
    ensures |r| == |ss| && forall i :: 0 <= i < |ss| ==> r[i] == CString('\0', ss[i])
  {
    seq(|ss|, i requires 0 <= i < |ss| => CString('\0', ss[i]))
  }

  function CutWatch(w: Watch): Watch {
    if w.InotifyWatch? then w.(paths := CString('\0', w.paths)) else w
  }

  function CutWatches(ws: seq<Watch>): (r: seq<Watch>)
    ensures |r| == |ws| && forall i :: 0 <= i < |ws| ==> r[i] == CutWatch(ws[i])
  {
    seq(|ws|, i requires 0 <= i < |ws| => CutWatch(ws[i]))
  }

  /** The command with every string cut at its first NUL. */
  function Cut(c: Command): Command {
    Command(CString('\0', c.path), CStrings(c.args), CStrings(c.envp), c.flags, c.stackSize, CutWatches(c.toWatch))
  }

  /** The watches of a kind the protocol knows, in order. */
  function Known(ws: seq<Watch>): seq<Watch> {
    if ws == [] then []
    else Known(ws[..|ws| - 1]) + if ws[|ws| - 1].UnknownWatch? then [] else [ws[|ws| - 1]]
  }

  lemma KnownStep(ws: seq<Watch>, i: nat)
    requires i < |ws|
    ensures Known(ws[..i + 1]) == if ws[i].UnknownWatch? then Known(ws[..i]) else Known(ws[..i]) + [ws[i]]
  {
    assert ws[..i + 1][..i] == ws[..i];
  }

  predicate NulFree(c: Command) {
    && '\0' !in c.path
    && (forall i :: 0 <= i < |c.args| ==> '\0' !in c.args[i])
    && (forall i :: 0 <= i < |c.envp| ==> '\0' !in c.envp[i])
    && (forall i :: 0 <= i < |c.toWatch| ==> c.toWatch[i].InotifyWatch? ==> '\0' !in c.toWatch[i].paths)
  }

  lemma CutNulFree(c: Command)
    requires NulFree(c)
    ensures Cut(c) == c
  {
    assert CStrings(c.args) == c.args && CStrings(c.envp) == c.envp && CutWatches(c.toWatch) == c.toWatch;
  }

  // ----- what a buffer says -----

  /** The slot holds `v`, and is left out exactly when `v` is the default. */
  predicate HoldsScalar(t: Fields, slot: nat, v: int) {
    if v == 0 then slot !in t else slot in t && t[slot] == Scalar(v)
  }

  predicate StrIs(a: Arena, off: Offset, s: string) { IsStr(a, off) && a[off - 1].text == s }

  predicate StrsAre(a: Arena, offs: seq<Offset>, ss: seq<string>) {
    |offs| == |ss| && forall i :: 0 <= i < |ss| ==> StrIs(a, offs[i], ss[i])
  }

  predicate VecOfStrs(a: Arena, off: Offset, ss: seq<string>) {
    IsVec(a, off) && StrsAre(a, a[off - 1].elems, ss)
  }

  predicate SlotStr(a: Arena, t: Fields, slot: nat, s: string) {
    slot in t && t[slot].Ref? && StrIs(a, t[slot].target, s)
  }

  /** The table of a watch's event. */
  predicate EventIs(a: Arena, off: Offset, w: Watch) {
    && IsTable(a, off)
    && var t := a[off - 1].fields;
       match w
       case InotifyWatch(paths, mask, size) =>
         SlotStr(a, t, INOTIFY_PATHS, paths) && HoldsScalar(t, INOTIFY_MASK, mask) && HoldsScalar(t, INOTIFY_SIZE, size)
       case SocketWatch(port) => HoldsScalar(t, SOCKET_PORT, port)
       case UnknownWatch => false
  }

  function KindOf(w: Watch): int {
    match w
    case InotifyWatch(_, _, _) => KIND_INOTIFY
    case SocketWatch(_) => KIND_SOCKET
    case UnknownWatch => 0
  }

  predicate WatchIs(a: Arena, off: Offset, w: Watch) {
    && IsTable(a, off)
    && var t := a[off - 1].fields;
       && HoldsScalar(t, SURVEILLANCE_TYPE, KindOf(w))
       && SURVEILLANCE_EVENT in t && t[SURVEILLANCE_EVENT].Ref? && EventIs(a, t[SURVEILLANCE_EVENT].target, w)
  }

  predicate WatchesAre(a: Arena, offs: seq<Offset>, ws: seq<Watch>) {
    |offs| == |ws| && forall i :: 0 <= i < |ws| ==> WatchIs(a, offs[i], ws[i])
  }

  predicate VecOfWatches(a: Arena, off: Offset, ws: seq<Watch>) {
    IsVec(a, off) && WatchesAre(a, a[off - 1].elems, ws)
  }

  predicate RunIs(a: Arena, off: Offset, c: Command) {
    && IsTable(a, off)
    && var t := a[off - 1].fields;
       && SlotStr(a, t, RUN_PATH, c.path)
       && RUN_ARGS in t && t[RUN_ARGS].Ref? && VecOfStrs(a, t[RUN_ARGS].target, c.args)
       && RUN_ENVP in t && t[RUN_ENVP].Ref? && VecOfStrs(a, t[RUN_ENVP].target, c.envp)
       && HoldsScalar(t, RUN_FLAGS, c.flags) && HoldsScalar(t, RUN_STACK, c.stackSize)
       && RUN_WATCH in t && t[RUN_WATCH].Ref? && VecOfWatches(a, t[RUN_WATCH].target, c.toWatch)
  }

  /** The buffer is a message whose event is the command `c`. */
  predicate Encodes(a: Arena, root: Offset, c: Command) {
    && IsTable(a, root)
    && var t := a[root - 1].fields;
       && HoldsScalar(t, MESSAGE_TYPE, EVENT_RUN_COMMAND)
       && MESSAGE_EVENT in t && t[MESSAGE_EVENT].Ref? && RunIs(a, t[MESSAGE_EVENT].target, c)
  }

  /** The buffer is a message whose event asks to kill `pid`. */
  predicate EncodesKill(a: Arena, root: Offset, pid: int) {
    && IsTable(a, root)
    && var t := a[root - 1].fields;
       && HoldsScalar(t, MESSAGE_TYPE, EVENT_KILL_PROCESS)
       && MESSAGE_EVENT in t && t[MESSAGE_EVENT].Ref? && IsTable(a, t[MESSAGE_EVENT].target)
       && HoldsScalar(a[t[MESSAGE_EVENT].target - 1].fields, KILL_PID, pid)
  }

  // what a buffer says stays true when nodes are added
  lemma StrsGrow(a: Arena, b: Arena, offs: seq<Offset>, ss: seq<string>)
    requires a <= b && StrsAre(a, offs, ss)
    ensures StrsAre(b, offs, ss)
  {
    forall i | 0 <= i < |ss|
      ensures StrIs(b, offs[i], ss[i])
    {
      assert StrIs(a, offs[i], ss[i]);
    }
  }

  lemma WatchesGrow(a: Arena, b: Arena, offs: seq<Offset>, ws: seq<Watch>)
    requires a <= b && WatchesAre(a, offs, ws)
    ensures WatchesAre(b, offs, ws)
  {
    forall i | 0 <= i < |ws|
      ensures WatchIs(b, offs[i], ws[i])
    {
      assert WatchIs(a, offs[i], ws[i]);
    }
  }

  /** One more watch of a list has been written, unless its kind is unknown. */
  lemma OneMoreWatch(a: Arena, b: Arena, offs: seq<Offset>, ws: seq<Watch>, i: nat, off: Offset)
    requires a <= b && i < |ws|
    requires if ws[i].UnknownWatch? then WatchesAre(a, offs, Known(ws[..i]))
             else |offs| > 0 && offs[|offs| - 1] == off
                  && WatchesAre(a, offs[..|offs| - 1], Known(ws[..i])) && WatchIs(b, off, ws[i])
    ensures WatchesAre(b, offs, Known(ws[..i + 1]))
  {
    KnownStep(ws, i);
    if ws[i].UnknownWatch? {
      WatchesGrow(a, b, offs, Known(ws[..i]));
    } else {
      WatchesGrow(a, b, offs[..|offs| - 1], Known(ws[..i]));
      assert offs == offs[..|offs| - 1] + [off];
    }
  }

  lemma PartsGrow(a: Arena, b: Arena, path: Offset, args: Offset, envp: Offset, watch: Offset, c: Command)
    requires a <= b
    requires StrIs(a, path, c.path) && VecOfStrs(a, args, c.args) && VecOfStrs(a, envp, c.envp)
    requires VecOfWatches(a, watch, c.toWatch)
    ensures StrIs(b, path, c.path) && VecOfStrs(b, args, c.args) && VecOfStrs(b, envp, c.envp)
    ensures VecOfWatches(b, watch, c.toWatch)
  {
    StrsGrow(a, b, a[args - 1].elems, c.args);
    StrsGrow(a, b, a[envp - 1].elems, c.envp);
    WatchesGrow(a, b, a[watch - 1].elems, c.toWatch);
  }

  lemma RunGrows(a: Arena, b: Arena, run: Offset, c: Command)
    requires a <= b && RunIs(a, run, c)
    ensures RunIs(b, run, c)
  {
    var t := a[run - 1].fields;
    PartsGrow(a, b, t[RUN_PATH].target, t[RUN_ARGS].target, t[RUN_ENVP].target, t[RUN_WATCH].target, c);
  }

  // ----- the builder -----

  /** The part of a FlatBufferBuilder that both writers use.  A vector under construction grows at the
      front; a table under construction takes no field that equals its default. */
  class Builder {
    var arena: Arena
    var vector: seq<Offset>
    var fields: Fields
    var root: Offset

    constructor ()
      ensures arena == []
    {
      arena, vector, fields, root := [], [], map[], 0;
    }

    method Append(n: Node) returns (off: Offset)
      modifies `arena
      ensures arena == old(arena) + [n] && off == |arena|
    {
      arena := arena + [n];
      off := |arena|;
    }

    method CreateString(s: string) returns (off: Offset)
      modifies `arena
      ensures arena == old(arena) + [Str(s)] && off == |arena|
    {
      off := Append(Str(s));
    }

    method CreateVector(offs: seq<Offset>) returns (off: Offset)
      modifies `arena
      ensures arena == old(arena) + [Vec(offs)] && off == |arena|
    {
      off := Append(Vec(offs));
    }

    method StartVector()
      modifies `vector
      ensures vector == []
    {
      vector := [];
    }

    method PrependOffset(off: Offset)
      modifies `vector
      ensures vector == [off] + old(vector)
    {
      vector := [off] + vector;
    }

    method EndVector() returns (off: Offset)
      modifies `arena
      ensures arena == old(arena) + [Vec(vector)] && off == |arena|
    {
      off := Append(Vec(vector));
    }

    method StartTable()
      modifies `fields
      ensures fields == map[]
    {
      fields := map[];
    }

    method AddScalar(slot: nat, v: int)
      modifies `fields
      ensures fields == if v == 0 then old(fields) else old(fields)[slot := Scalar(v)]
    {
      if v != 0 { fields := fields[slot := Scalar(v)]; }
    }

    method AddOffset(slot: nat, off: Offset)
      modifies `fields
      ensures fields == if off == 0 then old(fields) else old(fields)[slot := Ref(off)]
    {
      if off != 0 { fields := fields[slot := Ref(off)]; }
    }

    method EndTable() returns (off: Offset)
      modifies `arena
      ensures arena == old(arena) + [Table(fields)] && off == |arena|
    {
      off := Append(Table(fields));
    }

    // ----- the generated constructors -----

    method CreateInotify(paths: Offset, mask: int, size: int) returns (off: Offset)
      modifies `arena, `fields
      ensures |arena| == |old(arena)| + 1 && old(arena) <= arena && off == |arena| && IsTable(arena, off)
      ensures forall s :: StrIs(old(arena), paths, s) ==> EventIs(arena, off, InotifyWatch(s, mask, size))
    {
      StartTable();
      AddScalar(INOTIFY_SIZE, size);
      AddScalar(INOTIFY_MASK, mask);
      AddOffset(INOTIFY_PATHS, paths);
      off := EndTable();
    }

    method CreateTCPSocket(port: int) returns (off: Offset)
      modifies `arena, `fields
      ensures |arena| == |old(arena)| + 1 && old(arena) <= arena && off == |arena|
      ensures EventIs(arena, off, SocketWatch(port))
    {
      StartTable();
      AddScalar(SOCKET_PORT, port);
      off := EndTable();
    }

    method CreateSurveillanceEvent(kind: int, event: Offset) returns (off: Offset)
      modifies `arena, `fields
      ensures |arena| == |old(arena)| + 1 && old(arena) <= arena && off == |arena|
      ensures forall w :: EventIs(old(arena), event, w) && KindOf(w) == kind ==> WatchIs(arena, off, w)
    {
      StartTable();
      AddOffset(SURVEILLANCE_EVENT, event);
      AddScalar(SURVEILLANCE_TYPE, kind);
      off := EndTable();
      forall w | EventIs(old(arena), event, w) && KindOf(w) == kind
        ensures WatchIs(arena, off, w)
      {
        assert EventIs(arena, event, w);
      }
    }

    /** The RunCommand table, from the offsets of its parts.  The two writers store the same six slots in
        different orders. */
    method CreateRunCommand(path: Offset, args: Offset, envp: Offset, flags: int, stackSize: int, watch: Offset, ghost c: Command)
      returns (off: Offset)
      requires StrIs(arena, path, c.path) && VecOfStrs(arena, args, c.args) && VecOfStrs(arena, envp, c.envp)
      requires VecOfWatches(arena, watch, c.toWatch)
      requires c.flags == flags && c.stackSize == stackSize
      modifies `arena, `fields
      ensures RunIs(arena, off, c)
    {
      ghost var before := arena;
      StartTable();
      AddOffset(RUN_WATCH, watch);
      AddScalar(RUN_STACK, stackSize);
      AddScalar(RUN_FLAGS, flags);
      AddOffset(RUN_ENVP, envp);
      AddOffset(RUN_ARGS, args);
      AddOffset(RUN_PATH, path);
      off := EndTable();
      PartsGrow(before, arena, path, args, envp, watch, c);
    }

    /** The Message around a RunCommand. */
    method FinishMessage(run: Offset, ghost c: Command)
      requires RunIs(arena, run, c)
      modifies this
      ensures Encodes(arena, root, c)
    {
      ghost var before := arena;
      StartTable();
      AddOffset(MESSAGE_EVENT, run);
      AddScalar(MESSAGE_TYPE, EVENT_RUN_COMMAND);
      root := EndTable();
      RunGrows(before, arena, run, c);
    }

    // ----- the C++ writer -----

    /** The loops that build the string references: every string is read up to its NUL. */
    method CreateStrings(ss: seq<string>) returns (refs: seq<Offset>)
      modifies `arena
      ensures old(arena) <= arena && StrsAre(arena, refs, CStrings(ss))
    {
      refs := [];
      for i := 0 to |ss|
        invariant old(arena) <= arena && |refs| == i
        invariant forall j :: 0 <= j < i ==> StrIs(arena, refs[j], CString('\0', ss[j]))
      {
        var off := CreateString(CString('\0', ss[i]));
        refs := refs + [off];
      }
    }

    /** The two cases of the loop over the watches: the event table, and the surveillance around it. */
    method CreateInotifyWatch(paths: string, mask: int, size: int) returns (off: Offset)
      modifies `arena, `fields
      ensures old(arena) <= arena && WatchIs(arena, off, InotifyWatch(CString('\0', paths), mask, size))
    {
      var str := CreateString(CString('\0', paths));
      var event := CreateInotify(str, mask, size);
      assert EventIs(arena, event, InotifyWatch(CString('\0', paths), mask, size));
      off := CreateSurveillanceEvent(KIND_INOTIFY, event);
    }

    method CreateSocketWatch(port: int) returns (off: Offset)
      modifies `arena, `fields
      ensures old(arena) <= arena && WatchIs(arena, off, SocketWatch(port))
    {
      var event := CreateTCPSocket(port);
      off := CreateSurveillanceEvent(KIND_SOCKET, event);
    }

    /** The loop over the watches: a kind it does not know is skipped. */
    method CreateSurveillances(ws: seq<Watch>) returns (refs: seq<Offset>)
      modifies `arena, `fields
      ensures old(arena) <= arena && WatchesAre(arena, refs, Known(CutWatches(ws)))
    {
      refs := [];
      assert CutWatches(ws)[..0] == [];
      for i := 0 to |ws|
        invariant old(arena) <= arena
        invariant WatchesAre(arena, refs, Known(CutWatches(ws)[..i]))
      {
        ghost var before := arena;
        var off := 0;
        match ws[i] {
          case InotifyWatch(paths, mask, size) =>
            off := CreateInotifyWatch(paths, mask, size);
            refs := refs + [off];
          case SocketWatch(port) =>
            off := CreateSocketWatch(port);
            refs := refs + [off];
          case UnknownWatch =>
        }
        OneMoreWatch(before, arena, refs, CutWatches(ws), i, off);
      }
      assert CutWatches(ws)[..|ws|] == CutWatches(ws);
    }

    /** `serialize_command`. */
    method SerializeCommand(c: Command)
      modifies this
      ensures Encodes(arena, root, Cut(c).(toWatch := Known(CutWatches(c.toWatch))))
    {
      var argRefs := CreateStrings(c.args);
      ghost var a1 := arena;
      var envRefs := CreateStrings(c.envp);
      ghost var a2 := arena;
      var path := CreateString(CString('\0', c.path));
      var args := CreateVector(argRefs);
      var envp := CreateVector(envRefs);
      var surveillances := CreateSurveillances(c.toWatch);
      ghost var a3 := arena;
      var vector := CreateVector(surveillances);
      StrsGrow(a1, arena, argRefs, CStrings(c.args));
      StrsGrow(a2, arena, envRefs, CStrings(c.envp));
      WatchesGrow(a3, arena, surveillances, Known(CutWatches(c.toWatch)));
      ghost var said := Cut(c).(toWatch := Known(CutWatches(c.toWatch)));
      var run := CreateRunCommand(path, args, envp, c.flags, c.stackSize, vector, said);
      FinishMessage(run, said);
    }

    /** `send_kill_to_demon`. */
    method SendKillToDemon(pid: int)
      modifies this
      ensures EncodesKill(arena, root, pid)
    {
      StartTable();
      AddScalar(KILL_PID, pid);
      var kill := EndTable();
      StartTable();
      AddOffset(MESSAGE_EVENT, kill);
      AddScalar(MESSAGE_TYPE, EVENT_KILL_PROCESS);
      root := EndTable();
    }

    // ----- the Python writer -----

    /** The list comprehensions over strings, which keep a NUL inside a string. */
    method CreateWholeStrings(ss: seq<string>) returns (offs: seq<Offset>)
      modifies `arena
      ensures old(arena) <= arena && StrsAre(arena, offs, ss)
    {
      offs := [];
      for i := 0 to |ss|
        invariant old(arena) <= arena && |offs| == i
        invariant forall j :: 0 <= j < i ==> StrIs(arena, offs[j], ss[j])
      {
        var off := CreateString(ss[i]);
        offs := offs + [off];
      }
    }

    /** A vector built by prepending its elements from last to first comes out in order. */
    method PrependReversed(offs: seq<Offset>) returns (off: Offset)
      modifies `arena, `vector
      ensures arena == old(arena) + [Vec(offs)] && off == |arena|
    {
      StartVector();
      var i := |offs|;
      while i > 0
        invariant 0 <= i <= |offs| && arena == old(arena)
        invariant vector == offs[i..]
      {
        i := i - 1;
        PrependOffset(offs[i]);
      }
      off := EndVector();
    }

    method PythonInotifyWatch(paths: string, mask: int, size: int) returns (off: Offset)
      modifies `arena, `fields
      ensures old(arena) <= arena && WatchIs(arena, off, InotifyWatch(paths, mask, size))
    {
      var str := CreateString(paths);
      StartTable();
      AddOffset(INOTIFY_PATHS, str);
      AddScalar(INOTIFY_MASK, mask);
      AddScalar(INOTIFY_SIZE, size);
      var event := EndTable();
      assert EventIs(arena, event, InotifyWatch(paths, mask, size));
      off := PythonSurveillanceEvent(KIND_INOTIFY, event);
    }

    method PythonSocketWatch(port: int) returns (off: Offset)
      modifies `arena, `fields
      ensures old(arena) <= arena && WatchIs(arena, off, SocketWatch(port))
    {
      StartTable();
      AddScalar(SOCKET_PORT, port);
      var event := EndTable();
      assert EventIs(arena, event, SocketWatch(port));
      off := PythonSurveillanceEvent(KIND_SOCKET, event);
    }

    method PythonSurveillances(ws: seq<Watch>) returns (offs: seq<Offset>)
      modifies `arena, `fields
      ensures old(arena) <= arena && WatchesAre(arena, offs, Known(ws))
    {
      offs := [];
      for i := 0 to |ws|
        invariant old(arena) <= arena
        invariant WatchesAre(arena, offs, Known(ws[..i]))
      {
        ghost var before := arena;
        var off := 0;
        if ws[i].InotifyWatch? {
          off := PythonInotifyWatch(ws[i].paths, ws[i].mask, ws[i].size);
          offs := offs + [off];
        } else if ws[i].SocketWatch? {
          off := PythonSocketWatch(ws[i].port);
          offs := offs + [off];
        }
        OneMoreWatch(before, arena, offs, ws, i, off);
      }
      assert ws[..|ws|] == ws;
    }

    method PythonSurveillanceEvent(kind: int, event: Offset) returns (off: Offset)
      modifies `arena, `fields
      ensures |arena| == |old(arena)| + 1 && old(arena) <= arena && off == |arena|
      ensures forall w :: EventIs(old(arena), event, w) && KindOf(w) == kind ==> WatchIs(arena, off, w)
    {
      StartTable();
      AddScalar(SURVEILLANCE_TYPE, kind);
      AddOffset(SURVEILLANCE_EVENT, event);
      off := EndTable();
      forall w | EventIs(old(arena), event, w) && KindOf(w) == kind
        ensures WatchIs(arena, off, w)
      {
        assert EventIs(arena, event, w);
      }
    }

    /** `send_command_to_demon` of the Python tests. */
    method SendCommandToDemon(c: Command)
      modifies this
      ensures Encodes(arena, root, c.(toWatch := Known(c.toWatch)))
    {
      var argOffs := CreateWholeStrings(c.args);
      ghost var a1 := arena;
      var envOffs := CreateWholeStrings(c.envp);
      ghost var a2 := arena;
      var path := CreateString(c.path);
      var watchOffs := PythonSurveillances(c.toWatch);
      ghost var a3 := arena;
      var args := PrependReversed(argOffs);
      var envp := PrependReversed(envOffs);
      var watches := PrependReversed(watchOffs);
      StrsGrow(a1, arena, argOffs, c.args);
      StrsGrow(a2, arena, envOffs, c.envp);
      WatchesGrow(a3, arena, watchOffs, Known(c.toWatch));
      ghost var said := c.(toWatch := Known(c.toWatch));
      var run := CreateRunCommand(path, args, envp, c.flags, c.stackSize, watches, said);
      FinishMessage(run, said);
    }
  }
}
