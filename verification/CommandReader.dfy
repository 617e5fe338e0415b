/** Reading a command message back (`c/daemon-features/serialize.cpp`), and what a round trip gives. */
module CommandReader {
  import opened CommandCodec
  import opened Machine
  import opened Options

  /** What the readers are handed: nothing, or a buffer and its root. */
  datatype Buffer = Empty | Bytes(arena: Arena, root: Offset)

  // ----- the generated verifier: absent slots and null unions pass -----

  predicate ScalarField(t: Fields, slot: nat) { slot in t ==> t[slot].Scalar? }

  predicate StringField(a: Arena, t: Fields, slot: nat) {
    slot in t ==> t[slot].Ref? && IsStr(a, t[slot].target)
  }

  predicate AllStr(a: Arena, offs: seq<Offset>) { forall i :: 0 <= i < |offs| ==> IsStr(a, offs[i]) }

  predicate StringsField(a: Arena, t: Fields, slot: nat) {
    slot in t ==> t[slot].Ref? && IsVec(a, t[slot].target) && AllStr(a, a[t[slot].target - 1].elems)
  }

  predicate VerifiedEvent(a: Arena, off: Offset, kind: int) {
    && (kind == KIND_INOTIFY ==>
      && IsTable(a, off)
      && var t := a[off - 1].fields;
         StringField(a, t, INOTIFY_PATHS) && ScalarField(t, INOTIFY_MASK) && ScalarField(t, INOTIFY_SIZE))
    && (kind == KIND_SOCKET ==> IsTable(a, off) && ScalarField(a[off - 1].fields, SOCKET_PORT))
  }

  predicate VerifiedWatch(a: Arena, off: Offset) {
    && IsTable(a, off)
    && var t := a[off - 1].fields;
       && ScalarField(t, SURVEILLANCE_TYPE)
       && (SURVEILLANCE_EVENT in t ==>
         t[SURVEILLANCE_EVENT].Ref? && VerifiedEvent(a, t[SURVEILLANCE_EVENT].target, GetScalar(t, SURVEILLANCE_TYPE)))
  }

  predicate VerifiedRun(a: Arena, off: Offset) {
    && IsTable(a, off)
    && var t := a[off - 1].fields;
       && StringField(a, t, RUN_PATH) && StringsField(a, t, RUN_ARGS) && StringsField(a, t, RUN_ENVP)
       && ScalarField(t, RUN_FLAGS) && ScalarField(t, RUN_STACK)
       && (RUN_WATCH in t ==>
         && t[RUN_WATCH].Ref? && IsVec(a, t[RUN_WATCH].target)
         && var ws := a[t[RUN_WATCH].target - 1].elems;
            forall i :: 0 <= i < |ws| ==> VerifiedWatch(a, ws[i]))
  }

  predicate VerifiedMessage(a: Arena, root: Offset) {
    && IsTable(a, root)
    && var t := a[root - 1].fields;
       && ScalarField(t, MESSAGE_TYPE)
       && (MESSAGE_EVENT in t ==>
         && t[MESSAGE_EVENT].Ref?
         && var e := t[MESSAGE_EVENT].target;
            && (GetScalar(t, MESSAGE_TYPE) == EVENT_RUN_COMMAND ==> VerifiedRun(a, e))
            && (GetScalar(t, MESSAGE_TYPE) == EVENT_KILL_PROCESS ==> IsTable(a, e) && ScalarField(a[e - 1].fields, KILL_PID)))
  }

  predicate Readable(b: Buffer) { b.Bytes? && VerifiedMessage(b.arena, b.root) }

  // ----- what the readers return -----

  /** A reader gives up with a null pointer, dereferences a null pointer itself, or returns a value. */
  datatype Received<T> = Rejected | Crashed | Got(value: T)

  function Text(a: Arena, off: Offset): string
    requires IsStr(a, off)
  {
    CString('\0', a[off - 1].text)
  }

  function Texts(a: Arena, offs: seq<Offset>): (r: seq<string>)
    requires AllStr(a, offs)
    ensures |r| == |offs| && forall i :: 0 <= i < |offs| ==> r[i] == Text(a, offs[i])
  {
    seq(|offs|, i requires 0 <= i < |offs| => Text(a, offs[i]))
  }

  /** A watch whose event, or whose path, is missing makes the reader dereference null; a watch of another
      kind leaves its entry unset. */
  function WatchAt(a: Arena, off: Offset): Option<Watch>
    requires VerifiedWatch(a, off)
  {
    var t := a[off - 1].fields;
    var kind := GetScalar(t, SURVEILLANCE_TYPE);
    if kind != KIND_INOTIFY && kind != KIND_SOCKET then Some(UnknownWatch)
    else if SURVEILLANCE_EVENT !in t then None
    else
      var e := a[t[SURVEILLANCE_EVENT].target - 1].fields;
      if kind == KIND_SOCKET then Some(SocketWatch(GetScalar(e, SOCKET_PORT)))
      else if INOTIFY_PATHS !in e then None
      else Some(InotifyWatch(Text(a, e[INOTIFY_PATHS].target), GetScalar(e, INOTIFY_MASK), GetScalar(e, INOTIFY_SIZE)))
  }

  function WatchesAt(a: Arena, offs: seq<Offset>): Option<seq<Watch>>
    requires forall i :: 0 <= i < |offs| ==> VerifiedWatch(a, offs[i])
  {
    if forall i :: 0 <= i < |offs| ==> WatchAt(a, offs[i]).Some? then
      Some(seq(|offs|, i requires 0 <= i < |offs| => WatchAt(a, offs[i]).value))
    else None
  }

  function RunAt(a: Arena, off: Offset): Received<Command>
    requires VerifiedRun(a, off)
  {
    var t := a[off - 1].fields;
    if RUN_PATH !in t || RUN_ARGS !in t || RUN_ENVP !in t then Crashed
    else
      var watches := if RUN_WATCH in t then WatchesAt(a, a[t[RUN_WATCH].target - 1].elems) else Some([]);
      if watches.None? then Crashed
      else Got(Command(
        Text(a, t[RUN_PATH].target),
        Texts(a, a[t[RUN_ARGS].target - 1].elems), Texts(a, a[t[RUN_ENVP].target - 1].elems),
        GetScalar(t, RUN_FLAGS), GetScalar(t, RUN_STACK), watches.value))
  }

  function CommandIn(b: Buffer): Received<Command> {
    if !Readable(b) then Rejected
    else
      var t := b.arena[b.root - 1].fields;
      if GetScalar(t, MESSAGE_TYPE) != EVENT_RUN_COMMAND then Rejected
      else if MESSAGE_EVENT !in t then Crashed
      else RunAt(b.arena, t[MESSAGE_EVENT].target)
  }

  /** The reader refuses a buffer exactly when it is no verified run command, and dereferences null exactly
      when the command, its path, its arguments or its environment are missing, or a watch of a known kind
      has no event or no path. */
  lemma ReadsExactly(b: Buffer)
    ensures CommandIn(b).Rejected? <==>
            !Readable(b) || GetScalar(b.arena[b.root - 1].fields, MESSAGE_TYPE) != 1
    ensures Readable(b) && GetScalar(b.arena[b.root - 1].fields, MESSAGE_TYPE) == 1 ==>
              var a, message := b.arena, b.arena[b.root - 1].fields;
              (CommandIn(b).Crashed? <==>
               MESSAGE_EVENT !in message ||
               var run := a[message[MESSAGE_EVENT].target - 1].fields;
               || RUN_PATH !in run || RUN_ARGS !in run || RUN_ENVP !in run
               || (RUN_WATCH in run && Broken(a, a[run[RUN_WATCH].target - 1].elems)))
  {
  }

  /** A watch of a known kind lacks its event, or an inotify watch its path. */
  ghost predicate Broken(a: Arena, offs: seq<Offset>)
    requires forall i :: 0 <= i < |offs| ==> VerifiedWatch(a, offs[i])
  {
    exists i :: 0 <= i < |offs| && BrokenWatch(a, offs[i])
  }

  predicate BrokenWatch(a: Arena, off: Offset)
    requires VerifiedWatch(a, off)
  {
    var t := a[off - 1].fields;
    var kind := GetScalar(t, SURVEILLANCE_TYPE);
    && (kind == 1 || kind == 2)
    && (SURVEILLANCE_EVENT !in t || (kind == 1 && INOTIFY_PATHS !in a[t[SURVEILLANCE_EVENT].target - 1].fields))
  }

  // ----- the readers -----

  datatype UserEvent = NoEvent | RunCommand | KillProcess

  /** `receive_message_from_user`: it accepts as a command exactly what `receive_command` does not refuse,
      so the daemon never goes on with a null command. */
  method ReceiveMessageFromUser(b: Buffer) returns (e: UserEvent)
    ensures e == RunCommand <==> !CommandIn(b).Rejected?
    ensures e == KillProcess <==> Readable(b) && GetScalar(b.arena[b.root - 1].fields, MESSAGE_TYPE) == EVENT_KILL_PROCESS
  {
    if !Readable(b) { return NoEvent; }
    var kind := GetScalar(b.arena[b.root - 1].fields, MESSAGE_TYPE);
    if kind == EVENT_RUN_COMMAND { return RunCommand; }
    if kind == EVENT_KILL_PROCESS { return KillProcess; }
    return NoEvent;
  }

  /** The loops that copy the strings of `args` and `envp`. */
  method CopyStrings(a: Arena, offs: seq<Offset>) returns (r: seq<string>)
    requires AllStr(a, offs)
    ensures r == Texts(a, offs)
  {
    r := [];
    for i := 0 to |offs|
      invariant |r| == i && forall j :: 0 <= j < i ==> r[j] == Text(a, offs[j])
    {
      r := r + [CString('\0', a[offs[i] - 1].text)];
    }
  }

  /** The loop over `to_watch`; `None` when it dereferences a null pointer. */
  method CopyWatches(a: Arena, offs: seq<Offset>) returns (r: Option<seq<Watch>>)
    requires forall i :: 0 <= i < |offs| ==> VerifiedWatch(a, offs[i])
    ensures r == WatchesAt(a, offs)
  {
    var ws: seq<Watch> := [];
    for i := 0 to |offs|
      invariant |ws| == i && forall j :: 0 <= j < i ==> WatchAt(a, offs[j]) == Some(ws[j])
    {
      assert VerifiedWatch(a, offs[i]);
      var t := a[offs[i] - 1].fields;
      var kind := GetScalar(t, SURVEILLANCE_TYPE);
      var w := UnknownWatch;
      if kind == KIND_INOTIFY {
        if SURVEILLANCE_EVENT !in t { return None; }
        var e := a[t[SURVEILLANCE_EVENT].target - 1].fields;
        if INOTIFY_PATHS !in e { return None; }
        w := InotifyWatch(
          CString('\0', a[e[INOTIFY_PATHS].target - 1].text), GetScalar(e, INOTIFY_MASK), GetScalar(e, INOTIFY_SIZE));
      } else if kind == KIND_SOCKET {
        if SURVEILLANCE_EVENT !in t { return None; }
        w := SocketWatch(GetScalar(a[t[SURVEILLANCE_EVENT].target - 1].fields, SOCKET_PORT));
      }
      ws := ws + [w];
    }
    assert WatchesAt(a, offs).value == ws;
    r := Some(ws);
  }

  /** `receive_command`. */
  method ReceiveCommand(b: Buffer) returns (r: Received<Command>)
    ensures r == CommandIn(b)
  {
    if !Readable(b) { return Rejected; }
    var message := b.arena[b.root - 1].fields;
    if GetScalar(message, MESSAGE_TYPE) != EVENT_RUN_COMMAND { return Rejected; }
    if MESSAGE_EVENT !in message { return Crashed; }
    var run := b.arena[message[MESSAGE_EVENT].target - 1].fields;
    if RUN_PATH !in run || RUN_ARGS !in run || RUN_ENVP !in run { return Crashed; }
    var path := CString('\0', b.arena[run[RUN_PATH].target - 1].text);
    var args := CopyStrings(b.arena, b.arena[run[RUN_ARGS].target - 1].elems);
    var envp := CopyStrings(b.arena, b.arena[run[RUN_ENVP].target - 1].elems);
    var watches := Some([]);
    if RUN_WATCH in run {
      watches := CopyWatches(b.arena, b.arena[run[RUN_WATCH].target - 1].elems);
    }
    if watches.None? { return Crashed; }
    r := Got(Command(path, args, envp, GetScalar(run, RUN_FLAGS), GetScalar(run, RUN_STACK), watches.value));
  }

  /** `receive_kill`: the pid a kill message carries, -1 standing for a refusal. */
  function KillIn(b: Buffer): Received<int> {
    if !Readable(b) then Got(-1)
    else
      var t := b.arena[b.root - 1].fields;
      if GetScalar(t, MESSAGE_TYPE) != EVENT_KILL_PROCESS then Got(-1)
      else if MESSAGE_EVENT !in t then Crashed
      else Got(GetScalar(b.arena[t[MESSAGE_EVENT].target - 1].fields, KILL_PID))
  }

  // ----- an encoded command reads back -----

  lemma WatchReads(a: Arena, off: Offset, w: Watch)
    requires WatchIs(a, off, w)
    ensures VerifiedWatch(a, off) && WatchAt(a, off) == Some(CutWatch(w))
  {
    var t := a[off - 1].fields;
    assert EventIs(a, t[SURVEILLANCE_EVENT].target, w);
    assert GetScalar(t, SURVEILLANCE_TYPE) == KindOf(w);
  }

  lemma WatchesRead(a: Arena, offs: seq<Offset>, ws: seq<Watch>)
    requires WatchesAre(a, offs, ws)
    ensures forall i :: 0 <= i < |offs| ==> VerifiedWatch(a, offs[i])
    ensures WatchesAt(a, offs) == Some(CutWatches(ws))
  {
    forall i | 0 <= i < |offs|
      ensures VerifiedWatch(a, offs[i]) && WatchAt(a, offs[i]) == Some(CutWatch(ws[i]))
    {
      assert WatchIs(a, offs[i], ws[i]);
      WatchReads(a, offs[i], ws[i]);
    }
    assert WatchesAt(a, offs).value == CutWatches(ws);
  }

  lemma StringsRead(a: Arena, offs: seq<Offset>, ss: seq<string>)
    requires StrsAre(a, offs, ss)
    ensures AllStr(a, offs)
    ensures Texts(a, offs) == CStrings(ss)
  {
    forall i | 0 <= i < |offs|
      ensures IsStr(a, offs[i]) && Text(a, offs[i]) == CString('\0', ss[i])
    {
      assert StrIs(a, offs[i], ss[i]);
    }
  }

  lemma RunReads(a: Arena, off: Offset, c: Command)
    requires RunIs(a, off, c)
    ensures VerifiedRun(a, off) && RunAt(a, off) == Got(Cut(c))
  {
    var t := a[off - 1].fields;
    StringsRead(a, a[t[RUN_ARGS].target - 1].elems, c.args);
    StringsRead(a, a[t[RUN_ENVP].target - 1].elems, c.envp);
    WatchesRead(a, a[t[RUN_WATCH].target - 1].elems, c.toWatch);
  }

  /** Every buffer that says `c`, whichever writer made it, passes the verifier and reads back as `c` with
      its strings cut at their first NUL; default-valued fields, which were never written, come back. */
  lemma EncodedReads(a: Arena, root: Offset, c: Command)
    requires Encodes(a, root, c)
    ensures CommandIn(Bytes(a, root)) == Got(Cut(c))
  {
    RunReads(a, a[root - 1].fields[MESSAGE_EVENT].target, c);
  }

  lemma EncodedKillReads(a: Arena, root: Offset, pid: int)
    requires EncodesKill(a, root, pid)
    ensures KillIn(Bytes(a, root)) == Got(pid)
    ensures CommandIn(Bytes(a, root)) == Rejected
  {
    assert GetScalar(a[root - 1].fields, MESSAGE_TYPE) == EVENT_KILL_PROCESS;
  }

  // ----- round trips -----

  lemma {:induction false} KnownOfCut(ws: seq<Watch>)
    ensures Known(CutWatches(ws)) == CutWatches(Known(ws))
    decreases |ws|
  {
    if ws != [] {
      var n := |ws| - 1;
      assert CutWatches(ws)[..n] == CutWatches(ws[..n]);
      KnownOfCut(ws[..n]);
      assert CutWatches(Known(ws[..n]) + [ws[n]]) == CutWatches(Known(ws[..n])) + [CutWatch(ws[n])];
    } else {
      assert CutWatches(Known(ws)) == [];
    }
  }

  /** The known watches of two lists are those of the one and then those of the other. */
  lemma {:induction false} KnownConcat(a: seq<Watch>, b: seq<Watch>)
    ensures Known(a + b) == Known(a) + Known(b)
    decreases |b|
  {
    if b == [] {
      assert a + b == a && Known(a) + [] == Known(a);
    } else {
      var n := |b| - 1;
      KnownConcat(a, b[..n]);
      assert (a + b)[..|a + b| - 1] == a + b[..n] && (a + b)[|a + b| - 1] == b[n];
      var last := if b[n].UnknownWatch? then [] else [b[n]];
      assert Known(a) + (Known(b[..n]) + last) == Known(a) + Known(b[..n]) + last;
    }
  }

  /** No known watch is lost, added or repeated, and no unknown one is kept. */
  lemma {:induction false} KnownKeeps(ws: seq<Watch>, w: Watch)
    ensures multiset(Known(ws))[w] == if w.UnknownWatch? then 0 else multiset(ws)[w]
    decreases |ws|
  {
    if ws != [] {
      var n := |ws| - 1;
      KnownKeeps(ws[..n], w);
      assert ws == ws[..n] + [ws[n]];
    }
  }

  predicate AllKnown(ws: seq<Watch>) { forall i :: 0 <= i < |ws| ==> !ws[i].UnknownWatch? }

  lemma {:induction false} AllKnownStay(ws: seq<Watch>)
    requires AllKnown(ws)
    ensures Known(ws) == ws
    decreases |ws|
  {
    if ws != [] {
      AllKnownStay(ws[..|ws| - 1]);
      assert ws == ws[..|ws| - 1] + [ws[|ws| - 1]];
    }
  }

  lemma KnownIsAllKnown(ws: seq<Watch>)
    ensures AllKnown(Known(ws))
  {
    forall i | 0 <= i < |Known(ws)|
      ensures !Known(ws)[i].UnknownWatch?
    {
      KnownKeeps(ws, Known(ws)[i]);
      assert multiset(Known(ws))[Known(ws)[i]] > 0;
    }
  }

  /** What comes back: the known watches in order, every string cut at its first NUL. */
  function Delivered(c: Command): Command { Cut(c.(toWatch := Known(c.toWatch))) }

  lemma CutTwice(c: Command)
    ensures Cut(Cut(c)) == Cut(c)
  {
    assert NulFree(Cut(c));
    CutNulFree(Cut(c));
  }

  predicate PathsNulFree(ws: seq<Watch>) {
    forall i :: 0 <= i < |ws| ==> ws[i].InotifyWatch? ==> '\0' !in ws[i].paths
  }

  lemma {:induction false} KnownNulFree(ws: seq<Watch>)
    ensures PathsNulFree(Known(ws)) <==> PathsNulFree(ws)
    decreases |ws|
  {
    if ws != [] {
      var n := |ws| - 1;
      KnownNulFree(ws[..n]);
      assert ws == ws[..n] + [ws[n]];
      PathsNulFreeConcat(ws[..n], [ws[n]]);
      var last := if ws[n].UnknownWatch? then [] else [ws[n]];
      assert Known(ws) == Known(ws[..n]) + last;
      PathsNulFreeConcat(Known(ws[..n]), last);
    }
  }

  lemma PathsNulFreeConcat(a: seq<Watch>, b: seq<Watch>)
    ensures PathsNulFree(a + b) <==> PathsNulFree(a) && PathsNulFree(b)
  {
    if PathsNulFree(a + b) {
      assert forall i :: 0 <= i < |a| ==> a[i] == (a + b)[i];
      assert forall i :: 0 <= i < |b| ==> b[i] == (a + b)[|a| + i];
    }
  }

  /** Nothing but the unknown watches is lost exactly when no string holds a NUL. */
  lemma LosslessIffNulFree(c: Command)
    ensures Delivered(c) == c.(toWatch := Known(c.toWatch)) <==> NulFree(c)
  {
    var known := c.(toWatch := Known(c.toWatch));
    KnownNulFree(c.toWatch);
    assert NulFree(known) <==> NulFree(c);
    if NulFree(known) { CutNulFree(known); }
    assert NulFree(Cut(known));
  }

  /** A command comes back as it was exactly when it holds no NUL and no unknown watch. */
  lemma UnchangedIff(c: Command)
    ensures Delivered(c) == c <==> NulFree(c) && AllKnown(c.toWatch)
  {
    LosslessIffNulFree(c);
    if AllKnown(c.toWatch) { AllKnownStay(c.toWatch); }
    KnownIsAllKnown(c.toWatch);
    CutKeepsUnknown(Known(c.toWatch));
  }

  lemma CutKeepsUnknown(ws: seq<Watch>)
    ensures AllKnown(CutWatches(ws)) <==> AllKnown(ws)
  {
    assert forall i :: 0 <= i < |ws| ==> CutWatches(ws)[i] == CutWatch(ws[i]);
  }

  /** Cutting shortens strings at their first NUL and touches nothing else. */
  lemma CutDoes(c: Command)
    ensures Cut(c).path == CString('\0', c.path) && Cut(c).flags == c.flags && Cut(c).stackSize == c.stackSize
    ensures |Cut(c).args| == |c.args| && forall i :: 0 <= i < |c.args| ==> Cut(c).args[i] == CString('\0', c.args[i])
    ensures |Cut(c).envp| == |c.envp| && forall i :: 0 <= i < |c.envp| ==> Cut(c).envp[i] == CString('\0', c.envp[i])
    ensures |Cut(c).toWatch| == |c.toWatch|
    ensures forall i :: 0 <= i < |c.toWatch| ==>
              match c.toWatch[i]
              case InotifyWatch(paths, mask, size) => Cut(c).toWatch[i] == InotifyWatch(CString('\0', paths), mask, size)
              case SocketWatch(port) => Cut(c).toWatch[i] == SocketWatch(port)
              case UnknownWatch => Cut(c).toWatch[i] == UnknownWatch
  {
  }

  /** `receive_command` of `serialize_command`. */
  method RoundTrip(c: Command) returns (r: Received<Command>, e: UserEvent)
    ensures e == RunCommand && r == Got(Delivered(c))
    ensures r == Got(c.(toWatch := Known(c.toWatch))) <==> NulFree(c)
    ensures r == Got(c) <==> NulFree(c) && AllKnown(c.toWatch)
  {
    var builder := new Builder();
    builder.SerializeCommand(c);
    ghost var said := Cut(c).(toWatch := Known(CutWatches(c.toWatch)));
    EncodedReads(builder.arena, builder.root, said);
    KnownOfCut(c.toWatch);
    assert said == Delivered(c);
    CutTwice(c.(toWatch := Known(c.toWatch)));
    LosslessIffNulFree(c);
    UnchangedIff(c);
    e := ReceiveMessageFromUser(Bytes(builder.arena, builder.root));
    r := ReceiveCommand(Bytes(builder.arena, builder.root));
  }

  /** The Python writer's message decodes to the same command as the C++ writer's. */
  method PythonRoundTrip(c: Command) returns (r: Received<Command>, e: UserEvent)
    ensures e == RunCommand && r == Got(Delivered(c))
    ensures r == Got(c.(toWatch := Known(c.toWatch))) <==> NulFree(c)
    ensures r == Got(c) <==> NulFree(c) && AllKnown(c.toWatch)
  {
    var builder := new Builder();
    builder.SendCommandToDemon(c);
    EncodedReads(builder.arena, builder.root, c.(toWatch := Known(c.toWatch)));
    LosslessIffNulFree(c);
    UnchangedIff(c);
    e := ReceiveMessageFromUser(Bytes(builder.arena, builder.root));
    r := ReceiveCommand(Bytes(builder.arena, builder.root));
  }

  /** A kill message is told apart from a command and gives its pid back, zero included. */
  method KillRoundTrip(pid: int) returns (r: Received<int>, e: UserEvent)
    ensures e == KillProcess && r == Got(pid)
  {
    var builder := new Builder();
    builder.SendKillToDemon(pid);
    EncodedKillReads(builder.arena, builder.root, pid);
    e := ReceiveMessageFromUser(Bytes(builder.arena, builder.root));
    r := KillIn(Bytes(builder.arena, builder.root));
  }
}
