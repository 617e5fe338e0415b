/** What each step does, told from the states before and after it: what is new, what is gone, what is
    sent, and that the rest stays.  The steps are those of `DaemonState`; nothing here goes through
    the functions that define them. */
module StepEffects {
  import opened Options
  import opened ProcessManager
  import opened DaemonState
  import opened PipeSafety

  /** A launch: one child with the pid, path and stack of the request, a record for it in the first free
      place if there is one, the acknowledgement on the requesting connection, and a registration on
      the read end of its pipe. */
  lemma LaunchDoes(s: State, l: Label, s': State, ch: Child)
    requires Follows(s, l, s') && l.Launch?
    requires |s'.children| > |s.children| ==> ch == s'.children[|s.children|]
    ensures s'.children == s.children + [ch]
    ensures ch.pid == l.pid && ch.path == l.path && ch.stack == l.stack && ch.phase == Cloned && ch.wrote.None? && !ch.merged
    ensures s'.out == s.out + [Sent(Some(l.conn), Launched(l.pid), Some(|s.children|))]
    ensures s'.nb == s.nb + 1 && s'.heap == s.heap + {l.stack} && s'.pipes == s.pipes + [[]] && ch.pipe == |s.pipes|
    ensures s'.regs == s.regs[ch.readFd := Exec(l.pid, l.path, |s.children|)]
    ensures match ch.slot
            case Some(k) =>
              && s.nb < 256 && k < |s.slots| && !s.slots[k].Occupied()
              && (forall j :: 0 <= j < k ==> s.slots[j].Occupied())
              && s'.slots == s.slots[k := Used(Some(l.stack), l.pid, ch.errFile)]
            case None => s'.slots == s.slots && (s.nb < 256 ==> forall j :: 0 <= j < |s.slots| ==> s.slots[j].Occupied())
    ensures s'.comm == s.comm && s'.pending == s.pending && s'.accepted == s.accepted
  {
  }

  /** The descriptors of a launch: the error file, if it could be opened, and the read end stay open in the
      daemon; the child has all of the daemon's descriptors and the write end. */
  lemma LaunchOpens(s: State, l: Label, s': State, ch: Child)
    requires Follows(s, l, s') && l.Launch? && 1 in s.fds
    requires |s'.children| > |s.children| ==> ch == s'.children[|s.children|]
    ensures l.openOk ==> ch.errFile !in s.fds && ch.errFile in s'.fds && s'.fds[ch.errFile] == ErrorFile
    ensures !l.openOk ==> ch.errFile == 1
    ensures ch.readFd !in s.fds && ch.readFd in s'.fds && s'.fds[ch.readFd] == PipeRead(ch.pipe)
    ensures ch.writeFd !in s.fds && ch.writeFd !in s'.fds
    ensures forall f :: f in s.fds ==> f in s'.fds && s'.fds[f] == s.fds[f]
    ensures forall f :: f in s'.fds ==> f in s.fds || f == ch.readFd || (l.openOk && f == ch.errFile)
    ensures ch.fds == s'.fds[ch.writeFd := PipeWrite(ch.pipe)]
  {
    var table := WithErrorFile(s.fds, l.openOk);
    assert ErrorFd(s.fds, l.openOk) in table;
    assert s'.fds == WithPipe(table, |s.pipes|) - {ch.writeFd};
  }

  /** A launch that fails: the requesting connection is told the error number, and the child table, the
      stacks and the children are as before; the error file and the pipe stay open. */
  lemma LaunchFailsDoes(s: State, l: Label, s': State) returns (e: nat, r: nat, w: nat)
    requires Follows(s, l, s') && l.LaunchFails?
    ensures s'.out == s.out + [Sent(Some(l.conn), CreationError(l.errno), None)]
    ensures e !in s.fds && r !in s.fds && w !in s.fds && r != w && (l.openOk ==> e != r && e != w)
    ensures var table := if l.openOk then s.fds[e := ErrorFile] else s.fds;
            s'.fds == if l.piped then table[r := PipeRead(|s.pipes|)][w := PipeWrite(|s.pipes|)] else table
    ensures s'.pipes == if l.piped then s.pipes + [[]] else s.pipes
    ensures s' == s.(fds := s'.fds, out := s'.out, pipes := s'.pipes)
  {
    var table := WithErrorFile(s.fds, l.openOk);
    e, r, w := LowestFree(s.fds.Keys), ReadEnd(table), WriteEnd(table);
    assert r !in table.Keys && w !in table.Keys + {r};
  }

  /** An accept: a new connection, registered, greeted, and from now on the one that reports go to. */
  lemma AcceptDoes(s: State, s': State, fd: nat)
    requires Follows(s, Accept, s') && s'.comm == Some(fd)
    ensures fd !in s.fds && s'.fds == s.fds[fd := Connection] && s'.regs == s.regs[fd := Conn]
    ensures forall f :: 0 <= f < fd ==> f in s.fds
    ensures s'.out == s.out + [Sent(Some(fd), Listening, None)] && s'.accepted == s.accepted + 1
    ensures s' == s.(fds := s'.fds, regs := s'.regs, out := s'.out, accepted := s'.accepted, comm := s'.comm)
  {
    forall f | 0 <= f < fd
      ensures f in s.fds
    {
      assert f in s.fds.Keys;
    }
  }

  /** A hang-up: the connection is closed and no longer watched; nothing else changes. */
  lemma HangupDoes(s: State, l: Label, s': State)
    requires Follows(s, l, s') && l.Hangup?
    ensures l.fd !in s'.fds && l.fd !in s'.regs
    ensures forall f :: f != l.fd ==> (f in s'.fds <==> f in s.fds) && (f in s.fds ==> s'.fds[f] == s.fds[f])
    ensures forall f :: f != l.fd ==> (f in s'.regs <==> f in s.regs) && (f in s.regs ==> s'.regs[f] == s.regs[f])
    ensures s' == s.(fds := s'.fds, regs := s'.regs)
  {
  }

  /** One path watch: the confirmation on the requesting connection and, for a positive limit if there can
      be one, a fresh inotify instance registered with that limit. */
  lemma WatchDoes(s: State, l: Label, s': State) returns (own: Option<nat>)
    requires Follows(s, l, s') && l.WatchPath?
    ensures s'.out == s.out + [Sent(Some(l.conn), WatchListUpdated(l.path), None)]
    ensures own.Some? <==> l.limit > 0 && l.initOk
    ensures own.None? ==> s'.fds == s.fds && s'.regs == s.regs
    ensures own.Some? ==>
              && own.value !in s.fds
              && s'.fds == s.fds[own.value := Watcher] && s'.regs == s.regs[own.value := Inotify(l.limit)]
    ensures s' == s.(fds := s'.fds, regs := s'.regs, out := s'.out)
  {
    own := if l.limit > 0 && l.initOk then Some(LowestFree(s.fds.Keys)) else None;
  }

  /** One inotify record: a message with its path to whoever reports go to; nothing else changes. */
  lemma NotifyDoes(s: State, l: Label, s': State)
    requires Follows(s, l, s') && l.Notify?
    ensures s' == s.(out := s.out + [Sent(s.comm, PathUpdated(l.path), None)])
  {
  }

  // ----- children -----

  /** Before execve the child closes the descriptor below its write end and makes its error file its
      standard output; all its other descriptors stay. */
  lemma PrepareDoes(s: State, l: Label, s': State)
    requires Follows(s, l, s') && l.Prepare? && ChildInv(s.children[l.c], |s.pipes|) && s.children[l.c].errFile in s.children[l.c].fds
    ensures l.c < |s'.children| && s'.children[l.c].phase == Ready
    ensures var ch, fds := s.children[l.c], s'.children[l.c].fds;
            && ch.writeFd - 1 !in fds
            && 1 in fds && fds[1] == ch.fds[ch.errFile]
            && forall f :: f != 1 && f != ch.writeFd - 1 ==> (f in fds <==> f in ch.fds) && (f in fds ==> fds[f] == ch.fds[f])
  {
  }

  /** A successful execve closes the pipe write ends and no other descriptor. */
  lemma ExecDoes(s: State, l: Label, s': State)
    requires Follows(s, l, s') && l.ExecSucceeds?
    ensures l.c < |s'.children| && s'.children[l.c].phase == Running
    ensures var ch, fds := s.children[l.c], s'.children[l.c].fds;
            forall f :: (f in fds <==> f in ch.fds && !ch.fds[f].PipeWrite?) && (f in fds ==> fds[f] == ch.fds[f])
  {
  }

  /** A failed execve changes nothing but the child's knowledge of the error number. */
  lemma ExecFailsDoes(s: State, l: Label, s': State)
    requires Follows(s, l, s') && l.ExecFails?
    ensures l.c < |s'.children| && s'.children[l.c] == s.children[l.c].(phase := ExecFailed(l.errno))
    ensures s' == s.(children := s.children[l.c := s'.children[l.c]])
  {
  }

  /** The write puts the error number, and only it, into the child's own pipe. */
  lemma WriteDoes(s: State, l: Label, s': State)
    requires Follows(s, l, s') && l.WriteErrno? && ChildInv(s.children[l.c], |s.pipes|)
    ensures var ch := s.children[l.c];
            && ch.phase.ExecFailed? && |s'.pipes| == |s.pipes| && ch.pipe < |s.pipes|
            && s'.pipes == s.pipes[ch.pipe := s.pipes[ch.pipe] + [ch.phase.errno]]
            && s'.children == s.children[l.c := ch.(phase := Wrote, wrote := Some(ch.phase.errno))]
    ensures s' == s.(children := s'.children, pipes := s'.pipes)
  {
  }

  /** A death closes all the child's descriptors and raises its signal unless another one is pending. */
  lemma DieDoes(s: State, l: Label, s': State)
    requires Follows(s, l, s') && l.Die?
    ensures l.c < |s'.children| && s'.children[l.c].phase == Zombie(l.status) && s'.children[l.c].fds == map[]
    ensures s.pending.None? ==> s'.pending == Some(l.c) && !s'.children[l.c].merged
    ensures s.pending.Some? ==> s'.pending == s.pending && s'.children[l.c].merged
    ensures s' == s.(children := s'.children, pending := s'.pending)
    ensures s'.children == s.children[l.c := s'.children[l.c]]
  {
  }

  // ----- reaping and reporting -----

  /** A reap: the child is waited for and reported with its exit code or its signal to whoever reports go
      to, and the counter goes down. */
  lemma ReapTells(s: State, l: Label, s': State)
    requires Follows(s, l, s') && l.ReadSignal?
    ensures l.c < |s.children| && s.children[l.c].phase.Zombie?
    ensures s'.pending.None? && s'.nb == s.nb - 1 && s'.regs == s.regs && s'.comm == s.comm && s'.pipes == s.pipes
    ensures s'.children == s.children[l.c := s.children[l.c].(phase := Reaped(s.children[l.c].phase.status))]
    ensures match s.children[l.c].phase.status
            case Exited(code) => s'.out == s.out + [Sent(s.comm, Terminated(s.children[l.c].pid, code), Some(l.c))]
            case Signaled(signal) => s'.out == s.out + [Sent(s.comm, Terminated(s.children[l.c].pid, signal), Some(l.c))]
  {
  }

  /** What a reap gives back: `k` is the lowest record bearing the pid, if it is below the counter.  Its
      stack pointer is cleared, its stack freed, its descriptor closed unless it is standard output. */
  lemma ReapGivesBack(s: State, l: Label, s': State, k: nat)
    requires Follows(s, l, s') && l.ReadSignal? && k < s.nb && k < |s.slots| && s.slots[k].Bears(s.children[l.c].pid)
    requires forall j :: 0 <= j < k ==> s.slots[j].Used? && s.slots[j].childId != s.children[l.c].pid
    ensures s'.slots == s.slots[k := Used(None, s.slots[k].childId, s.slots[k].errFile)]
    ensures forall x :: x in s'.heap <==> x in s.heap && Some(x) != s.slots[k].stack
    ensures forall f :: f in s'.fds <==> f in s.fds && (f == 1 || f != s.slots[k].errFile)
    ensures forall f :: f in s'.fds ==> s'.fds[f] == s.fds[f]
  {
    ScanFindsLowest(s.slots, s.children[l.c].pid, s.nb, k);
  }

  /** A reap whose pid is borne by no record below the counter gives nothing back. */
  lemma ReapKeepsAll(s: State, l: Label, s': State)
    requires Follows(s, l, s') && l.ReadSignal?
    requires forall j :: 0 <= j < s.nb && j < |s.slots| ==> s.slots[j].Used? && s.slots[j].childId != s.children[l.c].pid
    ensures s'.slots == s.slots && s'.heap == s.heap && s'.fds == s.fds
  {
  }

  /** An exec report closes the read end and drops its registration, and nothing else. */
  lemma ReportCloses(s: State, l: Label, s': State)
    requires Follows(s, l, s') && l.ReadReport?
    ensures l.fd !in s'.fds && l.fd !in s'.regs
    ensures forall f :: f != l.fd ==> (f in s'.fds <==> f in s.fds) && (f in s.fds ==> s'.fds[f] == s.fds[f])
    ensures forall f :: f != l.fd ==> (f in s'.regs <==> f in s.regs) && (f in s.regs ==> s'.regs[f] == s.regs[f])
    ensures s' == s.(fds := s'.fds, regs := s'.regs, pipes := s'.pipes, out := s'.out)
    ensures |s'.out| == |s.out| + 1 && s.out <= s'.out
  {
  }
}
