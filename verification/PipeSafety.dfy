/** The exec-report pipe: who can hold its write end, and what its contents and its end-of-file say
    about the child, under every interleaving of the daemon and its children. */
module PipeSafety {
  import opened Options
  import opened ProcessManager
  import opened DaemonState

  // ----- descriptors at launch -----

  /** Whatever descriptors are in use, the error file, the read end and the write end come out in
      increasing order.  So closing the descriptor below the write end hits neither the error file
      nor the write end, and it hits the read end exactly when no descriptor between them was in use. */
  lemma LaunchDescriptors(fds: FdTable, openOk: bool, p: nat)
    requires forall f :: 0 <= f <= 2 ==> f in fds
    ensures var table := WithErrorFile(fds, openOk);
            var e, r, w := ErrorFd(fds, openOk), ReadEnd(table), WriteEnd(table);
            && e < r < w && 2 < r
            && w - 1 != e && w - 1 != w
            && (w - 1 == r <==> forall f :: r < f < w ==> f !in table)
            && r !in table && w !in table
            && WithPipe(table, p)[w] == PipeWrite(p) && WithPipe(table, p)[r] == PipeRead(p)
  {
    var table := WithErrorFile(fds, openOk);
    var r, w := ReadEnd(table), WriteEnd(table);
    assert ErrorFd(fds, openOk) in table;
    if w - 1 != r {
      assert w - 1 in table.Keys + {r};
    }
  }

  // ----- the invariant -----

  ghost predicate NoEnd(fds: FdTable, p: nat) {
    forall f :: f in fds ==> fds[f] != PipeWrite(p)
  }

  ghost predicate PipesBelow(fds: FdTable, n: nat) {
    forall f :: f in fds ==> (fds[f].PipeRead? || fds[f].PipeWrite? ==> fds[f].pipe < n)
  }

  /** A child holds its own write end at exactly one descriptor until it calls execve or dies. */
  ghost predicate OwnEnd(ch: Child) {
    if ch.phase.Running? || ch.phase.Dead() then NoEnd(ch.fds, ch.pipe)
    else
      && ch.writeFd in ch.fds
      && forall f :: f in ch.fds ==> (ch.fds[f] == PipeWrite(ch.pipe) <==> f == ch.writeFd)
  }

  ghost predicate ChildInv(ch: Child, n: nat) {
    && ch.pipe < n
    && ch.errFile < ch.readFd < ch.writeFd && 2 < ch.readFd
    && PipesBelow(ch.fds, n)
    && OwnEnd(ch)
    && (ch.wrote.Some? ==> ch.phase.Wrote? || ch.phase.Dead())
    && (ch.phase.Wrote? ==> ch.wrote.Some?)
  }

  /** Two children have different pipes, and neither holds the other's write end. */
  ghost predicate Apart(a: Child, b: Child) {
    a.pipe != b.pipe && NoEnd(a.fds, b.pipe) && NoEnd(b.fds, a.pipe)
  }

  ghost predicate PipeInv(children: seq<Child>, n: nat, fds: FdTable) {
    && (forall f :: 0 <= f <= 2 ==> f in fds && fds[f] == Std)
    && PipesBelow(fds, n)
    && (forall c :: 0 <= c < |children| ==> ChildInv(children[c], n) && NoEnd(fds, children[c].pipe))
    && forall c, d :: 0 <= c < d < |children| ==> Apart(children[c], children[d])
  }

  /** The unread contents of the pipe of a child whose report is still to come. */
  function Unread(ch: Child): seq<int> {
    if ch.wrote.Some? then [ch.wrote.value] else []
  }

  predicate Registered(regs: map<nat, Reg>, c: nat, ch: Child) {
    ch.readFd in regs && regs[ch.readFd].Exec? && regs[ch.readFd].child == c
  }

  /** The child can no longer put anything new into its pipe. */
  predicate Settled(ch: Child) {
    ch.wrote.Some? || ch.phase.Running? || ch.phase.Dead()
  }

  /** A connection registration is on a connection; an exec registration names its child, and the
      pipe behind it is that child's. */
  ghost predicate RegOk(f: nat, reg: Reg, children: seq<Child>, pipes: seq<seq<int>>, fds: FdTable) {
    && (reg.Conn? ==> f in fds && fds[f] == Connection)
    && (reg.Exec? ==>
      && reg.child < |children| && f in fds
      && var ch := children[reg.child];
         && ch.readFd == f && ch.pid == reg.pid && ch.path == reg.path
         && fds[f] == PipeRead(ch.pipe) && ch.pipe < |pipes| && pipes[ch.pipe] == Unread(ch))
  }

  ghost predicate ReportInv(children: seq<Child>, pipes: seq<seq<int>>, fds: FdTable, regs: map<nat, Reg>) {
    && (forall f :: f in regs ==> RegOk(f, regs[f], children, pipes, fds))
    && forall c :: 0 <= c < |children| && !Registered(regs, c, children[c]) ==> Settled(children[c])
  }

  ghost predicate Sound(s: State) {
    && PipeInv(s.children, |s.pipes|, s.fds)
    && ReportInv(s.children, s.pipes, s.fds, s.regs)
  }

  // ----- launching -----

  lemma LaunchKeepsPipes(s: State, conn: nat, path: string, openOk: bool, stack: nat, pid: int)
    requires Sound(s)
    ensures var s' := LaunchStep(s, conn, path, openOk, stack, pid); PipeInv(s'.children, |s'.pipes|, s'.fds)
  {
    var s' := LaunchStep(s, conn, path, openOk, stack, pid);
    var ch := NewChild(s, path, openOk, stack, pid);
    LaunchDescriptors(s.fds, openOk, |s.pipes|);
    assert ChildInv(ch, |s'.pipes|);
    forall c | 0 <= c < |s.children|
      ensures ChildInv(s.children[c], |s'.pipes|) && NoEnd(s'.fds, s.children[c].pipe) && Apart(s.children[c], ch)
    {
      assert ChildInv(s.children[c], |s.pipes|) && NoEnd(s.fds, s.children[c].pipe);
    }
  }

  lemma LaunchKeepsReports(s: State, conn: nat, path: string, openOk: bool, stack: nat, pid: int)
    requires Sound(s)
    ensures var s' := LaunchStep(s, conn, path, openOk, stack, pid); ReportInv(s'.children, s'.pipes, s'.fds, s'.regs)
  {
    var s' := LaunchStep(s, conn, path, openOk, stack, pid);
    var n := |s.children|;
    LaunchDescriptors(s.fds, openOk, |s.pipes|);
    forall f | f in s'.regs
      ensures RegOk(f, s'.regs[f], s'.children, s'.pipes, s'.fds)
    {
      if f in s.regs && s'.regs[f] == s.regs[f] {
        assert RegOk(f, s.regs[f], s.children, s.pipes, s.fds);
      }
    }
    forall c | 0 <= c < n && Registered(s.regs, c, s.children[c])
      ensures Registered(s'.regs, c, s'.children[c])
    {
      var f := s.children[c].readFd;
      assert RegOk(f, s.regs[f], s.children, s.pipes, s.fds);
    }
  }

  // ----- the daemon's other steps -----

  /** Opening an unused descriptor on anything but a write end in use elsewhere disturbs nothing. */
  lemma OpenKeepsSound(s: State, f: nat, file: File, reg: Option<Reg>, pipes: seq<seq<int>>)
    requires Sound(s) && f !in s.fds && |s.pipes| <= |pipes| && pipes[..|s.pipes|] == s.pipes
    requires file.PipeRead? || file.PipeWrite? ==> |s.pipes| <= file.pipe < |pipes|
    requires reg.Some? ==> !reg.value.Exec? && (reg.value.Conn? ==> file == Connection)
    ensures PipeInv(s.children, |pipes|, s.fds[f := file])
    ensures ReportInv(s.children, pipes, s.fds[f := file], if reg.Some? then s.regs[f := reg.value] else s.regs)
  {
    var fds := s.fds[f := file];
    var n, regs := |pipes|, if reg.Some? then s.regs[f := reg.value] else s.regs;
    forall c | 0 <= c < |s.children|
      ensures ChildInv(s.children[c], n) && NoEnd(fds, s.children[c].pipe)
    {
      assert ChildInv(s.children[c], |s.pipes|) && NoEnd(s.fds, s.children[c].pipe);
    }
    forall g | g in regs
      ensures RegOk(g, regs[g], s.children, pipes, fds)
    {
      if g in s.regs { assert RegOk(g, s.regs[g], s.children, s.pipes, s.fds); }
    }
    forall c | 0 <= c < |s.children| && !Registered(regs, c, s.children[c])
      ensures Settled(s.children[c])
    {
      var g := s.children[c].readFd;
      if g in s.regs { assert RegOk(g, s.regs[g], s.children, s.pipes, s.fds); }
    }
  }

  /** Closing a descriptor that is no read end still registered disturbs nothing. */
  lemma CloseKeepsSound(s: State, f: int)
    requires Sound(s) && f > 2
    requires f in s.regs ==> !s.regs[f].Exec?
    ensures PipeInv(s.children, |s.pipes|, s.fds - {f})
    ensures ReportInv(s.children, s.pipes, s.fds - {f}, s.regs - {f})
  {
    forall g | g in s.regs && g != f
      ensures RegOk(g, s.regs[g], s.children, s.pipes, s.fds - {f})
    {
      assert RegOk(g, s.regs[g], s.children, s.pipes, s.fds);
    }
    forall c | 0 <= c < |s.children|
      ensures ChildInv(s.children[c], |s.pipes|) && NoEnd(s.fds - {f}, s.children[c].pipe)
    {
      assert NoEnd(s.fds, s.children[c].pipe);
    }
  }

  /** When epoll reports an exec registration, the child has either written or can write no more. */
  lemma ReadyMeansSettled(s: State, f: nat)
    requires Sound(s) && ReportReady(s, f)
    ensures s.regs[f].child < |s.children| && Settled(s.children[s.regs[f].child])
  {
    assert RegOk(f, s.regs[f], s.children, s.pipes, s.fds);
    var c := s.regs[f].child;
    var ch := s.children[c];
    assert ChildInv(ch, |s.pipes|);
    assert ch.wrote.None? ==> NoWriter(s, ch.pipe);
  }

  lemma ReportKeepsSound(s: State, f: nat)
    requires Sound(s) && ReportReady(s, f) && f > 2
    ensures Sound(ReportStep(s, f))
  {
    var s' := ReportStep(s, f);
    assert RegOk(f, s.regs[f], s.children, s.pipes, s.fds);
    ReadyMeansSettled(s, f);
    forall c | 0 <= c < |s.children|
      ensures ChildInv(s.children[c], |s.pipes|) && NoEnd(s'.fds, s.children[c].pipe)
    {
      assert NoEnd(s.fds, s.children[c].pipe);
    }
    forall g | g in s'.regs
      ensures RegOk(g, s'.regs[g], s'.children, s'.pipes, s'.fds)
    {
      assert RegOk(g, s.regs[g], s.children, s.pipes, s.fds);
      if s.regs[g].Exec? {
        var c, d := s.regs[f].child, s.regs[g].child;
        assert c < d ==> Apart(s.children[c], s.children[d]);
        assert d < c ==> Apart(s.children[d], s.children[c]);
      }
    }
  }

  lemma LaunchFailsKeepsSound(s: State, conn: nat, openOk: bool, piped: bool, errno: int)
    requires Sound(s)
    ensures Sound(LaunchFailsStep(s, conn, openOk, piped, errno))
  {
    var s1 := s.(fds := WithErrorFile(s.fds, openOk));
    if openOk { OpenKeepsSound(s, LowestFree(s.fds.Keys), ErrorFile, None, s.pipes); }
    if piped {
      var s2 := s1.(fds := s1.fds[ReadEnd(s1.fds) := PipeRead(|s.pipes|)], pipes := s.pipes + [[]]);
      OpenKeepsSound(s1, ReadEnd(s1.fds), PipeRead(|s.pipes|), None, s2.pipes);
      LeakKeepsSound(s2, WriteEnd(s1.fds), |s.pipes|);
    }
  }

  /** A write end of a pipe that is no child's may stay open in the daemon. */
  lemma LeakKeepsSound(s: State, f: nat, p: nat)
    requires Sound(s) && f !in s.fds && p < |s.pipes|
    requires forall c :: 0 <= c < |s.children| ==> s.children[c].pipe != p
    ensures Sound(s.(fds := s.fds[f := PipeWrite(p)]))
  {
    var fds := s.fds[f := PipeWrite(p)];
    forall c | 0 <= c < |s.children|
      ensures ChildInv(s.children[c], |s.pipes|) && NoEnd(fds, s.children[c].pipe)
    {
      assert NoEnd(s.fds, s.children[c].pipe);
    }
    forall g | g in s.regs
      ensures RegOk(g, s.regs[g], s.children, s.pipes, fds)
    {
      assert RegOk(g, s.regs[g], s.children, s.pipes, s.fds);
    }
  }

  lemma ReapKeepsSound(s: State, c: nat)
    requires Sound(s) && c < |s.children| && s.children[c].phase.Zombie? && ReapStep(s, c).Next?
    ensures Sound(ReapStep(s, c).state)
  {
    var s' := ReapStep(s, c).state;
    var ch := s'.children[c];
    assert ChildInv(s.children[c], |s.pipes|);
    EditKeepsSound(s, c, ch, s.pipes);
    var s1 := WithChild(s, c, ch);
    var r := Scan(s.slots, ch.pid, s.nb);
    if r.Found? && s.slots[r.index].errFile != STDOUT_FILENO {
      var f := s.slots[r.index].errFile;
      assert f in s.regs ==> RegOk(f, s.regs[f], s.children, s.pipes, s.fds);
      CloseKeepsSound(s1, f);
    }
  }

  // ----- the children's steps -----

  /** A child's descriptors refer only to what they referred to before. */
  ghost predicate NoNewEnd(ch: Child, ch': Child) {
    forall f :: f in ch'.fds && ch'.fds[f].PipeWrite? ==> HoldsFile(ch.fds, ch'.fds[f])
  }

  ghost predicate HoldsFile(fds: FdTable, file: File) { exists g :: g in fds && fds[g] == file }

  /** A child changes: it stays itself, gains no write end, and its pipe grows only by its own write. */
  lemma EditKeepsSound(s: State, c: nat, ch: Child, pipes: seq<seq<int>>)
    requires Sound(s) && c < |s.children|
    requires SameIdentity(s.children[c], ch) && ChildInv(ch, |s.pipes|)
    requires NoNewEnd(s.children[c], ch)
    requires Settled(s.children[c]) ==> Settled(ch)
    requires |pipes| == |s.pipes| && forall p :: 0 <= p < |pipes| && p != ch.pipe ==> pipes[p] == s.pipes[p]
    requires s.pipes[ch.pipe] == Unread(s.children[c]) ==> pipes[ch.pipe] == Unread(ch)
    ensures PipeInv(s.children[c := ch], |pipes|, s.fds)
    ensures ReportInv(s.children[c := ch], pipes, s.fds, s.regs)
  {
    var children := s.children[c := ch];
    forall p: nat | NoEnd(s.children[c].fds, p)
      ensures NoEnd(ch.fds, p)
    {
      assert forall f :: f in ch.fds && ch.fds[f].PipeWrite? ==> HoldsFile(s.children[c].fds, ch.fds[f]);
    }
    forall d, e | 0 <= d < e < |children|
      ensures Apart(children[d], children[e])
    {
      assert Apart(s.children[d], s.children[e]);
    }
    forall f | f in s.regs
      ensures RegOk(f, s.regs[f], children, pipes, s.fds)
    {
      assert RegOk(f, s.regs[f], s.children, s.pipes, s.fds);
      if s.regs[f].Exec? && s.regs[f].child != c {
        var d := s.regs[f].child;
        assert c < d ==> Apart(s.children[c], s.children[d]);
        assert d < c ==> Apart(s.children[d], s.children[c]);
      }
    }
  }

  lemma PrepareKeepsChild(ch: Child, n: nat)
    requires ChildInv(ch, n) && ch.phase == Cloned
    ensures ChildInv(ch.(phase := Ready, fds := PreparedFds(ch)), n)
  {
  }

  lemma PrepareGainsNoEnd(ch: Child)
    ensures NoNewEnd(ch, ch.(phase := Ready, fds := PreparedFds(ch)))
  {
    var fds := ch.fds - {ch.writeFd - 1};
    forall f | f in PreparedFds(ch)
      ensures HoldsFile(ch.fds, PreparedFds(ch)[f])
    {
      var g := if f == STDOUT_FILENO && ch.errFile in fds then ch.errFile else f;
      assert PreparedFds(ch)[f] == ch.fds[g];
    }
  }

  lemma ChildActionEdits(s: State, l: Label, s': State)
    requires ChildAction(l) && Follows(s, l, s') && l.c < |s'.children|
    requires ChildInv(s.children[l.c], |s.pipes|)
    ensures ChildInv(s'.children[l.c], |s.pipes|) && NoNewEnd(s.children[l.c], s'.children[l.c])
    ensures Settled(s.children[l.c]) ==> Settled(s'.children[l.c])
  {
    var ch := s.children[l.c];
    if l.Prepare? {
      PrepareKeepsChild(ch, |s.pipes|);
      PrepareGainsNoEnd(ch);
    } else {
      OthersGainNoEnd(s, l, s');
    }
  }

  lemma OthersGainNoEnd(s: State, l: Label, s': State)
    requires ChildAction(l) && !l.Prepare? && Follows(s, l, s') && l.c < |s'.children|
    ensures NoNewEnd(s.children[l.c], s'.children[l.c])
  {
    var ch := s.children[l.c];
    forall f | f in s'.children[l.c].fds
      ensures HoldsFile(ch.fds, s'.children[l.c].fds[f])
    {
      assert ch.fds[f] == s'.children[l.c].fds[f];
    }
  }

  lemma ChildActionPipes(s: State, l: Label, s': State)
    requires ChildAction(l) && Follows(s, l, s') && l.c < |s'.children|
    requires ChildInv(s.children[l.c], |s.pipes|)
    ensures |s'.pipes| == |s.pipes|
    ensures forall p :: 0 <= p < |s.pipes| && p != s.children[l.c].pipe ==> s'.pipes[p] == s.pipes[p]
    ensures s.pipes[s.children[l.c].pipe] == Unread(s.children[l.c]) ==>
              s'.pipes[s.children[l.c].pipe] == Unread(s'.children[l.c])
  {
  }

  lemma ChildActionKeepsSound(s: State, l: Label, s': State)
    requires Sound(s) && ChildAction(l) && Follows(s, l, s')
    ensures Sound(s')
  {
    ChildActionFrame(s, l, s');
    assert ChildInv(s.children[l.c], |s.pipes|);
    ChildActionEdits(s, l, s');
    ChildActionPipes(s, l, s');
    EditKeepsSound(s, l.c, s'.children[l.c], s'.pipes);
  }

  // ----- every run -----

  lemma StepKeepsSound(s: State, l: Label, s': State)
    requires Sound(s) && Follows(s, l, s')
    ensures Sound(s')
  {
    if ChildAction(l) {
      ChildActionKeepsSound(s, l, s');
    } else if l.Launch? {
      LaunchKeepsPipes(s, l.conn, l.path, l.openOk, l.stack, l.pid);
      LaunchKeepsReports(s, l.conn, l.path, l.openOk, l.stack, l.pid);
    } else if l.LaunchFails? {
      LaunchFailsKeepsSound(s, l.conn, l.openOk, l.piped, l.errno);
    } else if l.Accept? || l.WatchPath? {
      var fd := LowestFree(s.fds.Keys);
      if l.Accept? {
        OpenKeepsSound(s, fd, Connection, Some(Conn), s.pipes);
      } else if l.limit > 0 && l.initOk {
        OpenKeepsSound(s, fd, Watcher, Some(Inotify(l.limit)), s.pipes);
      }
    } else if l.Hangup? {
      assert RegOk(l.fd, s.regs[l.fd], s.children, s.pipes, s.fds);
      CloseKeepsSound(s, l.fd);
    } else if l.ReadReport? {
      assert RegOk(l.fd, s.regs[l.fd], s.children, s.pipes, s.fds);
      ReportKeepsSound(s, l.fd);
    } else if l.ReadSignal? {
      ReapKeepsSound(s, l.c);
    }
  }

  lemma {:induction false} RunSound(ss: seq<State>, ls: seq<Label>, i: nat)
    requires Run(ss, ls) && i < |ss|
    ensures Sound(ss[i])
  {
    if i > 0 {
      RunSound(ss, ls, i - 1);
      assert StepAt(ss, ls, i - 1);
      StepKeepsSound(ss[i - 1], ls[i - 1], ss[i]);
    }
  }

  /** The write end of a child's pipe is held by that child alone, at one descriptor, and exactly until
      the child calls execve successfully or dies. */
  ghost predicate HeldByChildOnly(s: State, c: nat)
    requires c < |s.children|
  {
    var ch := s.children[c];
    && NoEnd(s.fds, ch.pipe)
    && (forall d :: 0 <= d < |s.children| && d != c ==> NoEnd(s.children[d].fds, ch.pipe))
    && (forall f :: f in ch.fds && ch.fds[f] == PipeWrite(ch.pipe) ==> f == ch.writeFd)
    && (NoWriter(s, ch.pipe) <==> ch.phase.Running? || ch.phase.Dead())
  }

  lemma SoundMeansHeldByChild(s: State, c: nat)
    requires Sound(s) && c < |s.children|
    ensures HeldByChildOnly(s, c)
  {
    var ch := s.children[c];
    assert ChildInv(ch, |s.pipes|);
    forall d | 0 <= d < |s.children| && d != c
      ensures NoEnd(s.children[d].fds, ch.pipe)
    {
      assert d < c ==> Apart(s.children[d], s.children[c]);
      assert c < d ==> Apart(s.children[c], s.children[d]);
    }
    if !(ch.phase.Running? || ch.phase.Dead()) {
      assert s.children[c].fds[ch.writeFd] == PipeWrite(ch.pipe);
    }
  }

  /** At every point of every run, outside of a launch, for all children at once: no process but the
      child itself can delay the end-of-file of its pipe or write in its place. */
  lemma OnlyChildHoldsEnd(ss: seq<State>, ls: seq<Label>, i: nat)
    requires Run(ss, ls) && i < |ss|
    ensures forall c :: 0 <= c < |ss[i].children| ==> HeldByChildOnly(ss[i], c)
  {
    RunSound(ss, ls, i);
    forall c | 0 <= c < |ss[i].children|
      ensures HeldByChildOnly(ss[i], c)
    {
      SoundMeansHeldByChild(ss[i], c);
    }
  }

  /** A child that can write no more and has not been reported yet makes its registration ready. */
  lemma SettledIsReady(s: State, c: nat)
    requires Sound(s) && c < |s.children| && Settled(s.children[c]) && Registered(s.regs, c, s.children[c])
    ensures ReportReady(s, s.children[c].readFd)
  {
    var f := s.children[c].readFd;
    assert RegOk(f, s.regs[f], s.children, s.pipes, s.fds);
    SoundMeansHeldByChild(s, c);
  }
}
