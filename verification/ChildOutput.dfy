/** What a child's standard streams are, from its launch to its death, in every run. */
module ChildOutput {
  import opened Options
  import opened ProcessManager
  import opened DaemonState
  import opened PipeSafety
  import opened StepEffects

  /** Before it has prepared itself a child still has the daemon's output and holds its error file; after
      that its output is its error file, or the daemon's output when there was none. */
  ghost predicate StreamsInv(ch: Child) {
    !ch.phase.Dead() ==>
      && ch.errFile != 0 && ch.errFile != 2
      && (forall f: nat :: f <= 2 ==> f in ch.fds)
      && ch.fds[0] == Std && ch.fds[2] == Std
      && (if ch.phase == Cloned then
            ch.fds[1] == Std && ch.errFile in ch.fds && (ch.errFile != 1 ==> ch.fds[ch.errFile] == ErrorFile)
          else
            ch.fds[1] == if ch.errFile == 1 then Std else ErrorFile)
  }

  lemma LaunchStreams(s: State, l: Label, s': State)
    requires Sound(s) && Follows(s, l, s') && l.Launch?
    ensures s'.children[..|s.children|] == s.children && |s'.children| == |s.children| + 1
    ensures StreamsInv(s'.children[|s.children|])
  {
    var ch := NewChild(s, l.path, l.openOk, l.stack, l.pid);
    LaunchDoes(s, l, s', ch);
    LaunchOpens(s, l, s', ch);
    assert forall f: nat :: f <= 2 ==> f in s.fds && s.fds[f] == Std;
  }

  lemma ActionStreams(s: State, l: Label, s': State)
    requires Sound(s) && Follows(s, l, s') && ChildAction(l) && StreamsInv(s.children[l.c])
    ensures l.c < |s'.children| && StreamsInv(s'.children[l.c])
  {
    assert ChildInv(s.children[l.c], |s.pipes|);
    if l.Prepare? { PrepareDoes(s, l, s'); }
    if l.ExecSucceeds? { ExecDoes(s, l, s'); }
  }

  lemma {:induction false} RunStreams(ss: seq<State>, ls: seq<Label>, i: nat, c: nat)
    requires Run(ss, ls) && i < |ss| && c < |ss[i].children|
    ensures StreamsInv(ss[i].children[c])
  {
    if i > 0 {
      var s, l, s' := ss[i - 1], ls[i - 1], ss[i];
      assert StepAt(ss, ls, i - 1);
      RunSound(ss, ls, i - 1);
      if c < |s.children| { RunStreams(ss, ls, i - 1, c); }
      if l.Launch? {
        LaunchStreams(s, l, s');
        if c < |s.children| { assert s'.children[c] == s'.children[..|s.children|][c]; }
      } else if ChildAction(l) {
        ChildActionFrame(s, l, s');
        if l.c == c { ActionStreams(s, l, s'); }
      } else if l.ReadSignal? {
        StepEffects.ReapTells(s, l, s');
      }
    }
  }

  /** A program runs, and a failing child complains, with the error file of its launch as standard
      output, or the daemon's own output when that file could not be opened; its input and error
      streams are the daemon's. */
  lemma OutputIsErrorFile(ss: seq<State>, ls: seq<Label>, i: nat, c: nat)
    requires Run(ss, ls) && i < |ss| && c < |ss[i].children|
    requires var phase := ss[i].children[c].phase; phase.Ready? || phase.Running? || phase.ExecFailed? || phase.Wrote?
    ensures var ch := ss[i].children[c];
            && 0 in ch.fds && ch.fds[0] == Std && 2 in ch.fds && ch.fds[2] == Std
            && 1 in ch.fds && ch.fds[1] == if ch.errFile == 1 then Std else ErrorFile
  {
    RunStreams(ss, ls, i, c);
  }
}
