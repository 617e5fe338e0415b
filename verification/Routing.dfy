/** Where the daemon's messages go, with any number of clients, and who is there to hear them. */
module Routing {
  import opened Options
  import opened DaemonState
  import opened PipeSafety
  import opened TraceSafety

  /** The descriptor that the last accept before step `i` returned. */
  ghost function LastAccepted(ss: seq<State>, ls: seq<Label>, i: nat): Option<nat>
    requires i < |ss| == |ls| + 1
  {
    if i == 0 then None
    else if ls[i - 1].Accept? then Some(LowestFree(ss[i - 1].fds.Keys))
    else LastAccepted(ss, ls, i - 1)
  }

  /** There is a client accepted last before step `i`, and it has not hung up since. */
  ghost predicate LastClientThere(ss: seq<State>, ls: seq<Label>, i: nat)
    requires i < |ss| == |ls| + 1
  {
    && i > 0
    && (ls[i - 1].Accept? ||
        (LastClientThere(ss, ls, i - 1) && !(ls[i - 1].Hangup? && Some(ls[i - 1].fd) == LastAccepted(ss, ls, i - 1))))
  }

  /** Something sent to `dest` arrives at a client: it is an open connection. */
  predicate Reaches(s: State, dest: Option<nat>) {
    dest.Some? && dest.value in s.fds && s.fds[dest.value] == Connection
  }

  /** The steps that answer a client: these messages do not go to `communication_socket`. */
  predicate Answers(l: Label) {
    l.Launch? || l.LaunchFails? || l.WatchPath? || l.Accept?
  }

  /** Whom step `i` writes to: the connection a request came from, the client just accepted, or, for the
      reports, whoever was accepted last. */
  ghost function Addressee(ss: seq<State>, ls: seq<Label>, i: nat): Option<nat>
    requires i < |ls| && |ss| == |ls| + 1
  {
    var l := ls[i];
    if l.Accept? then Some(LowestFree(ss[i].fds.Keys))
    else if Answers(l) then Some(l.conn)
    else LastAccepted(ss, ls, i)
  }

  /** Only an accept changes `communication_socket`, and only its hang-up takes the client away from it. */
  lemma StepReaches(s: State, l: Label, s': State)
    requires Sound(s) && Follows(s, l, s')
    ensures l.Accept? ==> s'.comm == Some(LowestFree(s.fds.Keys)) && Reaches(s', s'.comm)
    ensures !l.Accept? ==>
              && s'.comm == s.comm
              && (Reaches(s', s'.comm) <==> Reaches(s, s.comm) && !(l.Hangup? && Some(l.fd) == s.comm))
    ensures Answers(l) && !l.Accept? ==> Reaches(s', Some(l.conn))
  {
    if ChildAction(l) {
      ChildActionFrame(s, l, s');
    } else if l.ReadSignal? {
      ReapReaches(s, l, s', s.comm);
    } else if l.Launch? {
      assert RegOk(l.conn, s.regs[l.conn], s.children, s.pipes, s.fds);
      LaunchReaches(s, l, s', s.comm);
      LaunchReaches(s, l, s', Some(l.conn));
    } else if Answers(l) && !l.Accept? {
      assert RegOk(l.conn, s.regs[l.conn], s.children, s.pipes, s.fds);
    }
  }

  lemma ReapReaches(s: State, l: Label, s': State, dest: Option<nat>)
    requires l.ReadSignal? && Follows(s, l, s')
    ensures s'.comm == s.comm && (Reaches(s', dest) <==> Reaches(s, dest))
  {
  }

  lemma LaunchReaches(s: State, l: Label, s': State, dest: Option<nat>)
    requires l.Launch? && Follows(s, l, s')
    ensures s'.comm == s.comm && (Reaches(s', dest) <==> Reaches(s, dest))
  {
  }

  /** At every point of every run, `communication_socket` names an open connection exactly when the
      client accepted last has not hung up since; otherwise its number is closed, or reused for
      something that is not a connection. */
  lemma {:induction false} ReachesIffThere(ss: seq<State>, ls: seq<Label>, i: nat)
    requires Run(ss, ls) && i < |ss|
    ensures ss[i].comm == LastAccepted(ss, ls, i)
    ensures Reaches(ss[i], ss[i].comm) <==> LastClientThere(ss, ls, i)
  {
    if i > 0 {
      ReachesIffThere(ss, ls, i - 1);
      RunSound(ss, ls, i - 1);
      assert StepAt(ss, ls, i - 1);
      StepReaches(ss[i - 1], ls[i - 1], ss[i]);
    }
  }

  /** With any number of clients: a step sends at most one message, to its addressee.  An answer arrives;
      a report arrives exactly when the client accepted last has not hung up since. */
  lemma MessageRouted(ss: seq<State>, ls: seq<Label>, i: nat)
    requires Run(ss, ls) && i < |ls|
    ensures |ss[i].out| <= |ss[i + 1].out| <= |ss[i].out| + 1 && ss[i].out <= ss[i + 1].out
    ensures |ss[i + 1].out| > |ss[i].out| ==>
              var dest := ss[i + 1].out[|ss[i].out|].dest;
              && dest == Addressee(ss, ls, i)
              && (Reaches(ss[i + 1], dest) <==> Answers(ls[i]) || LastClientThere(ss, ls, i))
  {
    ReachesIffThere(ss, ls, i);
    RunSound(ss, ls, i);
    assert StepAt(ss, ls, i);
    StepReaches(ss[i], ls[i], ss[i + 1]);
    if ChildAction(ls[i]) { ChildActionFrame(ss[i], ls[i], ss[i + 1]); }
  }

  // ----- a single client -----

  /** While there has been only one client, every message is sent on its descriptor. */
  ghost predicate DestInv(s: State) {
    && (s.accepted == 0 ==> s.out == [] && s.children == [])
    && (s.accepted > 0 ==> s.comm.Some?)
    && (s.accepted == 0 ==> forall f :: f in s.regs ==> !s.regs[f].Conn?)
    && (s.accepted == 1 ==> forall f :: f in s.regs && s.regs[f].Conn? ==> s.comm == Some(f))
    && (s.accepted == 1 ==> forall k :: 0 <= k < |s.out| ==> s.out[k].dest == s.comm)
  }

  lemma StepKeepsDest(s: State, l: Label, s': State)
    requires Sound(s) && DestInv(s) && Follows(s, l, s')
    ensures DestInv(s')
  {
    if ChildAction(l) { ChildActionFrame(s, l, s'); }
    if l.ReadReport? { RegisteredOnce(s, l.fd); }
  }

  ghost predicate NobodyHungUp(ls: seq<Label>, i: nat) {
    forall k :: 0 <= k < i && k < |ls| ==> !ls[k].Hangup?
  }

  /** With a single client, every message of every run is sent on the descriptor of that client's
      connection, which is open exactly until the first hang-up of the run. */
  lemma {:induction false} SingleClient(ss: seq<State>, ls: seq<Label>, i: nat)
    requires Run(ss, ls) && i < |ss|
    ensures DestInv(ss[i])
    ensures ss[i].accepted <= 1 ==>
              forall k :: 0 <= k < |ss[i].out| ==> ss[i].comm.Some? && ss[i].out[k].dest == ss[i].comm
    ensures ss[i].accepted == 0 ==> NobodyHungUp(ls, i)
    ensures ss[i].accepted == 1 ==> (Reaches(ss[i], ss[i].comm) <==> NobodyHungUp(ls, i))
  {
    if i > 0 {
      SingleClient(ss, ls, i - 1);
      RunSound(ss, ls, i - 1);
      assert StepAt(ss, ls, i - 1);
      StepKeepsDest(ss[i - 1], ls[i - 1], ss[i]);
      StepReaches(ss[i - 1], ls[i - 1], ss[i]);
      StepAccepts(ss[i - 1], ls[i - 1], ss[i]);
      assert NobodyHungUp(ls, i) <==> NobodyHungUp(ls, i - 1) && !ls[i - 1].Hangup?;
    }
  }

  lemma StepAccepts(s: State, l: Label, s': State)
    requires Follows(s, l, s')
    ensures s'.accepted == if l.Accept? then s.accepted + 1 else s.accepted
  {
    if ChildAction(l) { ChildActionFrame(s, l, s'); }
  }
}
