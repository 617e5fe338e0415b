/** The walk over netlink datagrams (`recv_tcp_diag` and `process_inet_diag` in
    `c/daemon-features/Detect_socket.c`); message headers as in section 2.3.2 of RFC 3549. */
module NetlinkWalk {
  import opened Framing
  import opened Machine
  import opened Options

  datatype SocketState = SOCKET_UNKNOWN | SOCKET_LISTENING | SOCKET_CREATED

  const NLMSG_HDRLEN: nat := 16
  const NLMSG_DONE: nat := 3
  const TCP_ESTABLISHED: nat := 1
  const TCP_LISTEN: nat := 10

  /** The size of `struct inet_diag_msg`. */
  const DIAG_SIZE: nat := 72

  function Align4(n: nat): (r: nat)
    ensures n <= r < n + 4 && r % 4 == 0
  {
    (n + 3) / 4 * 4
  }

  // ----- reading a buffer -----

  /** A byte of the receive buffer; only a kernel message shorter than its type would reach past it. */
  function At(b: bytes, i: nat): int {
    if i < |b| then b[i] else 0
  }

  function LengthAt(b: bytes, p: nat): (n: nat)
    requires p + 4 <= |b|
    ensures n < TWO_32
  {
    FromLe32(b[p..p + 4])
  }

  /** NLMSG_OK, with `len` bytes left from `p` on. */
  predicate Ok(b: bytes, p: nat, len: int)
    requires p + len <= |b|
  {
    len >= NLMSG_HDRLEN && LengthAt(b, p) >= NLMSG_HDRLEN && LengthAt(b, p) <= len
  }

  /** What the loop looks at in one message: its type, and the state and source port of its payload. */
  datatype Seen = Seen(kind: int, state: int, sport: int)

  function SeenAt(b: bytes, p: nat): Seen {
    Seen(At(b, p + 4) + 256 * At(b, p + 5), At(b, p + 17), 256 * At(b, p + 20) + At(b, p + 21))
  }

  /** The messages that NLMSG_OK and NLMSG_NEXT step through. */
  function Walk(b: bytes, p: nat, len: int): seq<Seen>
    requires p + len <= |b|
    decreases len
  {
    if !Ok(b, p, len) then []
    else [SeenAt(b, p)] + Walk(b, p + Align4(LengthAt(b, p)), len - Align4(LengthAt(b, p)))
  }

  /** On any buffer the walk stops exactly where fewer than 16 bytes are left, or the length found there is
      below 16 or beyond what is left. */
  lemma WalkStops(b: bytes, p: nat, len: int)
    requires p + len <= |b|
    ensures Walk(b, p, len) == [] <==> len < 16 || FromLe32(b[p..p + 4]) < 16 || FromLe32(b[p..p + 4]) > len
  {
  }

  /** Otherwise it sees the message there and goes on after its length, rounded up to four. */
  lemma WalkGoesOn(b: bytes, p: nat, len: int, step: int)
    requires p + len <= |b| && Walk(b, p, len) != []
    requires p + 4 <= |b| && step == (FromLe32(b[p..p + 4]) + 3) / 4 * 4
    ensures Walk(b, p, len) == [SeenAt(b, p)] + Walk(b, p + step, len - step)
  {
    assert step == Align4(LengthAt(b, p));
  }

  // ----- processing -----

  function StateOf(s: int): SocketState {
    if s == TCP_ESTABLISHED then SOCKET_CREATED else if s == TCP_LISTEN then SOCKET_LISTENING else SOCKET_UNKNOWN
  }

  /** What the walk leaves behind: whether the end of the dump was met, the `found` flag, and the state
      field (not written until a message is processed). */
  datatype Result = Result(done: bool, found: bool, state: Option<SocketState>)

  /** Where the first end-of-dump message is; the length when there is none. */
  function DoneIndex(kinds: seq<int>): (k: nat)
    ensures k <= |kinds|
    ensures forall i :: 0 <= i < k ==> kinds[i] != NLMSG_DONE
    ensures k < |kinds| ==> kinds[k] == NLMSG_DONE
  {
    if kinds == [] || kinds[0] == NLMSG_DONE then 0 else 1 + DoneIndex(kinds[1..])
  }

  function Kinds(ms: seq<Seen>): (r: seq<int>)
    ensures |r| == |ms| && forall i :: 0 <= i < |r| ==> r[i] == ms[i].kind
  {
    seq(|ms|, i requires 0 <= i < |ms| => ms[i].kind)
  }

  /** The messages before the first end-of-dump message. */
  function BeforeDone(ms: seq<Seen>): seq<Seen> { ms[..DoneIndex(Kinds(ms))] }

  predicate HasDone(ms: seq<Seen>) { DoneIndex(Kinds(ms)) < |ms| }

  predicate HasPort(ms: seq<Seen>, port: int) {
    exists i :: 0 <= i < |ms| && ms[i].sport == port
  }

  /** The result of going through `ms`, from what was known before. */
  function Outcome(ms: seq<Seen>, port: int, found: bool, state: Option<SocketState>): Result {
    var seen := BeforeDone(ms);
    Result(HasDone(ms), found || HasPort(seen, port),
           if seen == [] then state else Some(StateOf(seen[|seen| - 1].state)))
  }

  lemma DoneIndexIs(kinds: seq<int>, k: nat)
    requires k <= |kinds| && forall i :: 0 <= i < k ==> kinds[i] != NLMSG_DONE
    requires k < |kinds| ==> kinds[k] == NLMSG_DONE
    ensures DoneIndex(kinds) == k
  {
  }

  lemma BeforeDoneAppend(a: seq<Seen>, b: seq<Seen>)
    requires !HasDone(a)
    ensures BeforeDone(a + b) == a + BeforeDone(b) && (HasDone(a + b) <==> HasDone(b))
  {
    var k := |a| + DoneIndex(Kinds(b));
    assert Kinds(a + b) == Kinds(a) + Kinds(b);
    DoneIndexIs(Kinds(a + b), k);
    assert (a + b)[..k] == a + b[..k - |a|];
  }

  lemma PortAppend(a: seq<Seen>, b: seq<Seen>, port: int)
    ensures HasPort(a + b, port) <==> HasPort(a, port) || HasPort(b, port)
  {
    if HasPort(a, port) {
      var i :| 0 <= i < |a| && a[i].sport == port;
      assert (a + b)[i].sport == port;
    }
    if HasPort(b, port) {
      var i :| 0 <= i < |b| && b[i].sport == port;
      assert (a + b)[|a| + i].sport == port;
    }
  }

  /** Going on with more messages from the result of the first ones. */
  lemma OutcomeAppend(a: seq<Seen>, b: seq<Seen>, port: int, found: bool, state: Option<SocketState>)
    requires !HasDone(a)
    ensures var r := Outcome(a, port, found, state);
            Outcome(a + b, port, found, state) == Outcome(b, port, r.found, r.state)
  {
    BeforeDoneAppend(a, b);
    assert BeforeDone(a) == a;
    var c := BeforeDone(b);
    PortAppend(a, c, port);
    assert c != [] ==> (a + c)[|a + c| - 1] == c[|c| - 1];
    assert c == [] ==> a + c == a;
  }

  lemma OneMoreSeen(front: seq<Seen>, m: Seen, later: seq<Seen>, port: int, found: bool, state: Option<SocketState>)
    requires m.kind != NLMSG_DONE && !Outcome(front, port, found, state).done
    ensures front + ([m] + later) == front + [m] + later
    ensures Outcome(front + [m], port, found, state) ==
            Result(false, Outcome(front, port, found, state).found || m.sport == port, Some(StateOf(m.state)))
  {
    OutcomeAppend(front, [m], port, found, state);
    DoneIndexIs(Kinds([m]), 1);
    assert BeforeDone([m]) == [m];
    assert HasPort([m], port) <==> [m][0].sport == port;
  }

  lemma EndOfDump(front: seq<Seen>, m: Seen, later: seq<Seen>, port: int, found: bool, state: Option<SocketState>)
    requires m.kind == NLMSG_DONE && !Outcome(front, port, found, state).done
    ensures Outcome(front + ([m] + later), port, found, state) == Outcome(front, port, found, state).(done := true)
  {
    OutcomeAppend(front, [m] + later, port, found, state);
    DoneIndexIs(Kinds([m] + later), 0);
  }

  /** The globals and the struct that the receive loop writes. */
  class Detector {
    var found: bool
    var state: Option<SocketState>

    constructor (found: bool)
      ensures this.found == found && state == None
    {
      this.found, state := found, None;
    }

    /** `process_inet_diag`. */
    method ProcessInetDiag(m: Seen, port: int)
      modifies this
      ensures state == Some(StateOf(m.state)) && found == (old(found) || m.sport == port)
      ensures m.state == 1 ==> state == Some(SOCKET_CREATED)
      ensures m.state == 10 ==> state == Some(SOCKET_LISTENING)
      ensures m.state != 1 && m.state != 10 ==> state == Some(SOCKET_UNKNOWN)
    {
      match m.state {
        case 1 => state := Some(SOCKET_CREATED);
        case 10 => state := Some(SOCKET_LISTENING);
        case _ => state := Some(SOCKET_UNKNOWN);
      }
      if m.sport == port {
        found := true;
      }
    }

    /** The inner loop of `recv_tcp_diag`: it ends on every buffer. */
    method WalkDatagram(b: bytes, port: int) returns (done: bool)
      modifies this
      ensures Result(done, found, state) == Outcome(Walk(b, 0, |b|), port, old(found), old(state))
    {
      var p: nat, len: int := 0, |b|;
      ghost var all := Walk(b, 0, |b|);
      ghost var front: seq<Seen> := [];
      while Ok(b, p, len)
        invariant p + len <= |b|
        invariant all == front + Walk(b, p, len)
        invariant Result(false, found, state) == Outcome(front, port, old(found), old(state))
        decreases len
      {
        var m := SeenAt(b, p);
        ghost var later := Walk(b, p + Align4(LengthAt(b, p)), len - Align4(LengthAt(b, p)));
        if m.kind == NLMSG_DONE {
          EndOfDump(front, m, later, port, old(found), old(state));
          return true;
        }
        OneMoreSeen(front, m, later, port, old(found), old(state));
        ProcessInetDiag(m, port);
        front := front + [m];
        len := len - Align4(LengthAt(b, p));
        p := p + Align4(LengthAt(b, p));
      }
      assert all == front;
      return false;
    }

    /** `recv_tcp_diag` on the datagrams that recvmsg will deliver before it fails or ends. */
    method RecvTcpDiag(datagrams: seq<bytes>, port: int) returns (ret: int)
      modifies this
      ensures Result(ret == 0, found, state) == Outcome(WalkAll(datagrams), port, old(found), old(state))
      ensures ret == 0 || ret == -1
    {
      assert datagrams[0..] == datagrams;
      ghost var front: seq<Seen> := [];
      for i := 0 to |datagrams|
        invariant WalkAll(datagrams) == front + WalkAll(datagrams[i..])
        invariant !HasDone(front) && Result(false, found, state) == Outcome(front, port, old(found), old(state))
      {
        ghost var ms := Walk(datagrams[i], 0, |datagrams[i]|);
        assert datagrams[i..][1..] == datagrams[i + 1..];
        var done := WalkDatagram(datagrams[i], port);
        assert front + (ms + WalkAll(datagrams[i + 1..])) == front + ms + WalkAll(datagrams[i + 1..]);
        OutcomeAppend(front, ms, port, old(found), old(state));
        if done {
          DoneStops(front + ms, WalkAll(datagrams[i + 1..]), port, old(found), old(state));
          return 0;
        }
        BeforeDoneAppend(front, ms);
        front := front + ms;
      }
      assert WalkAll(datagrams) == front;
      return -1;
    }
  }

  /** Nothing after the end of the dump is looked at. */
  lemma DoneStops(a: seq<Seen>, b: seq<Seen>, port: int, found: bool, state: Option<SocketState>)
    requires HasDone(a)
    ensures Outcome(a + b, port, found, state) == Outcome(a, port, found, state)
  {
    DoneStopsBefore(a, b);
  }

  lemma DoneStopsBefore(a: seq<Seen>, b: seq<Seen>)
    requires HasDone(a)
    ensures BeforeDone(a + b) == BeforeDone(a) && HasDone(a + b)
  {
    var k := DoneIndex(Kinds(a));
    assert Kinds(a + b) == Kinds(a) + Kinds(b);
    DoneIndexIs(Kinds(a + b), k);
    assert (a + b)[..k] == a[..k];
  }

  /** The messages of several datagrams, one after the other. */
  function WalkAll(datagrams: seq<bytes>): seq<Seen> {
    if datagrams == [] then [] else Walk(datagrams[0], 0, |datagrams[0]|) + WalkAll(datagrams[1..])
  }

  // ----- concatenated messages -----

  /** A message as the kernel lays it out: length, type, ten bytes the loop ignores, and a payload that
      keeps the length a multiple of four. */
  datatype Message = Message(kind: nat, other: bytes, payload: bytes) {
    predicate Valid() {
      && kind < 65536 && |other| == 10
      && |payload| % 4 == 0 && NLMSG_HDRLEN + |payload| < TWO_32
      && (kind != NLMSG_DONE ==> |payload| >= DIAG_SIZE)
    }

    /** The connection state and the source port of an inet_diag_msg. */
    function State(): int { At(payload, 1) }

    function Sport(): int { 256 * At(payload, 4) + At(payload, 5) }
  }

  function Lay(m: Message): (b: bytes)
    requires m.Valid()
    ensures |b| == Size(m)
  {
    Le32(Size(m)) + [m.kind % 256, m.kind / 256] + m.other + m.payload
  }

  /** A message byte by byte: the numbers of the header little-endian, the port of the payload big-endian. */
  lemma LaidBytes(m: Message)
    requires m.Valid()
    ensures FromLe32(Lay(m)[..4]) == 16 + |m.payload| && Lay(m)[4] == m.kind % 256 && Lay(m)[5] == m.kind / 256
    ensures forall i :: 0 <= i < |m.payload| ==> Lay(m)[16 + i] == m.payload[i]
    ensures |m.payload| >= 6 ==>
              m.State() == m.payload[1] && m.Sport() == 256 * (m.payload[4] as int) + (m.payload[5] as int)
  {
    assert Lay(m)[..4] == Le32(Size(m));
  }

  ghost predicate AllValid(ms: seq<Message>) {
    forall i :: 0 <= i < |ms| ==> ms[i].Valid()
  }

  function LayAll(ms: seq<Message>): bytes
    requires AllValid(ms)
  {
    if ms == [] then [] else Lay(ms[0]) + LayAll(ms[1..])
  }

  /** What the walk sees of a message: for the end of the dump only its type matters. */
  predicate Shows(s: Seen, m: Message) {
    && s.kind == m.kind
    && (m.kind != NLMSG_DONE ==> s.state == m.State() && s.sport == m.Sport())
  }

  /** The length of a message in the buffer. */
  function Size(m: Message): nat { NLMSG_HDRLEN + |m.payload| }

  lemma LaidOut(b: bytes, p: nat, m: Message)
    requires m.Valid() && p + Size(m) <= |b| && b[p..p + Size(m)] == Lay(m)
    ensures LengthAt(b, p) == Size(m) && Shows(SeenAt(b, p), m)
  {
    var l := Lay(m);
    assert forall i :: 0 <= i < |l| ==> b[p + i] == b[p..p + Size(m)][i] == l[i];
    assert l[..4] == Le32(Size(m));
    assert b[p..p + 4] == b[p..p + Size(m)][..4];
    assert l[4] == m.kind % 256 && l[5] == m.kind / 256;
    assert m.kind != NLMSG_DONE ==> l[17] == m.payload[1] && l[20] == m.payload[4] && l[21] == m.payload[5];
  }

  ghost predicate AllShow(seen: seq<Seen>, ms: seq<Message>) {
    |seen| == |ms| && forall i :: 0 <= i < |ms| ==> Shows(seen[i], ms[i])
  }

  /** What the walk finds where a message has been laid out. */
  ghost predicate Finds(b: bytes, p: nat, m: Message) {
    p + Size(m) <= |b| && Size(m) % 4 == 0 && LengthAt(b, p) == Size(m) && Shows(SeenAt(b, p), m)
  }

  /** From `p` to its end, the buffer holds the messages. */
  ghost predicate Holds(b: bytes, p: nat, ms: seq<Message>)
    decreases |ms|
  {
    if ms == [] then p == |b| else Finds(b, p, ms[0]) && Holds(b, p + Size(ms[0]), ms[1..])
  }

  lemma SplitAt(b: bytes, p: nat, front: bytes, more: bytes)
    requires p <= |b| && b[p..] == front + more
    ensures p + |front| <= |b| && b[p..p + |front|] == front && b[p + |front|..] == more
  {
    var rest := b[p..];
    assert b[p..p + |front|] == rest[..|front|];
    assert b[p + |front|..] == rest[|front|..];
  }

  lemma FoundFirst(b: bytes, p: nat, m: Message, more: bytes)
    requires m.Valid() && p <= |b| && b[p..] == Lay(m) + more
    ensures Finds(b, p, m) && b[p + Size(m)..] == more
  {
    SplitAt(b, p, Lay(m), more);
    LaidOut(b, p, m);
  }

  lemma {:induction false} LaidMeansHolds(b: bytes, p: nat, ms: seq<Message>)
    requires AllValid(ms) && p <= |b| && b[p..] == LayAll(ms)
    ensures Holds(b, p, ms)
    decreases |ms|
  {
    if ms != [] {
      FoundFirst(b, p, ms[0], LayAll(ms[1..]));
      LaidMeansHolds(b, p + Size(ms[0]), ms[1..]);
    }
  }

  /** One step of the walk. */
  lemma WalkStep(b: bytes, p: nat, m: Message)
    requires Finds(b, p, m)
    ensures Walk(b, p, |b| - p) == [SeenAt(b, p)] + Walk(b, p + Size(m), |b| - (p + Size(m)))
  {
    assert Align4(Size(m)) == Size(m);
    assert |b| - p - Size(m) == |b| - (p + Size(m));
  }

  /** On any concatenation of complete messages, the walk sees exactly those messages, in order. */
  lemma {:induction false} WalkSeesAll(b: bytes, p: nat, ms: seq<Message>)
    requires Holds(b, p, ms)
    ensures p <= |b| && AllShow(Walk(b, p, |b| - p), ms)
    decreases |ms|
  {
    if ms != [] {
      var q := p + Size(ms[0]);
      WalkSeesAll(b, q, ms[1..]);
      WalkStep(b, p, ms[0]);
      ShowCons(SeenAt(b, p), Walk(b, q, |b| - q), ms);
    }
  }

  lemma ShowCons(s: Seen, seen: seq<Seen>, ms: seq<Message>)
    requires ms != [] && Shows(s, ms[0]) && AllShow(seen, ms[1..])
    ensures AllShow([s] + seen, ms)
  {
    forall i | 0 <= i < |ms|
      ensures Shows(([s] + seen)[i], ms[i])
    {
      if i > 0 { assert Shows(seen[i - 1], ms[1..][i - 1]); }
    }
  }

  /** The messages before the first end of the dump. */
  function Relevant(ms: seq<Message>): (r: seq<Message>)
    ensures r <= ms
    ensures forall i :: 0 <= i < |r| ==> r[i].kind != NLMSG_DONE
    ensures |r| < |ms| ==> ms[|r|].kind == NLMSG_DONE
  {
    if ms == [] || ms[0].kind == NLMSG_DONE then [] else [ms[0]] + Relevant(ms[1..])
  }

  lemma BeforeDoneShows(seen: seq<Seen>, ms: seq<Message>)
    requires AllShow(seen, ms)
    ensures AllShow(BeforeDone(seen), Relevant(ms))
    ensures HasDone(seen) <==> exists i :: 0 <= i < |ms| && ms[i].kind == NLMSG_DONE
  {
    var n := |Relevant(ms)|;
    forall i | 0 <= i < |ms|
      ensures Kinds(seen)[i] == ms[i].kind
    {
      assert Shows(seen[i], ms[i]);
    }
    assert forall i :: 0 <= i < n ==> Relevant(ms)[i] == ms[i];
    DoneIndexIs(Kinds(seen), n);
  }

  /** Starting from not found, a datagram of complete messages sets `found` exactly when one of those
      before the first end-of-dump message has the watched source port; the state is that of the last
      of them; and the loop reports the end exactly when there is such a message. */
  ghost predicate Judged(r: Result, ms: seq<Message>, port: int, state: Option<SocketState>) {
    var seen := Relevant(ms);
    && (r.done <==> exists i :: 0 <= i < |ms| && ms[i].kind == NLMSG_DONE)
    && (r.found <==> exists i :: 0 <= i < |seen| && seen[i].Sport() == port)
    && (seen == [] ==> r.state == state)
    && (seen != [] ==>
      var b := seen[|seen| - 1].State();
      r.state == Some(if b == 1 then SOCKET_CREATED else if b == 10 then SOCKET_LISTENING else SOCKET_UNKNOWN))
  }

  lemma DatagramOutcome(b: bytes, ms: seq<Message>, port: int, state: Option<SocketState>)
    requires AllValid(ms) && b == LayAll(ms)
    ensures Judged(Outcome(Walk(b, 0, |b|), port, false, state), ms, port, state)
  {
    assert b[0..] == b;
    LaidMeansHolds(b, 0, ms);
    HeldOutcome(b, 0, |b|, ms, port, state);
  }

  lemma HeldOutcome(b: bytes, p: nat, len: int, ms: seq<Message>, port: int, state: Option<SocketState>)
    requires Holds(b, p, ms) && p + len == |b|
    ensures Judged(Outcome(Walk(b, p, len), port, false, state), ms, port, state)
  {
    WalkSeesAll(b, p, ms);
    OutcomeShows(Walk(b, p, len), ms, port, state);
  }

  /** The state that is left, by the state byte of the last message before the end of the dump. */
  lemma StateIs(all: seq<Seen>, port: int, state: Option<SocketState>)
    ensures var seen, s := BeforeDone(all), Outcome(all, port, false, state).state;
            if seen == [] then s == state
            else
              var b := seen[|seen| - 1].state;
              s == Some(if b == 1 then SOCKET_CREATED else if b == 10 then SOCKET_LISTENING else SOCKET_UNKNOWN)
  {
  }

  lemma OutcomeShows(all: seq<Seen>, ms: seq<Message>, port: int, state: Option<SocketState>)
    requires AllShow(all, ms)
    ensures Judged(Outcome(all, port, false, state), ms, port, state)
  {
    BeforeDoneShows(all, ms);
    PortShows(BeforeDone(all), Relevant(ms), port);
    StateIs(all, port, state);
  }

  lemma PortShows(seen: seq<Seen>, ms: seq<Message>, port: int)
    requires AllShow(seen, ms) && forall i :: 0 <= i < |ms| ==> ms[i].kind != NLMSG_DONE
    ensures HasPort(seen, port) <==> exists i :: 0 <= i < |ms| && ms[i].Sport() == port
    ensures ms != [] ==> seen[|seen| - 1].state == ms[|ms| - 1].State()
  {
    assert forall i :: 0 <= i < |ms| ==> Shows(seen[i], ms[i]) && seen[i].sport == ms[i].Sport();
  }
}
