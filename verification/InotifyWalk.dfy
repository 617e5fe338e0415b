/** The walk over a buffer of packed inotify records (`handle_inotify_event` and `process_Event` in
    `c/daemon-features/events.c`). */
module InotifyWalk {
  import opened Framing
  import opened Machine
  import opened Options

  /** One `struct inotify_event`: a 16-byte header that ends with the length of the name. */
  datatype Record = Record(wd: nat, mask: nat, cookie: nat, name: bytes) {
    predicate Valid() { wd < TWO_32 && mask < TWO_32 && cookie < TWO_32 && |name| < TWO_32 }
  }

  const HEADER: nat := 16

  function Pack(r: Record): (b: bytes)
    requires r.Valid()
    ensures |b| == HEADER + |r.name|
  {
    Le32(r.wd) + Le32(r.mask) + Le32(r.cookie) + Le32(|r.name|) + r.name
  }

  ghost predicate AllValid(rs: seq<Record>) {
    forall i :: 0 <= i < |rs| ==> rs[i].Valid()
  }

  function PackAll(rs: seq<Record>): bytes
    requires AllValid(rs)
  {
    if rs == [] then [] else Pack(rs[0]) + PackAll(rs[1..])
  }

  // ----- events -----

  datatype InotifyEvent = MODIFIED | CREATED | SIZE_REACHED | DELETED | ACCESSED

  /** The message for one record; its event is undefined until some record had a recognised bit. */
  datatype Update = Update(path: bytes, event: Option<InotifyEvent>, size: int, sizeLimit: int)

  predicate Has(mask: nat, bit: nat)
    requires bit > 0
  {
    mask / bit % 2 == 1
  }

  const IN_ACCESS: nat := 0x1
  const IN_MODIFY: nat := 0x2
  const IN_CREATE: nat := 0x100
  const IN_DELETE: nat := 0x200

  /** `findSize`: the file size cut to an int, or -1 when stat finds no such file. */
  function FindSize(answer: Option<nat>): int {
    match answer
    case Some(size) => AsI32(size)
    case None => -1
  }

  predicate Recognised(mask: nat) {
    Has(mask, IN_MODIFY) || Has(mask, IN_DELETE) || Has(mask, IN_CREATE) || Has(mask, IN_ACCESS)
  }

  /** The event of a record with a recognised bit: MODIFY over DELETE over CREATE over ACCESS; `answer`
      is what stat says of the file when the record is handled. */
  function EventOf(mask: nat, limit: int, answer: Option<nat>): InotifyEvent
    requires Recognised(mask)
  {
    if Has(mask, IN_MODIFY) then
      if AsU32(FindSize(answer)) > AsU32(limit) then SIZE_REACHED else MODIFIED
    else if Has(mask, IN_DELETE) then DELETED
    else if Has(mask, IN_CREATE) then CREATED
    else ACCESSED
  }

  /** For every limit that a client can ask for and every file: the limit is reported as reached exactly
      when the file was modified and its size modulo 2^32 is larger or, if there is no such file, when
      the limit is not the largest unsigned number. */
  lemma SizeReachedExactly(mask: nat, wanted: nat, answer: Option<nat>)
    requires Recognised(mask) && wanted < TWO_32
    ensures EventOf(mask, AsI32(wanted), answer) == SIZE_REACHED <==>
            && Has(mask, IN_MODIFY)
            && match answer
               case Some(size) => size % TWO_32 > wanted
               case None => wanted < TWO_32 - 1
  {
    SignedAndBack(wanted);
    match answer
    case Some(size) => SignedAndBack(size);
    case None => assert AsU32(-1) == TWO_32 - 1;
  }

  /** For a file that exists, with a size below 2^32: reached means modified and larger. */
  lemma SizeReachedIff(mask: nat, wanted: nat, size: nat)
    requires Recognised(mask) && wanted < TWO_32 && size < TWO_32
    ensures EventOf(mask, AsI32(wanted), Some(size)) == SIZE_REACHED <==> Has(mask, IN_MODIFY) && size > wanted
  {
    SizeReachedExactly(mask, wanted, Some(size));
  }

  /** For a file that no longer exists, a modification reports every limit but the largest as reached:
      the size -1 becomes the largest unsigned number. */
  lemma MissingFileReachesLimit(mask: nat, wanted: nat)
    requires Has(mask, IN_MODIFY) && wanted < TWO_32
    ensures AsU32(FindSize(None)) == TWO_32 - 1
    ensures EventOf(mask, AsI32(wanted), None) == if wanted < TWO_32 - 1 then SIZE_REACHED else MODIFIED
  {
    SizeReachedExactly(mask, wanted, None);
  }

  /** A modified file of exactly 4 GiB reaches no limit at all: its size is cut to 0. */
  lemma FourGiBReachesNothing(mask: nat, wanted: nat)
    requires Has(mask, IN_MODIFY) && wanted < TWO_32
    ensures EventOf(mask, AsI32(wanted), Some(TWO_32)) == MODIFIED
  {
    SizeReachedExactly(mask, wanted, Some(TWO_32));
  }

  // ----- what must be sent -----

  /** The name as C reads it: it runs on into whatever follows when the record has no NUL of its own. */
  function PathOf(rs: seq<Record>, leftover: bytes, i: nat): bytes
    requires AllValid(rs) && i < |rs|
  {
    CString(0, rs[i].name + (PackAll(rs[i + 1..]) + leftover))
  }

  /** The event of the latest record up to `i` with a recognised bit. */
  function LatestEvent(rs: seq<Record>, limit: int, answers: seq<Option<nat>>, i: int): Option<InotifyEvent>
    requires AllValid(rs) && |answers| == |rs| && -1 <= i < |rs|
    decreases i + 1
  {
    if i < 0 then None
    else if Recognised(rs[i].mask) then Some(EventOf(rs[i].mask, limit, answers[i]))
    else LatestEvent(rs, limit, answers, i - 1)
  }

  function UpdateFor(rs: seq<Record>, leftover: bytes, limit: int, answers: seq<Option<nat>>, i: nat): Update
    requires AllValid(rs) && i < |rs| == |answers|
  {
    Update(PathOf(rs, leftover, i), LatestEvent(rs, limit, answers, i),
           AsU32(if Has(rs[i].mask, IN_MODIFY) then FindSize(answers[i]) else limit), AsU32(limit))
  }

  /** A NUL-terminated name is reported as it is, whatever follows in the buffer. */
  lemma TerminatedPath(rs: seq<Record>, leftover: bytes, i: nat)
    requires AllValid(rs) && i < |rs| && 0 in rs[i].name
    ensures PathOf(rs, leftover, i) == CString(0, rs[i].name)
  {
    CStringOfTerminated(0, rs[i].name, PackAll(rs[i + 1..]) + leftover);
  }

  // ----- the walk -----

  /** The fields of the record at the front of `b`. */
  lemma HeaderFields(b: bytes, r: Record, more: bytes)
    requires r.Valid() && b == Pack(r) + more
    ensures |b| >= HEADER
    ensures FromLe32(b[4..8]) == r.mask && FromLe32(b[12..16]) == |r.name|
    ensures b[HEADER..] == r.name + more && b[HEADER + |r.name|..] == more
  {
    assert b[4..8] == Le32(r.mask);
    assert b[12..16] == Le32(|r.name|);
  }

  /** The loop stands at `p`, where record `k` starts. */
  ghost predicate StandsAt(buf: bytes, p: nat, rs: seq<Record>, k: nat, leftover: bytes)
    requires AllValid(rs)
  {
    k <= |rs| && p <= |buf| && buf[p..] == PackAll(rs[k..]) + leftover
  }

  /** What the loop finds where record `k` starts. */
  lemma RecordAt(buf: bytes, p: nat, rs: seq<Record>, k: nat, leftover: bytes)
    requires AllValid(rs) && k < |rs| && StandsAt(buf, p, rs, k, leftover)
    ensures p + HEADER + |rs[k].name| <= |buf| - |leftover|
    ensures FromLe32(buf[p + 4..p + 8]) == rs[k].mask && FromLe32(buf[p + 12..p + 16]) == |rs[k].name|
    ensures CString(0, buf[p + HEADER..]) == PathOf(rs, leftover, k)
    ensures StandsAt(buf, p + HEADER + |rs[k].name|, rs, k + 1, leftover)
  {
    var more := PackAll(rs[k + 1..]) + leftover;
    assert rs[k..][1..] == rs[k + 1..];
    var b := buf[p..];
    assert b == Pack(rs[k]) + more;
    HeaderFields(b, rs[k], more);
    assert buf[p + 4..p + 8] == b[4..8] && buf[p + 12..p + 16] == b[12..16];
    assert buf[p + HEADER..] == b[HEADER..];
    assert buf[p + HEADER + |rs[k].name|..] == b[HEADER + |rs[k].name|..];
  }

  /** The struct that `handle_inotify_event` keeps across records. */
  class Info {
    var path: bytes
    var event: Option<InotifyEvent>
    var size: int
    var sizeLimit: int

    constructor ()
      ensures event == None
    {
      path, event, size, sizeLimit := [], None, 0, 0;
    }

    /** `process_Event`; `answer` is what its call of stat returns, if it makes one. */
    method ProcessEvent(mask: nat, name: bytes, limit: int, answer: Option<nat>)
      modifies this
      ensures path == name && sizeLimit == AsU32(limit)
      ensures event == if Recognised(mask) then Some(EventOf(mask, limit, answer)) else old(event)
      ensures Marked(mask) ==> event.Some? && FitsMask(event.value, mask)
      ensures size == AsU32(if Has(mask, IN_MODIFY) then FindSize(answer) else limit)
    {
      path := name;
      sizeLimit := AsU32(limit);
      size := AsU32(limit);
      if Has(mask, IN_ACCESS) { event := Some(ACCESSED); }
      if Has(mask, IN_CREATE) { event := Some(CREATED); }
      if Has(mask, IN_DELETE) { event := Some(DELETED); }
      if Has(mask, IN_MODIFY) {
        event := Some(MODIFIED);
        size := AsU32(FindSize(answer));
        if size > AsU32(limit) {
          event := Some(SIZE_REACHED);
        }
      }
      MarkedIsRecognised(mask);
    }
  }

  // ----- what the updates say, by the bits of the masks -----

  /** The mask has one of the bits for access, modification, creation and deletion. */
  predicate Marked(mask: nat) {
    mask % 2 == 1 || mask / 0x2 % 2 == 1 || mask / 0x100 % 2 == 1 || mask / 0x200 % 2 == 1
  }

  /** `j` is the latest record up to `i` with such a bit. */
  ghost predicate LatestMarked(rs: seq<Record>, j: int, i: int) {
    0 <= j <= i < |rs| && Marked(rs[j].mask) && forall k :: j < k <= i ==> !Marked(rs[k].mask)
  }

  ghost predicate NoneMarked(rs: seq<Record>, i: nat)
    requires i < |rs|
  {
    forall k :: 0 <= k <= i ==> !Marked(rs[k].mask)
  }

  /** Modification over deletion over creation over access. */
  predicate FitsMask(e: InotifyEvent, mask: nat) {
    if mask / 0x2 % 2 == 1 then e == MODIFIED || e == SIZE_REACHED
    else if mask / 0x200 % 2 == 1 then e == DELETED
    else if mask / 0x100 % 2 == 1 then e == CREATED
    else e == ACCESSED
  }

  /** The size is that of the file, modulo 2^32, after a modification, and the limit otherwise. */
  predicate FitsFile(u: Update, r: Record, limit: int, answer: Option<nat>) {
    && u.sizeLimit == limit % 0x1_0000_0000
    && (r.mask / 0x2 % 2 != 1 ==> u.size == limit % 0x1_0000_0000)
    && (r.mask / 0x2 % 2 == 1 ==>
      u.size == match answer case Some(size) => size % 0x1_0000_0000 case None => 0xFFFF_FFFF)
    && (0 in r.name ==> u.path == CString(0, r.name))
  }

  lemma MarkedIsRecognised(mask: nat)
    ensures Marked(mask) <==> Recognised(mask)
  {
    assert mask / 1 == mask;
  }

  lemma {:induction false} LatestFits(rs: seq<Record>, limit: int, answers: seq<Option<nat>>, i: nat, j: nat)
    requires AllValid(rs) && |answers| == |rs| && LatestMarked(rs, j, i)
    ensures LatestEvent(rs, limit, answers, i).Some? && FitsMask(LatestEvent(rs, limit, answers, i).value, rs[j].mask)
    decreases i
  {
    MarkedIsRecognised(rs[i].mask);
    if j < i { LatestFits(rs, limit, answers, i - 1, j); }
  }

  lemma {:induction false} NoneFits(rs: seq<Record>, limit: int, answers: seq<Option<nat>>, i: nat)
    requires AllValid(rs) && i < |rs| == |answers| && NoneMarked(rs, i)
    ensures LatestEvent(rs, limit, answers, i).None?
    decreases i
  {
    MarkedIsRecognised(rs[i].mask);
    if i > 0 { NoneFits(rs, limit, answers, i - 1); }
  }

  lemma UpdateFits(rs: seq<Record>, leftover: bytes, limit: int, answers: seq<Option<nat>>, i: nat)
    requires AllValid(rs) && i < |rs| == |answers|
    ensures FitsFile(UpdateFor(rs, leftover, limit, answers, i), rs[i], limit, answers[i])
  {
    if answers[i].Some? { SignedAndBack(answers[i].value); }
    if 0 in rs[i].name { TerminatedPath(rs, leftover, i); }
  }

  /** The loop ends with the records. */
  lemma EndsTogether(buf: bytes, p: nat, rs: seq<Record>, k: nat, leftover: bytes)
    requires AllValid(rs) && StandsAt(buf, p, rs, k, leftover)
    ensures p + |leftover| == |buf| <==> k == |rs|
  {
    if k < |rs| { assert |PackAll(rs[k..])| > 0; }
  }

  /** The first messages sent are those of the records passed, and `event` is the latest event. */
  ghost predicate SentSoFar(sent: seq<Update>, event: Option<InotifyEvent>,
                            rs: seq<Record>, k: nat, leftover: bytes, limit: int, answers: seq<Option<nat>>)
    requires AllValid(rs) && k <= |rs| == |answers|
  {
    && event == LatestEvent(rs, limit, answers, k - 1)
    && |sent| == k && forall i :: 0 <= i < k ==> sent[i] == UpdateFor(rs, leftover, limit, answers, i)
  }

  lemma OneMoreSent(sent: seq<Update>, event: Option<InotifyEvent>, u: Update,
                    rs: seq<Record>, k: nat, leftover: bytes, limit: int, answers: seq<Option<nat>>)
    requires AllValid(rs) && k < |rs| == |answers| && SentSoFar(sent, event, rs, k, leftover, limit, answers)
    requires u.event == if Recognised(rs[k].mask) then Some(EventOf(rs[k].mask, limit, answers[k])) else event
    requires u.path == PathOf(rs, leftover, k) && u.sizeLimit == AsU32(limit)
    requires u.size == AsU32(if Has(rs[k].mask, IN_MODIFY) then FindSize(answers[k]) else limit)
    ensures SentSoFar(sent + [u], u.event, rs, k + 1, leftover, limit, answers)
  {
    assert u == UpdateFor(rs, leftover, limit, answers, k);
  }

  /** `handle_inotify_event` on a buffer of which read filled the first `s` bytes with whole records,
      stat giving a fresh answer for each: it ends, exactly at `s`, and sends one message for each record,
      in order. */
  method HandleInotifyEvent(buf: bytes, s: nat, limit: int, answers: seq<Option<nat>>, ghost rs: seq<Record>)
    returns (sent: seq<Update>, end: nat)
    requires AllValid(rs) && |answers| == |rs| && s <= |buf| && buf[..s] == PackAll(rs)
    ensures end == s && |sent| == |rs|
    ensures forall i :: 0 <= i < |rs| ==> sent[i] == UpdateFor(rs, buf[s..], limit, answers, i)
    ensures forall i, j :: LatestMarked(rs, j, i) ==> sent[i].event.Some? && FitsMask(sent[i].event.value, rs[j].mask)
    ensures forall i :: 0 <= i < |rs| && NoneMarked(rs, i) ==> sent[i].event.None?
    ensures forall i :: 0 <= i < |rs| ==> FitsFile(sent[i], rs[i], limit, answers[i])
  {
    var info := new Info();
    sent := [];
    ghost var leftover := buf[s..];
    ghost var k := 0;
    var p := 0;
    assert buf[0..] == buf[..s] + leftover;
    while p < s
      invariant p <= s && StandsAt(buf, p, rs, k, leftover)
      invariant SentSoFar(sent, info.event, rs, k, leftover, limit, answers)
      decreases s - p
    {
      EndsTogether(buf, p, rs, k, leftover);
      RecordAt(buf, p, rs, k, leftover);
      var mask := FromLe32(buf[p + 4..p + 8]);
      var len := FromLe32(buf[p + 12..p + 16]);
      var name := CString(0, buf[p + HEADER..]);
      ghost var before := info.event;
      info.ProcessEvent(mask, name, limit, answers[|sent|]);
      var update := Update(info.path, info.event, info.size, info.sizeLimit);
      OneMoreSent(sent, before, update, rs, k, leftover, limit, answers);
      sent := sent + [update];
      p := p + HEADER + len;
      k := k + 1;
    }
    end := p;
    EndsTogether(buf, p, rs, k, leftover);
    forall i, j | LatestMarked(rs, j, i)
      ensures sent[i].event.Some? && FitsMask(sent[i].event.value, rs[j].mask)
    {
      LatestFits(rs, limit, answers, i, j);
    }
    forall i | 0 <= i < |rs|
      ensures FitsFile(sent[i], rs[i], limit, answers[i]) && (NoneMarked(rs, i) ==> sent[i].event.None?)
    {
      UpdateFits(rs, leftover, limit, answers, i);
      if NoneMarked(rs, i) { NoneFits(rs, limit, answers, i); }
    }
  }
}
