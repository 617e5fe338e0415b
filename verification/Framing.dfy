/** Length-prefixed frames, as both daemons write them (`c/daemon-features/Network.c`,
    `rust/src/bin/main.rs`) and as the receiving loops take a byte stream apart again. */
module Framing {
  import opened Machine
  import opened Options

  type byte = x: int | 0 <= x < 256

  type bytes = seq<byte>

  // ----- 32-bit little-endian numbers -----

  function Le32(n: nat): (r: bytes)
    requires n < TWO_32
    ensures |r| == 4 && FromLe32(r) == n
  {
    var n1 := n / 256;
    var n2 := n1 / 256;
    [n % 256, n1 % 256, n2 % 256, n2 / 256]
  }

  function FromLe32(b: bytes): (n: nat)
    requires |b| == 4
    ensures n < TWO_32
  {
    var b0: int, b1: int, b2: int, b3: int := b[0], b[1], b[2], b[3];
    b0 + 256 * (b1 + 256 * (b2 + 256 * b3))
  }

  lemma Le32Inverse(b: bytes)
    requires |b| == 4
    ensures Le32(FromLe32(b)) == b
  {
    var b0: int, b1: int, b2: int, b3: int := b[0], b[1], b[2], b[3];
    var n := FromLe32(b);
    assert n % 256 == b0 && n / 256 == b1 + 256 * (b2 + 256 * b3);
    var n1 := n / 256;
    assert n1 % 256 == b1 && n1 / 256 == b2 + 256 * b3;
  }

  /** The first byte is the lowest. */
  lemma LittleEndian(b: bytes)
    requires |b| == 4
    ensures FromLe32(b) == (b[0] as int) + 256 * (b[1] as int) + 65536 * (b[2] as int) + 16777216 * (b[3] as int)
  {
  }

  // ----- frames -----

  /** One frame: the length cut to 32 bits, then the message. */
  function Frame(m: bytes): (r: bytes)
    ensures |r| == 4 + |m|
  {
    Le32(|m| % TWO_32) + m
  }

  /** A frame byte by byte. */
  lemma FrameBytes(m: bytes)
    ensures Frame(m)[0] == |m| % 256 && Frame(m)[1] == |m| / 256 % 256
    ensures Frame(m)[2] == |m| / 65536 % 256 && Frame(m)[3] == |m| / 16777216 % 256
    ensures forall i :: 0 <= i < |m| ==> Frame(m)[4 + i] == m[i]
  {
    var n := |m| % TWO_32;
    assert Frame(m)[..4] == Le32(n);
    LengthBytes(|m|);
  }

  lemma LengthBytes(n: nat)
    ensures var c := n % TWO_32;
            && c % 256 == n % 256 && c / 256 % 256 == n / 256 % 256
            && c / 256 / 256 % 256 == n / 65536 % 256 && c / 256 / 256 / 256 == n / 16777216 % 256
  {
    FirstByte(n);
    SecondByte(n);
    ThirdByte(n);
    FourthByte(n);
  }

  lemma FirstByte(n: nat)
    ensures n % TWO_32 % 256 == n % 256
  {
    assert n == 0x1_0000_0000 * (n / TWO_32) + n % TWO_32;
  }

  lemma SecondByte(n: nat)
    ensures n % TWO_32 / 256 % 256 == n / 256 % 256
  {
    var q, c := n / TWO_32, n % TWO_32;
    assert n / 256 == 0x100_0000 * q + c / 256;
  }

  lemma ThirdByte(n: nat)
    ensures n % TWO_32 / 256 / 256 % 256 == n / 65536 % 256
  {
    var q, c := n / TWO_32, n % TWO_32;
    TwoSteps(c);
    assert n / 65536 == 0x1_0000 * q + c / 65536;
    Drop(0x100 * q, c / 65536);
  }

  lemma TwoSteps(c: nat)
    ensures c / 256 / 256 == c / 65536
  {
  }

  lemma Drop(q: nat, h: nat)
    ensures (256 * q + h) % 256 == h % 256
  {
  }

  lemma FourthByte(n: nat)
    ensures n % TWO_32 / 256 / 256 / 256 == n / 16777216 % 256
  {
    var q, c := n / TWO_32, n % TWO_32;
    TwoSteps(c);
    ThreeSteps(c);
    assert n / 16777216 == 0x100 * q + c / 16777216;
    Drop(q, c / 16777216);
  }

  lemma ThreeSteps(c: nat)
    ensures c / 65536 / 256 == c / 16777216
  {
  }

  /** The messages whose lengths survive the cut. */
  ghost predicate Framable(ms: seq<bytes>) {
    forall i :: 0 <= i < |ms| ==> |ms[i]| < TWO_32
  }

  function Frames(ms: seq<bytes>): bytes {
    if ms == [] then [] else Frame(ms[0]) + Frames(ms[1..])
  }

  lemma {:induction false} FramesConcat(a: seq<bytes>, b: seq<bytes>)
    ensures Frames(a + b) == Frames(a) + Frames(b)
  {
    if a == [] {
      assert a + b == b;
    } else {
      FramesConcat(a[1..], b);
      assert (a + b)[1..] == a[1..] + b;
      assert Frame(a[0]) + (Frames(a[1..]) + Frames(b)) == Frame(a[0]) + Frames(a[1..]) + Frames(b);
    }
  }

  // ----- taking a stream apart -----

  datatype Decoded = Decoded(messages: seq<bytes>, rest: bytes)

  /** No complete frame yet. */
  predicate Incomplete(s: bytes) {
    |s| < 4 || |s| < 4 + FromLe32(s[..4])
  }

  /** The first message of a stream. */
  function Head(s: bytes): bytes
    requires !Incomplete(s)
  {
    s[4..4 + FromLe32(s[..4])]
  }

  /** What follows the first frame. */
  function Tail(s: bytes): (r: bytes)
    requires !Incomplete(s)
    ensures |r| < |s|
  {
    s[4 + FromLe32(s[..4])..]
  }

  /** The complete frames at the front of a stream, and what follows them. */
  function Decode(s: bytes): Decoded
    decreases |s|
  {
    if Incomplete(s) then Decoded([], s)
    else Decoded([Head(s)] + Decode(Tail(s)).messages, Decode(Tail(s)).rest)
  }

  /** The result of decoding when `ms` came before. */
  function Preceded(ms: seq<bytes>, d: Decoded): Decoded { Decoded(ms + d.messages, d.rest) }

  lemma PrecededTwice(a: seq<bytes>, b: seq<bytes>, d: Decoded)
    ensures Preceded(a, Preceded(b, d)) == Preceded(a + b, d)
  {
    assert a + (b + d.messages) == a + b + d.messages;
  }

  lemma Assoc(a: bytes, b: bytes, c: bytes)
    ensures a + b + c == a + (b + c)
  {
  }

  lemma DecodeFrame(m: bytes, s: bytes)
    requires |m| < TWO_32
    ensures Decode(Frame(m) + s) == Preceded([m], Decode(s))
  {
    var t := Frame(m) + s;
    assert t[..4] == Le32(|m|);
    assert Head(t) == m;
    assert Tail(t) == s;
  }

  /** Decoding is a left inverse of framing, and leaves an incomplete tail alone. */
  lemma {:induction false} DecodeFrames(ms: seq<bytes>, tail: bytes)
    requires Framable(ms) && Incomplete(tail)
    ensures Decode(Frames(ms) + tail) == Decoded(ms, tail)
  {
    if ms == [] {
      assert Frames(ms) + tail == tail;
    } else {
      var rest := Frames(ms[1..]) + tail;
      DecodeFrames(ms[1..], tail);
      DecodeFrame(ms[0], rest);
      Assoc(Frame(ms[0]), Frames(ms[1..]), tail);
      assert [ms[0]] + ms[1..] == ms;
    }
  }

  lemma {:induction false} DecodedFramable(s: bytes)
    ensures Framable(Decode(s).messages)
    decreases |s|
  {
    if !Incomplete(s) { DecodedFramable(Tail(s)); }
  }

  /** Frames decode to the messages they were made of exactly when no length was cut. */
  lemma FramesDecodeIff(ms: seq<bytes>, tail: bytes)
    requires Incomplete(tail)
    ensures Decode(Frames(ms) + tail) == Decoded(ms, tail) <==> Framable(ms)
  {
    if Framable(ms) { DecodeFrames(ms, tail); }
    DecodedFramable(Frames(ms) + tail);
  }

  /** Framing is injective on message lists: a stream determines the messages. */
  lemma FramesInjective(a: seq<bytes>, b: seq<bytes>)
    requires Framable(a) && Framable(b) && Frames(a) == Frames(b)
    ensures a == b
  {
    DecodeFrames(a, []);
    DecodeFrames(b, []);
  }

  lemma HeadTailMore(s: bytes, more: bytes)
    requires !Incomplete(s)
    ensures !Incomplete(s + more) && Head(s + more) == Head(s) && Tail(s + more) == Tail(s) + more
  {
    assert (s + more)[..4] == s[..4];
  }

  lemma DecodeHead(s: bytes)
    requires !Incomplete(s)
    ensures Decode(s) == Preceded([Head(s)], Decode(Tail(s)))
  {
  }

  /** What arrives later can be decoded after what arrived first. */
  lemma {:induction false} DecodeMore(s: bytes, more: bytes)
    ensures Decode(s + more) == Preceded(Decode(s).messages, Decode(Decode(s).rest + more))
    decreases |s|
  {
    if Incomplete(s) {
      assert [] + Decode(s + more).messages == Decode(s + more).messages;
    } else {
      var d := Decode(Tail(s));
      DecodeMore(Tail(s), more);
      HeadTailMore(s, more);
      DecodeHead(s + more);
      PrecededTwice([Head(s)], d.messages, Decode(d.rest + more));
    }
  }

  // ----- the senders -----

  /** memcpy of `src` into a buffer. */
  method Memcpy(dst: array<byte>, at: nat, src: bytes)
    requires at + |src| <= dst.Length
    modifies dst
    ensures dst[..] == old(dst[..at]) + src + old(dst[at + |src|..])
  {
    for k := 0 to |src|
      invariant dst[..at] == old(dst[..at]) && dst[at..at + k] == src[..k]
      invariant dst[at + |src|..] == old(dst[at + |src|..])
    {
      dst[at + k] := src[k];
    }
    assert dst[..] == dst[..at] + dst[at..at + |src|] + dst[at + |src|..];
  }

  /** `send_message` on a little-endian host: a buffer filled by two memcpy calls, the first copying
      the bytes of the signed length. */
  method SendMessage(m: bytes) returns (sent: array<byte>)
    requires |m| < TWO_31
    ensures fresh(sent) && sent[..] == Frame(m)
  {
    var size := |m|;
    var word := Le32(size);
    sent := FillTwice(word, m);
    assert size % TWO_32 == size;
  }

  /** The buffer and the two copies. */
  method FillTwice(word: bytes, m: bytes) returns (sent: array<byte>)
    ensures fresh(sent) && sent[..] == word + m
  {
    sent := new byte[|word| + |m|];
    Memcpy(sent, 0, word);
    assert sent[..|word|] == word;
    Memcpy(sent, |word|, m);
  }

  /** The buffer that `send_on_socket` hands to the socket: the length truncated to 32 bits, extended
      by the message. */
  method FrameForSocket(retour: bytes) returns (resp: bytes)
    ensures resp == Frame(retour)
  {
    var dataLen := |retour| % TWO_32;
    resp := Le32(dataLen);
    resp := resp + retour;
  }

  // ----- the receivers -----

  /** `read_socket_message`: one read for the length, one for the message, each expected to deliver
      everything asked for; `got1` and `got2` are what the kernel delivers. */
  method ReadSocketMessage(stream: bytes, got1: nat, got2: nat) returns (r: Option<bytes>, consumed: nat)
    requires got1 <= 4 && got1 <= |stream| && got1 + got2 <= |stream|
    requires got1 == 4 ==> got2 <= FromLe32(stream[..4])
    ensures consumed <= |stream|
    ensures r.Some? <==> got1 == 4 && ToSigned(FromLe32(stream[..4])) == got2
    ensures r.Some? ==> r.value == stream[4..4 + got2] && consumed == 4 + got2
    ensures r.Some? ==> Decode(stream) == Preceded([r.value], Decode(stream[consumed..]))
  {
    if got1 != 4 {
      return None, got1;
    }
    var size := ToSigned(FromLe32(stream[..4]));
    if size < 0 {
      return None, 4;  // the allocation of a negative size fails
    }
    if got2 != size {
      return None, 4 + got2;
    }
    return Some(stream[4..4 + got2]), 4 + got2;
  }

  /** The reading loop of a connection task of the Rust daemon: four bytes, then as many as they say,
      however the stream is cut into chunks. */
  class FrameReader {
    var header: bytes
    var body: bytes

    predicate Valid()
      reads this
    {
      && |header| <= 4
      && (|header| < 4 ==> body == [])
      && (|header| == 4 ==> |body| < FromLe32(header))
    }

    /** The bytes received that do not yet make a complete frame. */
    function Pending(): bytes
      reads this
    {
      header + body
    }

    constructor ()
      ensures Valid() && Pending() == []
    {
      header, body := [], [];
    }

    /** Take from `chunk` what the current read still asks for. */
    method Absorb(chunk: bytes) returns (rest: bytes)
      requires Valid() && chunk != []
      modifies this
      ensures |header| <= 4 && (|header| < 4 ==> body == []) && (|header| == 4 ==> |body| <= FromLe32(header))
      ensures |rest| < |chunk| && Pending() + rest == old(Pending()) + chunk
    {
      if |header| < 4 {
        var take := if |chunk| < 4 - |header| then |chunk| else 4 - |header|;
        header := header + chunk[..take];
        rest := chunk[take..];
      } else {
        var missing := FromLe32(header) - |body|;
        var take := if |chunk| < missing then |chunk| else missing;
        body := body + chunk[..take];
        rest := chunk[take..];
      }
    }

    /** Hand over the message once its last byte is there; `rest` is what has arrived after it. */
    method Complete(ghost rest: bytes) returns (m: Option<bytes>)
      requires |header| <= 4 && (|header| < 4 ==> body == []) && (|header| == 4 ==> |body| <= FromLe32(header))
      modifies this
      ensures Valid()
      ensures m.Some? ==> Decode(old(Pending()) + rest) == Preceded([m.value], Decode(Pending() + rest))
      ensures m.None? ==> Pending() == old(Pending())
    {
      m := None;
      if |header| == 4 && |body| == FromLe32(header) {
        Le32Inverse(header);
        DecodeFrame(body, rest);
        assert [] + [] + rest == rest;
        m := Some(body);
        header, body := [], [];
      }
    }

    lemma PendingIncomplete()
      requires Valid()
      ensures Decode(Pending()) == Decoded([], Pending())
    {
      assert |header| == 4 ==> Pending()[..4] == header;
    }

    /** The messages that the arrival of `chunk` completes. */
    method Feed(chunk: bytes) returns (messages: seq<bytes>)
      requires Valid()
      modifies this
      ensures Valid()
      ensures Decode(old(Pending()) + chunk) == Decoded(messages, Pending())
    {
      messages := [];
      var rest := chunk;
      ghost var whole := Decode(old(Pending()) + chunk);
      while rest != []
        invariant Valid()
        invariant whole == Preceded(messages, Decode(Pending() + rest))
        decreases |rest|
      {
        rest := Absorb(rest);
        var m := Complete(rest);
        if m.Some? {
          PrecededTwice(messages, [m.value], Decode(Pending() + rest));
          messages := messages + [m.value];
        }
      }
      assert Pending() + rest == Pending();
      PendingIncomplete();
    }
  }

  /** Feeding chunk after chunk, from pending bytes `p`. */
  function FeedAll(p: bytes, chunks: seq<bytes>): Decoded
    decreases |chunks|
  {
    if chunks == [] then Decoded([], p)
    else
      var first := Decode(p + chunks[0]);
      Preceded(first.messages, FeedAll(first.rest, chunks[1..]))
  }

  function Join(chunks: seq<bytes>): bytes {
    if chunks == [] then [] else chunks[0] + Join(chunks[1..])
  }

  lemma {:induction false} ChunksDoNotMatter(p: bytes, chunks: seq<bytes>)
    requires Incomplete(p)
    ensures FeedAll(p, chunks) == Decode(p + Join(chunks))
    decreases |chunks|
  {
    if chunks == [] {
      assert p + Join(chunks) == p;
    } else {
      var first := Decode(p + chunks[0]);
      RestIncomplete(p + chunks[0]);
      ChunksDoNotMatter(first.rest, chunks[1..]);
      DecodeMore(p + chunks[0], Join(chunks[1..]));
      Assoc(p, chunks[0], Join(chunks[1..]));
    }
  }

  lemma {:induction false} RestIncomplete(s: bytes)
    ensures Incomplete(Decode(s).rest)
    decreases |s|
  {
    if !Incomplete(s) { RestIncomplete(Tail(s)); }
  }

  /** For every list of messages and every way of cutting their frames and an incomplete tail into
      chunks, the reader delivers exactly that list and keeps the tail. */
  lemma AnyChunking(ms: seq<bytes>, tail: bytes, chunks: seq<bytes>)
    requires Framable(ms) && Incomplete(tail) && Join(chunks) == Frames(ms) + tail
    ensures FeedAll([], chunks) == Decoded(ms, tail)
  {
    ChunksDoNotMatter([], chunks);
    DecodeFrames(ms, tail);
    assert [] + Join(chunks) == Join(chunks);
  }

  /** Reading a whole stream through a `FrameReader`. */
  method ReadAll(chunks: seq<bytes>) returns (messages: seq<bytes>, rest: bytes)
    ensures Decoded(messages, rest) == Decode(Join(chunks))
  {
    var reader := new FrameReader();
    messages := [];
    assert chunks[0..] == chunks;
    for i := 0 to |chunks|
      invariant reader.Valid()
      invariant FeedAll([], chunks) == Preceded(messages, FeedAll(reader.Pending(), chunks[i..]))
    {
      ghost var p := reader.Pending();
      var ms := reader.Feed(chunks[i]);
      assert chunks[i..][0] == chunks[i] && chunks[i..][1..] == chunks[i + 1..];
      assert FeedAll(p, chunks[i..]) == Preceded(ms, FeedAll(reader.Pending(), chunks[i + 1..]));
      PrecededTwice(messages, ms, FeedAll(reader.Pending(), chunks[i + 1..]));
      messages := messages + ms;
    }
    rest := reader.header + reader.body;
    ChunksDoNotMatter([], chunks);
    assert [] + Join(chunks) == Join(chunks);
  }
}
