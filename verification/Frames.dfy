/** Length-prefixed frames, and the reader that takes a byte stream apart again. */
module Frames {

  type Byte = b: nat | b < 256
  type Bytes = seq<Byte>

  const HEADER_SIZE := 4
  const MAX_MESSAGE_SIZE := 1024 * 1024
  const TWO_32 := 0x1_0000_0000

  // ---------- Headers ----------

  /** Masking the low byte of a number shifted right by whole bytes. */
  function LowByte(n: nat): Byte {
    n % 0x100
  }

  /** The C++ header: four masked shifts of the size, cut to 32 bits. */
  function Header(size: nat): (h: Bytes)
    ensures |h| == HEADER_SIZE
  {
    var length := size % TWO_32;
    [LowByte(length), LowByte(length / 0x100), LowByte(length / 0x1_0000), LowByte(length / 0x100_0000)]
  }

  /** Shifting the bytes into place; they overlap nowhere, so or-ing them is adding them. */
  function ExtractLength(h: Bytes): (n: nat)
    requires |h| == HEADER_SIZE
    ensures n < TWO_32
  {
    var a: nat, b: nat, c: nat, d: nat := h[0], h[1], h[2], h[3];
    a + 0x100 * b + 0x1_0000 * c + 0x100_0000 * d
  }

  /** Little-endian packing into `k` bytes, as Python's `struct` does it. */
  function Packed(n: nat, k: nat): Bytes {
    if k == 0 then [] else [LowByte(n)] + Packed(n / 0x100, k - 1)
  }

  function Unpacked(h: Bytes): nat {
    if h == [] then 0 else h[0] as nat + 0x100 * Unpacked(h[1..])
  }

  /** The header reads back as the size modulo 2^32. */
  lemma HeaderReadsBack(size: nat)
    ensures ExtractLength(Header(size)) == size % TWO_32
  {
    var n := size % TWO_32;
    assert n / 0x1_0000 == n / 0x100 / 0x100 && n / 0x100_0000 == n / 0x100 / 0x100 / 0x100;
    assert n / 0x100_0000 < 0x100;
  }

  lemma Peel(x: Byte, m: nat)
    ensures (x as nat + 0x100 * m) / 0x100 == m && LowByte(x as nat + 0x100 * m) == x
  {
  }

  lemma ShiftsCompose(n: nat)
    ensures n / 0x1_0000 == n / 0x100 / 0x100 && n / 0x100_0000 == n / 0x100 / 0x100 / 0x100
  {
  }

  lemma Layered(h: Bytes)
    requires |h| == HEADER_SIZE
    ensures ExtractLength(h) == h[0] as nat + 0x100 * (h[1] as nat + 0x100 * (h[2] as nat + 0x100 * (h[3] as nat)))
  {
  }

  lemma HeaderOf(n: nat, h: Bytes)
    requires n < TWO_32 && |h| == HEADER_SIZE
    requires LowByte(n) == h[0] && LowByte(n / 0x100) == h[1]
    requires LowByte(n / 0x100 / 0x100) == h[2] && LowByte(n / 0x100 / 0x100 / 0x100) == h[3]
    ensures Header(n) == h
  {
    hide LowByte;
    ShiftsCompose(n);
    assert n % TWO_32 == n;
  }

  /** Byte by byte: a frame is the length, least significant byte first, and the payload; that is
      how a header is read; and lengths from 1 to 1048576 are acceptable. */
  lemma FrameSpelled(payload: Bytes, h: Bytes)
    requires |payload| < 0x1_0000_0000 && |h| == 4
    ensures var f := Frame(payload);
            && |f| == 4 + |payload| && f[4..] == payload
            && f[0] == |payload| % 256 && f[1] == |payload| / 256 % 256
            && f[2] == |payload| / 65536 % 256 && f[3] == |payload| / 16777216
    ensures ExtractLength(h)
            == h[0] as nat + 256 * (h[1] as nat) + 65536 * (h[2] as nat) + 16777216 * (h[3] as nat)
    ensures Acceptable(|payload|) <==> 1 <= |payload| <= 1048576
  {
    assert |payload| % TWO_32 == |payload|;
  }

  /** Every header is the header of the length it announces. */
  lemma LengthReadsBack(h: Bytes)
    requires |h| == HEADER_SIZE
    ensures Header(ExtractLength(h)) == h
  {
    hide LowByte, ExtractLength, Header;
    var x3: nat := h[3];
    var x2: nat := h[2] as nat + 0x100 * x3;
    var x1: nat := h[1] as nat + 0x100 * x2;
    Layered(h);
    Peel(h[0], x1);
    Peel(h[1], x2);
    Peel(h[2], x3);
    Peel(h[3], 0);
    HeaderOf(ExtractLength(h), h);
  }

  /** C++ and Python write and read the same headers. */
  lemma HeadersAgree(size: nat, h: Bytes)
    requires size < TWO_32 && |h| == HEADER_SIZE
    ensures Packed(size, HEADER_SIZE) == Header(size)
    ensures Unpacked(h) == ExtractLength(h)
  {
    hide Packed, Unpacked;
    ShiftsCompose(size);
    PackedFour(size);
    UnpackedFour(h);
  }

  lemma UnpackedFour(h: Bytes)
    requires |h| == 4
    ensures Unpacked(h) == ExtractLength(h)
  {
    var a: nat, b: nat, c: nat, d: nat := h[0], h[1], h[2], h[3];
    assert Unpacked([]) == 0;
    assert h[3..] == [h[3]] && [h[3]][1..] == [] && Unpacked(h[3..]) == d;
    assert h[2..][1..] == h[3..] && Unpacked(h[2..]) == c + 0x100 * d;
    assert h[1..][1..] == h[2..] && Unpacked(h[1..]) == b + 0x100 * (c + 0x100 * d);
  }

  lemma PackedFour(n: nat)
    ensures Packed(n, 4) == [LowByte(n), LowByte(n / 0x100), LowByte(n / 0x100 / 0x100),
                             LowByte(n / 0x100 / 0x100 / 0x100)]
  {
    var a, b, c := n / 0x100, n / 0x100 / 0x100, n / 0x100 / 0x100 / 0x100;
    assert Packed(c / 0x100, 0) == [];
    assert Packed(c, 1) == [LowByte(c)];
    assert Packed(b, 2) == [LowByte(b), LowByte(c)];
    assert Packed(a, 3) == [LowByte(a), LowByte(b), LowByte(c)];
  }

  // ---------- Frames ----------

  function Frame(payload: Bytes): Bytes {
    Header(|payload|) + payload
  }

  function PythonFrame(payload: Bytes): Bytes {
    Packed(|payload|, HEADER_SIZE) + payload
  }

  /** The two implementations put the same bytes on the wire. */
  lemma FramesAgree(payload: Bytes)
    requires |payload| < TWO_32
    ensures PythonFrame(payload) == Frame(payload)
  {
    HeadersAgree(|payload|, Header(|payload|));
  }

  method FrameMessage(message: Bytes) returns (framed: Bytes)
    ensures framed == Frame(message)
  {
    framed := [];
    var length := |message| % TWO_32;
    framed := framed + [LowByte(length)];
    framed := framed + [LowByte(length / 0x100)];
    framed := framed + [LowByte(length / 0x1_0000)];
    framed := framed + [LowByte(length / 0x100_0000)];
    framed := framed + message;
  }

  /** The frames of these payloads, one behind the other. */
  function Stream(ps: seq<Bytes>): Bytes {
    if ps == [] then [] else Stream(ps[..|ps| - 1]) + Frame(ps[|ps| - 1])
  }

  // ---------- Reading ----------

  /** What the reader waits for: the rest of a header, or the rest of `need` bytes of content. */
  datatype Waiting = InHeader(got: Bytes) | InContent(need: nat, got: Bytes) | Closed

  /** The reader and what it has handed over so far. */
  datatype Reader = Reader(waiting: Waiting, delivered: seq<Bytes>)

  const OPENED := Reader(InHeader([]), [])

  predicate Acceptable(length: nat) {
    0 < length <= MAX_MESSAGE_SIZE
  }

  /** One more byte. A complete header announces the content or closes the connection; complete
      content is handed over. A closed connection takes nothing. */
  function Feed(r: Reader, b: Byte): Reader {
    match r.waiting
    case Closed => r
    case InHeader(got) =>
      var h := got + [b];
      if |h| < HEADER_SIZE then r.(waiting := InHeader(h))
      else if |h| == HEADER_SIZE && Acceptable(ExtractLength(h)) then
        r.(waiting := InContent(ExtractLength(h), []))
      else r.(waiting := Closed)
    case InContent(need, got) =>
      var c := got + [b];
      if |c| < need then r.(waiting := InContent(need, c))
      else Reader(InHeader([]), r.delivered + [c])
  }

  function FeedAll(r: Reader, bs: Bytes): Reader {
    if bs == [] then r else Feed(FeedAll(r, bs[..|bs| - 1]), bs[|bs| - 1])
  }

  /** However the stream is cut into chunks, the reader ends up the same. */
  lemma {:induction false} FeedChunks(r: Reader, a: Bytes, b: Bytes)
    ensures FeedAll(r, a + b) == FeedAll(FeedAll(r, a), b)
    decreases |b|
  {
    hide Feed;
    if b == [] {
      assert a + b == a;
    } else {
      FeedChunks(r, a, b[..|b| - 1]);
      assert (a + b)[..|a + b| - 1] == a + b[..|b| - 1];
    }
  }

  lemma {:induction false} ClosedStays(r: Reader, bs: Bytes)
    requires r.waiting.Closed?
    ensures FeedAll(r, bs) == r
    decreases |bs|
  {
    if bs != [] { ClosedStays(r, bs[..|bs| - 1]); }
  }

  lemma FeedOne(r: Reader, b: Byte)
    ensures FeedAll(r, [b]) == Feed(r, b)
  {
    hide Feed;
    assert [b][..0] == [];
    assert FeedAll(r, []) == r;
  }

  lemma HeaderFed(r: Reader, h: Bytes)
    requires r.waiting == InHeader([]) && |h| == HEADER_SIZE
    ensures var n := ExtractLength(h);
            FeedAll(r, h) == r.(waiting := if Acceptable(n) then InContent(n, []) else Closed)
  {
    hide ExtractLength, FeedAll;
    assert h == [h[0]] + [h[1]] + [h[2]] + [h[3]];
    FeedChunks(r, [h[0]] + [h[1]] + [h[2]], [h[3]]);
    FeedChunks(r, [h[0]] + [h[1]], [h[2]]);
    FeedChunks(r, [h[0]], [h[1]]);
    FeedOne(r, h[0]);
    var r1 := r.(waiting := InHeader([h[0]]));
    assert [] + [h[0]] == [h[0]];
    FeedOne(r1, h[1]);
    var r2 := r.(waiting := InHeader([h[0]] + [h[1]]));
    FeedOne(r2, h[2]);
    var r3 := r.(waiting := InHeader([h[0]] + [h[1]] + [h[2]]));
    FeedOne(r3, h[3]);
  }

  lemma {:induction false} ContentFed(r: Reader, c: Bytes, need: nat)
    requires r.waiting == InContent(need, []) && |c| <= need && need > 0
    ensures FeedAll(r, c) == if |c| == need then Reader(InHeader([]), r.delivered + [c])
                             else r.(waiting := InContent(need, c))
    decreases |c|
  {
    if c != [] {
      ContentFed(r, c[..|c| - 1], need);
      assert c[..|c| - 1] + [c[|c| - 1]] == c;
    }
  }

  /** One frame: an acceptable payload is handed over, any other closes the connection. */
  lemma FrameFed(r: Reader, p: Bytes)
    requires r.waiting == InHeader([]) && |p| < TWO_32
    ensures Acceptable(|p|) ==> FeedAll(r, Frame(p)) == Reader(InHeader([]), r.delivered + [p])
    ensures !Acceptable(|p|) ==> FeedAll(r, Frame(p)) == r.(waiting := Closed)
  {
    hide Header, ExtractLength, FeedAll;
    HeaderReadsBack(|p|);
    HeaderFed(r, Header(|p|));
    FeedChunks(r, Header(|p|), p);
    if Acceptable(|p|) {
      ContentFed(r.(waiting := InContent(|p|, [])), p, |p|);
    } else {
      ClosedStays(r.(waiting := Closed), p);
    }
  }

  /** How many payloads come before the first that is not acceptable. */
  function Good(ps: seq<Bytes>): (n: nat)
    ensures n <= |ps| && (forall i :: 0 <= i < n ==> Acceptable(|ps[i]|)) && (n < |ps| ==> !Acceptable(|ps[n]|))
  {
    if ps == [] then 0
    else
      var n := Good(ps[..|ps| - 1]);
      if n < |ps| - 1 || !Acceptable(|ps[|ps| - 1]|) then n else |ps|
  }

  /** The reader hands over exactly the payloads before the first unacceptable one, in order, and
      that one closes the connection. */
  lemma {:induction false} StreamFed(ps: seq<Bytes>)
    requires forall i :: 0 <= i < |ps| ==> |ps[i]| < TWO_32
    ensures FeedAll(OPENED, Stream(ps))
            == Reader(if Good(ps) == |ps| then InHeader([]) else Closed, ps[..Good(ps)])
    decreases |ps|
  {
    hide FeedAll, Frame;
    if ps == [] {
      assert FeedAll(OPENED, []) == OPENED by { FedNothing(OPENED); }
    } else {
      var before, p := ps[..|ps| - 1], ps[|ps| - 1];
      StreamFed(before);
      FeedChunks(OPENED, Stream(before), Frame(p));
      var r := FeedAll(OPENED, Stream(before));
      if Good(before) == |before| {
        FrameFed(r, p);
        assert before[..|before|] + [p] == ps;
      } else {
        ClosedStays(r, Frame(p));
      }
      assert Good(before) <= |before| && before[..Good(before)] == ps[..Good(before)];
    }
  }

  lemma FedNothing(r: Reader)
    ensures FeedAll(r, []) == r
  {
  }

  /** All payloads arrive, each once and in order, if and only if each has 1 byte to 1 MiB. */
  lemma StreamRoundTrip(ps: seq<Bytes>)
    requires forall i :: 0 <= i < |ps| ==> |ps[i]| < TWO_32
    ensures FeedAll(OPENED, Stream(ps)) == Reader(InHeader([]), ps)
            <==> forall i :: 0 <= i < |ps| ==> 1 <= |ps[i]| <= 1048576
  {
    hide FeedAll;
    StreamFed(ps);
    assert ps[..|ps|] == ps;
  }
}
