/**
 * The IP packet stitcher (tx_ip_pkt_stitcher). For every segment it takes
 * one IPv4 header word, the segment's words and the segment's checksum.
 * The first word it writes holds the 20 header bytes followed by the
 * segment's first 44 bytes, with the checksum written into the segment's
 * checksum field. Every later word holds the 20 bytes carried over from
 * the previous segment word followed by the next word's first 44 bytes.
 * When the segment's final word carries more than 44 bytes, one extra word
 * flushes what is left.
 *
 * Two places in the source do not do what the rest of the stage needs,
 * and `Build` selects between the code as written and the corrected code:
 *   - The carried bytes and their keep flags are taken from bytes 0..19
 *     and data bits 19..0 of the previous word, rather than from its bytes
 *     44..63 and keep flags 63..44.
 *   - The checksum is assigned to a 17-bit slice, which also clears bit 0
 *     of the byte after the checksum field.
 * The class and every lemma about whole segments use the corrected code.
 * AsWrittenCarryLosesBytes and AsWrittenChecksumClearsBit show what the
 * code as written does instead.
 */
module IpStitcher {
  import opened TxTypes
  import opened Streams

  /** Bytes of the option-less IPv4 header in front of the segment. */
  const HeaderLen := 20

  /** Segment bytes that fit in a word behind the header or the carried bytes. */
  const Room := 44

  /** Offset of the TCP checksum field within the segment (section 3.1 of RFC 793). */
  const ChecksumAt := 16

  /** The code as written, or with the carry and the checksum slice corrected. */
  datatype Build = AsWritten | Corrected

  /** The stage's statics: payload words still to come, an extra word due, the last payload word read. */
  datatype IpState = IpState(writingPayload: bool, writingExtra: bool, prevWord: Word64)

  /** Input channels: IP header words, segment words, checksums. */
  datatype IpInputs = IpInputs(headers: seq<Word64>, payload: seq<Word64>, checksums: seq<u16>)

  /** The state after a step, the inputs left, and the words written. */
  datatype IpStep = IpStep(state: IpState, rest: IpInputs, out: seq<Word64>)

  function EmptyWord(): Word64
  {
    Word(Zeros(64), LenToKeep(0, 64), false)
  }

  function InitialIp(): IpState
  {
    IpState(false, false, EmptyWord())
  }

  // ---------------------------------------------------------------------
  // Word builders
  // ---------------------------------------------------------------------

  /** `v` written most significant byte first at offset `at` of `d`. */
  function PutBE16(d: seq<byte>, at: nat, v: u16): (r: seq<byte>)
    requires at + 2 <= |d|
    ensures |r| == |d|
  {
    d[..at] + BE16(v) + d[at + 2..]
  }

  function Pow2(k: nat): (r: nat)
    ensures r >= 1
  {
    if k == 0 then 1 else 2 * Pow2(k - 1)
  }

  /** Bit k of a byte, bit 0 being the least significant. */
  function Bit(b: byte, k: nat): bool
  {
    (b / Pow2(k)) % 2 == 1
  }

  /** Data bits 19..0 of a word, read as keep flags (the code as written). */
  function KeepFromDataBits(prev: Word64): (k: seq<bool>)
    ensures |k| == HeaderLen
  {
    seq(HeaderLen, i requires 0 <= i < HeaderLen => Bit(prev.data[i / 8], i % 8))
  }

  /** The bytes carried from the previous segment word into the next written word. */
  function CarryData(b: Build, prev: Word64): (c: seq<byte>)
    ensures |c| == HeaderLen
  {
    if b == Corrected then prev.data[Room..] else prev.data[..HeaderLen]
  }

  /** The keep flags of the carried bytes. */
  function CarryKeep(b: Build, prev: Word64): (k: seq<bool>)
    ensures |k| == HeaderLen
  {
    if b == Corrected then prev.keep[Room..] else KeepFromDataBits(prev)
  }

  /** Twenty leading bytes with their flags, then the first 44 bytes of a segment word. */
  function Joined(c: seq<byte>, ck: seq<bool>, p: Word64, last: bool): Word64
    requires |c| == HeaderLen && |ck| == HeaderLen
  {
    Word(c + p.data[..Room], ck + p.keep[..Room], last)
  }

  /** The segment ends with this word and its bytes beyond the first 44 need an extra word. */
  predicate Overflows(p: Word64)
  {
    p.last && p.keep[Room]
  }

  /** The segment ends with this word and all its bytes fit. */
  predicate EndsHere(p: Word64)
  {
    p.last && !p.keep[Room]
  }

  /**
   * The checksum written into the first word: bytes 36 and 37, that is
   * segment offsets 16 and 17, most significant byte first. As written, the
   * 17-bit destination slice also clears bit 0 of byte 38.
   */
  function InsertChecksum(b: Build, d: seq<byte>, cs: u16): (r: seq<byte>)
    requires |d| == 64
    ensures |r| == 64
  {
    var d' := PutBE16(d, HeaderLen + ChecksumAt, cs);
    if b == Corrected then d' else d'[38 := d'[38] - d'[38] % 2]
  }

  /** The first word of a packet: the IP header, the segment's first 44 bytes, the checksum. */
  function FirstWord(b: Build, ip: Word64, p: Word64, cs: u16): Word64
  {
    var w := Joined(ip.data[..HeaderLen], LenToKeep(HeaderLen, HeaderLen), p, EndsHere(p));
    Word(InsertChecksum(b, w.data, cs), w.keep, w.last)
  }

  /** The extra word: the carried bytes alone, marked last. */
  function ExtraWord(b: Build, prev: Word64): Word64
  {
    Word(CarryData(b, prev) + Zeros(Room), CarryKeep(b, prev) + LenToKeep(0, Room), true)
  }

  // ---------------------------------------------------------------------
  // The stage
  // ---------------------------------------------------------------------

  /**
   * One cycle. A payload word is read without checking that one is
   * available; here the stage waits for it.
   */
  function IpNext(b: Build, s: IpState, inp: IpInputs): (r: IpStep)
    // at most one word per cycle; a cycle that writes nothing changes nothing
    ensures |r.out| <= 1
    ensures r.out == [] ==> r.state == s && r.rest == inp
    // the extra word is always written, ends the packet and reads nothing
    ensures s.writingExtra ==> r.out != [] && r.out[0].last && r.rest == inp && !r.state.writingExtra
    // any other word consumes exactly one segment word, which becomes prevWord; it
    // ends the packet exactly when that word ends the segment and needs no extra word
    ensures !s.writingExtra && r.out != [] ==>
              inp.payload != [] && r.rest.payload == inp.payload[1..] && r.state.prevWord == inp.payload[0] &&
              (r.out[0].last <==> inp.payload[0].last && !r.state.writingExtra)
    // after the first word, the word's leading 20 bytes are the ones carried from prevWord
    ensures (s.writingExtra || s.writingPayload) && r.out != [] ==>
              |r.out[0].data| >= HeaderLen && r.out[0].data[..HeaderLen] == CarryData(b, s.prevWord)
  {
    if s.writingExtra then
      IpStep(s.(writingExtra := false), inp, [ExtraWord(b, s.prevWord)])
    else if s.writingPayload then
      if inp.payload == [] then IpStep(s, inp, [])
      else
        var p := inp.payload[0];
        IpStep(IpState(!p.last, Overflows(p), p), inp.(payload := inp.payload[1..]),
               [Joined(CarryData(b, s.prevWord), CarryKeep(b, s.prevWord), p, EndsHere(p))])
    else if inp.headers != [] && inp.payload != [] && inp.checksums != [] then
      var p := inp.payload[0];
      IpStep(IpState(!p.last, Overflows(p), p),
             IpInputs(inp.headers[1..], inp.payload[1..], inp.checksums[1..]),
             [FirstWord(b, inp.headers[0], p, inp.checksums[0])])
    else
      IpStep(s, inp, [])
  }

  /** `n` cycles of the corrected stage, with everything written. */
  function IpRun(s: IpState, inp: IpInputs, n: nat): IpStep
    decreases n
  {
    if n == 0 then IpStep(s, inp, [])
    else
      var r := IpNext(Corrected, s, inp);
      var r' := IpRun(r.state, r.rest, n - 1);
      IpStep(r'.state, r'.rest, r.out + r'.out)
  }

  /** One cycle as a run. */
  lemma IpRunSingle(s: IpState, inp: IpInputs, n: nat, r1: IpStep)
    requires n == 1 && r1 == IpNext(Corrected, s, inp)
    ensures IpRun(s, inp, n) == r1
  {
    assert r1.out + [] == r1.out;
  }

  /** One cycle, then `m` more. */
  lemma IpRunOne(s: IpState, inp: IpInputs, m: nat, n: nat, r1: IpStep)
    requires n == m + 1 && r1 == IpNext(Corrected, s, inp)
    ensures var r2 := IpRun(r1.state, r1.rest, m);
            IpRun(s, inp, n) == IpStep(r2.state, r2.rest, r1.out + r2.out)
  {
  }

  // ---------------------------------------------------------------------
  // Bytes of the words written
  // ---------------------------------------------------------------------

  /** The keep count is pinned down by a run of set flags ended by a clear one or the end. */
  lemma KeepToLenIs(keep: seq<bool>, n: nat)
    requires n <= |keep| && (forall i :: 0 <= i < n ==> keep[i]) && (n < |keep| ==> !keep[n])
    ensures KeepToLen(keep) == n
  {
  }

  /** On a prefix mask, a flag is set exactly below the keep count. */
  lemma PrefixFlag(keep: seq<bool>, i: nat)
    requires PrefixKeep(keep) && i < |keep|
    ensures keep[i] <==> i < KeepToLen(keep)
  {
  }

  /** A word joined from 20 kept bytes and a segment word carrying at least 44 bytes is full. */
  lemma JoinedFull(c: seq<byte>, ck: seq<bool>, p: Word64, last: bool)
    requires |c| == HeaderLen && |ck| == HeaderLen && (forall i :: 0 <= i < HeaderLen ==> ck[i])
    requires KeepToLen(p.keep) >= Room
    ensures Full(Joined(c, ck, p, last)) && Valid(Joined(c, ck, p, last)) == c + p.data[..Room]
  {
    var w := Joined(c, ck, p, last);
    assert forall i :: 0 <= i < 64 ==> w.keep[i];
    KeepToLenIs(w.keep, 64);
  }

  /** A word joined from 20 kept bytes and a segment word carrying n <= 44 bytes carries 20 + n bytes. */
  lemma JoinedShort(c: seq<byte>, ck: seq<bool>, p: Word64, last: bool)
    requires |c| == HeaderLen && |ck| == HeaderLen && (forall i :: 0 <= i < HeaderLen ==> ck[i])
    requires PrefixKeep(p.keep) && KeepToLen(p.keep) <= Room
    ensures KeepToLen(Joined(c, ck, p, last).keep) == HeaderLen + KeepToLen(p.keep)
    ensures Valid(Joined(c, ck, p, last)) == c + p.data[..KeepToLen(p.keep)]
  {
    var w := Joined(c, ck, p, last);
    var n := KeepToLen(p.keep);
    if n < Room {
      assert w.keep[HeaderLen + n] == p.keep[n];
    }
    KeepToLenIs(w.keep, HeaderLen + n);
  }

  /** The corrected extra word carries the segment word's bytes beyond the first 44. */
  lemma ExtraValid(p: Word64)
    requires PrefixKeep(p.keep) && KeepToLen(p.keep) > Room
    ensures KeepToLen(ExtraWord(Corrected, p).keep) == KeepToLen(p.keep) - Room
    ensures Valid(ExtraWord(Corrected, p)) == p.data[Room..KeepToLen(p.keep)]
  {
    var w := ExtraWord(Corrected, p);
    var n := KeepToLen(p.keep);
    if n < 64 {
      assert w.keep[n - Room] == p.keep[n];
    } else {
      assert w.keep[n - Room] == false;
    }
    KeepToLenIs(w.keep, n - Room);
  }

  /** The carried flags of a full word are all set. */
  lemma FullCarry(prev: Word64)
    requires Full(prev)
    ensures forall i :: 0 <= i < HeaderLen ==> CarryKeep(Corrected, prev)[i]
  {
  }

  lemma PutBE16Slice(d: seq<byte>, at: nat, v: u16, k: nat)
    requires at + 2 <= k <= |d|
    ensures PutBE16(d, at, v)[..k] == PutBE16(d[..k], at, v)
  {
  }

  lemma PutBE16Shift(x: seq<byte>, d: seq<byte>, at: nat, v: u16)
    requires at + 2 <= |d|
    ensures PutBE16(x + d, |x| + at, v) == x + PutBE16(d, at, v)
  {
    assert (x + d)[..|x| + at] == x + d[..at];
    assert (x + d)[|x| + at + 2..] == d[at + 2..];
  }

  lemma PutBE16Append(d: seq<byte>, e: seq<byte>, at: nat, v: u16)
    requires at + 2 <= |d|
    ensures PutBE16(d + e, at, v) == PutBE16(d, at, v) + e
  {
    assert (d + e)[..at] == d[..at];
    assert (d + e)[at + 2..] == d[at + 2..] + e;
  }

  /**
   * The corrected first word carries the header's 20 bytes, then the
   * segment word's first m bytes with the checksum at segment offset 16,
   * where m is the number of its bytes that fit (at most 44); it is full
   * when the segment word carries at least 44 bytes.
   */
  lemma FirstWordValid(ip: Word64, p: Word64, cs: u16, m: nat)
    requires PrefixKeep(p.keep) && KeepToLen(p.keep) >= ChecksumAt + 2
    requires m == if KeepToLen(p.keep) < Room then KeepToLen(p.keep) else Room
    ensures KeepToLen(p.keep) >= Room ==> Full(FirstWord(Corrected, ip, p, cs))
    ensures Valid(FirstWord(Corrected, ip, p, cs)) == ip.data[..HeaderLen] + PutBE16(p.data[..m], ChecksumAt, cs)
  {
    var ck := LenToKeep(HeaderLen, HeaderLen);
    var w := Joined(ip.data[..HeaderLen], ck, p, EndsHere(p));
    if KeepToLen(p.keep) >= Room {
      JoinedFull(ip.data[..HeaderLen], ck, p, EndsHere(p));
    } else {
      JoinedShort(ip.data[..HeaderLen], ck, p, EndsHere(p));
    }
    PutBE16Slice(w.data, HeaderLen + ChecksumAt, cs, HeaderLen + m);
    assert w.data[..HeaderLen + m] == ip.data[..HeaderLen] + p.data[..m];
    PutBE16Shift(ip.data[..HeaderLen], p.data[..m], ChecksumAt, cs);
  }

  // ---------------------------------------------------------------------
  // Whole segments
  // ---------------------------------------------------------------------

  /** Cycles a segment's words take: one each, plus the extra word when the final one overflows. */
  function Cycles(ws: seq<Word64>): nat
    requires ws != []
  {
    |ws| + (if KeepToLen(ws[|ws| - 1].keep) > Room then 1 else 0)
  }

  /** Carrying into the segment's final word, when its bytes fit: one word, marked last. */
  lemma CarryLastFits(s: IpState, inp: IpInputs, n: nat, r: IpStep)
    requires s.writingPayload && !s.writingExtra && Full(s.prevWord)
    requires inp.payload != [] && Frame([inp.payload[0]]) && KeepToLen(inp.payload[0].keep) <= Room
    requires n == 1 && r == IpRun(s, inp, n)
    ensures Packed(r.out) && Keyed(r.out)
    ensures Bytes(r.out) == s.prevWord.data[Room..] + Valid(inp.payload[0])
    ensures !r.state.writingPayload && !r.state.writingExtra
    ensures r.rest == inp.(payload := inp.payload[1..])
  {
    var p := inp.payload[0];
    var r1 := IpNext(Corrected, s, inp);
    IpRunSingle(s, inp, n, r1);
    PrefixFlag(p.keep, Room);
    FullCarry(s.prevWord);
    JoinedShort(CarryData(Corrected, s.prevWord), CarryKeep(Corrected, s.prevWord), p, EndsHere(p));
    BytesOne(r1.out[0]);
  }

  /** Carrying into the segment's final word, when its bytes overflow: a full word, then the extra one. */
  lemma CarryLastOverflows(s: IpState, inp: IpInputs, n: nat, r: IpStep)
    requires s.writingPayload && !s.writingExtra && Full(s.prevWord)
    requires inp.payload != [] && Frame([inp.payload[0]]) && KeepToLen(inp.payload[0].keep) > Room
    requires n == 2 && r == IpRun(s, inp, n)
    ensures Packed(r.out) && Keyed(r.out)
    ensures Bytes(r.out) == s.prevWord.data[Room..] + Valid(inp.payload[0])
    ensures !r.state.writingPayload && !r.state.writingExtra
    ensures r.rest == inp.(payload := inp.payload[1..])
  {
    var p := inp.payload[0];
    var r1 := IpNext(Corrected, s, inp);
    IpRunOne(s, inp, 1, n, r1);
    PrefixFlag(p.keep, Room);
    var r2 := IpNext(Corrected, r1.state, r1.rest);
    IpRunSingle(r1.state, r1.rest, 1, r2);
    FullCarry(s.prevWord);
    JoinedFull(CarryData(Corrected, s.prevWord), CarryKeep(Corrected, s.prevWord), p, EndsHere(p));
    ExtraValid(p);
    TwoWords(r1.out[0], r2.out[0], s.prevWord.data[Room..], p.data[..Room], p.data[Room..KeepToLen(p.keep)]);
    SplitAt(p.data, Room, KeepToLen(p.keep));
  }

  /** A full word, then a final one: a packed frame carrying the bytes of both. */
  lemma TwoWords(o1: Word64, o2: Word64, c: seq<byte>, x: seq<byte>, y: seq<byte>)
    requires Full(o1) && !o1.last && o2.last
    requires Valid(o1) == c + x && Valid(o2) == y
    ensures Packed([o1] + [o2]) && Keyed([o1] + [o2])
    ensures Bytes([o1] + [o2]) == c + (x + y)
  {
    BytesOne(o2);
    BytesCons(o1, [o2]);
    PackedCons(o1, [o2]);
    Assoc(c, x, y);
  }

  /** Carrying into the final word of the segment. */
  lemma CarryLastWord(s: IpState, inp: IpInputs, n: nat, r: IpStep)
    requires s.writingPayload && !s.writingExtra && Full(s.prevWord)
    requires inp.payload != [] && Frame([inp.payload[0]])
    requires n == Cycles([inp.payload[0]]) && r == IpRun(s, inp, n)
    ensures Packed(r.out) && Keyed(r.out)
    ensures Bytes(r.out) == s.prevWord.data[Room..] + Valid(inp.payload[0])
    ensures !r.state.writingPayload && !r.state.writingExtra
    ensures r.rest == inp.(payload := inp.payload[1..])
  {
    if KeepToLen(inp.payload[0].keep) > Room {
      CarryLastOverflows(s, inp, n, r);
    } else {
      CarryLastFits(s, inp, n, r);
    }
  }

  /**
   * The words after the first: each written word carries the 20 bytes
   * carried over and then the next segment word's first 44, so together
   * they carry the carried bytes and then the rest of the segment,
   * contiguously, as one packed frame, and the stage is idle again.
   */
  lemma {:induction false} CarryFrame(s: IpState, inp: IpInputs, b: seq<Word64>, rest: seq<Word64>,
                                      n: nat, r: IpStep)
    requires s.writingPayload && !s.writingExtra && Full(s.prevWord)
    requires Frame(b) && inp.payload == b + rest
    requires n == Cycles(b) && r == IpRun(s, inp, n)
    ensures Packed(r.out) && Keyed(r.out) && Keyed(b)
    ensures Bytes(r.out) == s.prevWord.data[Room..] + Bytes(b)
    ensures !r.state.writingPayload && !r.state.writingExtra
    ensures r.rest == inp.(payload := rest)
    decreases |b|, 1
  {
    if |b| == 1 {
      CarryFrameLast(s, inp, b, rest, n, r);
    } else {
      CarryFrameStep(s, inp, b, rest, n, r);
    }
  }

  lemma CarryFrameLast(s: IpState, inp: IpInputs, b: seq<Word64>, rest: seq<Word64>, n: nat, r: IpStep)
    requires s.writingPayload && !s.writingExtra && Full(s.prevWord)
    requires Frame(b) && |b| == 1 && inp.payload == b + rest
    requires n == Cycles(b) && r == IpRun(s, inp, n)
    ensures Packed(r.out) && Keyed(r.out) && Keyed(b)
    ensures Bytes(r.out) == s.prevWord.data[Room..] + Bytes(b)
    ensures !r.state.writingPayload && !r.state.writingExtra
    ensures r.rest == inp.(payload := rest)
  {
    FrameKeyed(b);
    HeadTail(b, rest);
    Single(b);
    CarryLastWord(s, inp, n, r);
    BytesOne(b[0]);
  }

  lemma {:induction false} CarryFrameStep(s: IpState, inp: IpInputs, b: seq<Word64>, rest: seq<Word64>,
                                          n: nat, r: IpStep)
    requires s.writingPayload && !s.writingExtra && Full(s.prevWord)
    requires Frame(b) && |b| >= 2 && inp.payload == b + rest
    requires n == Cycles(b) && r == IpRun(s, inp, n)
    ensures Packed(r.out) && Keyed(r.out) && Keyed(b)
    ensures Bytes(r.out) == s.prevWord.data[Room..] + Bytes(b)
    ensures !r.state.writingPayload && !r.state.writingExtra
    ensures r.rest == inp.(payload := rest)
    decreases |b|, 0
  {
    FrameKeyed(b);
    HeadTail(b, rest);
    var w := b[0];
    var r1 := IpNext(Corrected, s, inp);
    FullCarry(s.prevWord);
    FullCarriesAll(w);
    JoinedFull(CarryData(Corrected, s.prevWord), CarryKeep(Corrected, s.prevWord), w, EndsHere(w));
    FrameTail(b);
    CyclesTail(b);
    var m := Cycles(b[1..]);
    var r' := IpRun(r1.state, r1.rest, m);
    CarryFrame(r1.state, r1.rest, b[1..], rest, m, r');
    IpRunOne(s, inp, m, n, r1);
    Single(r1.out);
    CarryStepBytes(r1.out[0], r'.out, s.prevWord.data[Room..], w, b[1..]);
  }

  /** The cycles of a segment are one for its first word and those of the rest. */
  lemma CyclesTail(b: seq<Word64>)
    requires |b| >= 2
    ensures Cycles(b) == 1 + Cycles(b[1..])
  {
    assert b[1..][|b[1..]| - 1] == b[|b| - 1];
  }

  /** Bookkeeping of one full written word in front of the rest of the segment. */
  lemma CarryStepBytes(o: Word64, out: seq<Word64>, c: seq<byte>, w: Word64, b: seq<Word64>)
    requires Full(o) && !o.last && Packed(out) && Full(w) && Keyed(b)
    requires Valid(o) == c + w.data[..Room]
    requires Keyed(out) && Bytes(out) == w.data[Room..] + Bytes(b)
    ensures Packed([o] + out) && Keyed([o] + out) && Keyed([w] + b)
    ensures Bytes([o] + out) == c + Bytes([w] + b)
  {
    PackedCons(o, out);
    BytesCons(o, out);
    BytesCons(w, b);
    FullCarriesAll(w);
    SplitAt(w.data, Room, 64);
    Regroup(c, w.data[..Room], w.data[Room..], Bytes(b));
  }

  /** The inputs left once a segment's header, words and checksum are consumed. */
  function Consumed(inp: IpInputs, rest: seq<Word64>): IpInputs
    requires inp.headers != [] && inp.checksums != []
  {
    IpInputs(inp.headers[1..], rest, inp.checksums[1..])
  }

  /** A one-word segment whose bytes fit: one word, marked last. */
  lemma SegmentOneWordFits(s: IpState, inp: IpInputs, b: seq<Word64>, rest: seq<Word64>, n: nat, r: IpStep)
    requires !s.writingPayload && !s.writingExtra && inp.headers != [] && inp.checksums != []
    requires Frame(b) && |b| == 1 && inp.payload == b + rest
    requires ChecksumAt + 2 <= KeepToLen(b[0].keep) <= Room
    requires n == 1 && r == IpRun(s, inp, n)
    ensures Packed(r.out) && Keyed(r.out)
    ensures Bytes(r.out) == inp.headers[0].data[..HeaderLen] + PutBE16(Valid(b[0]), ChecksumAt, inp.checksums[0])
    ensures !r.state.writingPayload && !r.state.writingExtra && r.rest == Consumed(inp, rest)
  {
    HeadTail(b, rest);
    Single(b);
    var p := b[0];
    var r1 := IpNext(Corrected, s, inp);
    IpRunSingle(s, inp, n, r1);
    PrefixFlag(p.keep, Room);
    FirstWordValid(inp.headers[0], p, inp.checksums[0], KeepToLen(p.keep));
    BytesOne(r1.out[0]);
  }

  /** A one-word segment whose bytes overflow: a full first word, then the extra one. */
  lemma SegmentOneWordOverflows(s: IpState, inp: IpInputs, b: seq<Word64>, rest: seq<Word64>, n: nat, r: IpStep)
    requires !s.writingPayload && !s.writingExtra && inp.headers != [] && inp.checksums != []
    requires Frame(b) && |b| == 1 && inp.payload == b + rest
    requires KeepToLen(b[0].keep) > Room
    requires n == 2 && r == IpRun(s, inp, n)
    ensures Packed(r.out) && Keyed(r.out)
    ensures Bytes(r.out) == inp.headers[0].data[..HeaderLen] + PutBE16(Valid(b[0]), ChecksumAt, inp.checksums[0])
    ensures !r.state.writingPayload && !r.state.writingExtra && r.rest == Consumed(inp, rest)
  {
    HeadTail(b, rest);
    Single(b);
    var p := b[0];
    var cs := inp.checksums[0];
    var r1 := IpNext(Corrected, s, inp);
    IpRunOne(s, inp, 1, n, r1);
    PrefixFlag(p.keep, Room);
    var r2 := IpNext(Corrected, r1.state, r1.rest);
    IpRunSingle(r1.state, r1.rest, 1, r2);
    FirstWordValid(inp.headers[0], p, cs, Room);
    ExtraValid(p);
    var x, y := PutBE16(p.data[..Room], ChecksumAt, cs), p.data[Room..KeepToLen(p.keep)];
    TwoWords(r1.out[0], r2.out[0], inp.headers[0].data[..HeaderLen], x, y);
    SplitAt(p.data, Room, KeepToLen(p.keep));
    PutBE16Append(p.data[..Room], y, ChecksumAt, cs);
  }

  /** A longer segment: a full first word, then the carried words. */
  lemma SegmentFirstOfMany(s: IpState, inp: IpInputs, b: seq<Word64>, rest: seq<Word64>, n: nat, r: IpStep)
    requires !s.writingPayload && !s.writingExtra && inp.headers != [] && inp.checksums != []
    requires Frame(b) && |b| >= 2 && inp.payload == b + rest
    requires n == Cycles(b) && r == IpRun(s, inp, n)
    ensures Packed(r.out) && Keyed(r.out) && Keyed(b)
    ensures Bytes(r.out) == inp.headers[0].data[..HeaderLen] + PutBE16(Bytes(b), ChecksumAt, inp.checksums[0])
    ensures !r.state.writingPayload && !r.state.writingExtra && r.rest == Consumed(inp, rest)
  {
    FrameKeyed(b);
    HeadTail(b, rest);
    var w := b[0];
    var cs := inp.checksums[0];
    var r1 := IpNext(Corrected, s, inp);
    FullCarriesAll(w);
    FirstWordValid(inp.headers[0], w, cs, Room);
    FrameTail(b);
    CyclesTail(b);
    var m := Cycles(b[1..]);
    var r' := IpRun(r1.state, r1.rest, m);
    assert r1.rest.payload == b[1..] + rest;
    CarryFrame(r1.state, r1.rest, b[1..], rest, m, r');
    IpRunOne(s, inp, m, n, r1);
    Single(r1.out);
    FirstStepBytes(r1.out[0], r'.out, inp.headers[0].data[..HeaderLen], w, b[1..], cs);
  }

  /** Bookkeeping of the full first word in front of the carried words. */
  lemma FirstStepBytes(o: Word64, out: seq<Word64>, ip: seq<byte>, w: Word64, b: seq<Word64>, cs: u16)
    requires Full(o) && !o.last && Packed(out) && Full(w) && Keyed(b)
    requires Valid(o) == ip + PutBE16(w.data[..Room], ChecksumAt, cs)
    requires Keyed(out) && Bytes(out) == w.data[Room..] + Bytes(b)
    ensures Packed([o] + out) && Keyed([o] + out) && Keyed([w] + b)
    ensures Bytes([o] + out) == ip + PutBE16(Bytes([w] + b), ChecksumAt, cs)
  {
    PackedCons(o, out);
    BytesCons(o, out);
    BytesCons(w, b);
    FullCarriesAll(w);
    SplitAt(w.data, Room, 64);
    Assoc(w.data[..Room], w.data[Room..], Bytes(b));
    PutBE16Append(w.data[..Room], w.data[Room..] + Bytes(b), ChecksumAt, cs);
    Assoc(ip, PutBE16(w.data[..Room], ChecksumAt, cs), w.data[Room..] + Bytes(b));
  }

  /**
   * One segment from the idle stage: a cycle per segment word, plus one when
   * its final word overflows, writes one packed frame carrying the IP
   * header's 20 bytes and then the segment's bytes with the checksum at
   * segment offset 16, most significant byte first; the stage is idle again
   * and the header, the segment and the checksum are consumed.
   */
  lemma SegmentFromIdle(s: IpState, inp: IpInputs, b: seq<Word64>, rest: seq<Word64>, n: nat, r: IpStep)
    requires !s.writingPayload && !s.writingExtra && inp.headers != [] && inp.checksums != []
    requires Frame(b) && inp.payload == b + rest && ChecksumAt + 2 <= |Bytes(b)|
    requires n == Cycles(b) && r == IpRun(s, inp, n)
    ensures Packed(r.out) && Keyed(r.out)
    ensures Bytes(r.out) == inp.headers[0].data[..HeaderLen] + PutBE16(Bytes(b), ChecksumAt, inp.checksums[0])
    ensures !r.state.writingPayload && !r.state.writingExtra && r.rest == Consumed(inp, rest)
  {
    if |b| == 1 {
      Single(b);
      BytesOne(b[0]);
      if KeepToLen(b[0].keep) > Room {
        SegmentOneWordOverflows(s, inp, b, rest, n, r);
      } else {
        SegmentOneWordFits(s, inp, b, rest, n, r);
      }
    } else {
      SegmentFirstOfMany(s, inp, b, rest, n, r);
    }
  }

  /** With nothing to read, an idle stage waits without consuming anything. */
  lemma IdleWaitsForAllThree(s: IpState, inp: IpInputs)
    requires !s.writingPayload && !s.writingExtra
    requires inp.headers == [] || inp.payload == [] || inp.checksums == []
    ensures IpNext(Corrected, s, inp) == IpStep(s, inp, [])
  {
  }

  // ---------------------------------------------------------------------
  // The code as written
  // ---------------------------------------------------------------------

  /**
   * As written, a carried word takes the previous word's bytes 0..19 and
   * reads its keep flags from data bits 19..0. When the previous word's
   * first byte is even, the written word carries no bytes at all, although
   * the corrected word carries the 20 carried bytes and the next ones.
   */
  lemma AsWrittenCarryLosesBytes(s: IpState, inp: IpInputs)
    requires s.writingPayload && !s.writingExtra && Full(s.prevWord) && s.prevWord.data[0] % 2 == 0
    requires inp.payload != [] && PrefixKeep(inp.payload[0].keep)
    ensures var o := IpNext(AsWritten, s, inp).out;
            |o| == 1 && o[0].data[..HeaderLen] == s.prevWord.data[..HeaderLen] && Valid(o[0]) == []
    ensures var o := IpNext(Corrected, s, inp).out;
            |o| == 1 && |Valid(o[0])| >= HeaderLen && Valid(o[0])[..HeaderLen] == s.prevWord.data[Room..]
  {
    var p := inp.payload[0];
    FullCarry(s.prevWord);
    var c := CarryData(Corrected, s.prevWord);
    var ck := CarryKeep(Corrected, s.prevWord);
    if KeepToLen(p.keep) >= Room {
      JoinedFull(c, ck, p, EndsHere(p));
    } else {
      JoinedShort(c, ck, p, EndsHere(p));
    }
  }

  /**
   * As written, the checksum's 17-bit destination slice also clears bit 0
   * of byte 38, segment offset 18; the corrected word leaves that byte alone.
   */
  lemma AsWrittenChecksumClearsBit(ip: Word64, p: Word64, cs: u16)
    requires p.data[ChecksumAt + 2] % 2 == 1
    ensures FirstWord(AsWritten, ip, p, cs).data[HeaderLen + ChecksumAt + 2] == p.data[ChecksumAt + 2] - 1
    ensures FirstWord(Corrected, ip, p, cs).data[HeaderLen + ChecksumAt + 2] == p.data[ChecksumAt + 2]
  {
  }

  class IpPacketStitcher {
    var writingPayload: bool
    var writingExtra: bool
    var prevWord: Word64

    function State(): IpState
      reads this
    {
      IpState(writingPayload, writingExtra, prevWord)
    }

    constructor ()
      ensures State() == InitialIp()
    {
      writingPayload, writingExtra, prevWord := false, false, EmptyWord();
    }

    /** One cycle: returns the inputs left and the word written, if any. */
    method Step(inp: IpInputs) returns (rest: IpInputs, out: seq<Word64>)
      modifies this
      ensures IpStep(State(), rest, out) == IpNext(Corrected, old(State()), inp)
    {
      rest, out := inp, [];
      if writingExtra {
        out := [Word(prevWord.data[Room..] + Zeros(Room), prevWord.keep[Room..] + LenToKeep(0, Room), true)];
        writingExtra := false;
      } else if writingPayload {
        if inp.payload != [] {
          var payload := inp.payload[0];
          rest := inp.(payload := inp.payload[1..]);
          var sendWord := Word(prevWord.data[Room..] + payload.data[..Room],
                               prevWord.keep[Room..] + payload.keep[..Room], payload.last);
          if payload.last {
            if payload.keep[Room] {
              sendWord := sendWord.(last := false);
              writingExtra := true;
            }
            writingPayload := false;
          }
          prevWord := payload;
          out := [sendWord];
        }
      } else if inp.headers != [] && inp.payload != [] && inp.checksums != [] {
        var ipWord, payload, tcpChecksum := inp.headers[0], inp.payload[0], inp.checksums[0];
        rest := IpInputs(inp.headers[1..], inp.payload[1..], inp.checksums[1..]);
        var data := ipWord.data[..HeaderLen] + payload.data[..Room];
        data := data[..HeaderLen + ChecksumAt] + BE16(tcpChecksum) + data[HeaderLen + ChecksumAt + 2..];
        var sendWord := Word(data, LenToKeep(HeaderLen, HeaderLen) + payload.keep[..Room], false);
        if payload.last {
          if payload.keep[Room] {
            writingExtra := true;
          } else {
            sendWord := sendWord.(last := true);
          }
        } else {
          writingPayload := true;
        }
        prevWord := payload;
        out := [sendWord];
      }
    }
  }
}
