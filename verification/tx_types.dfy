/**
 * Values exchanged by the stages of the TCP transmit engine: fixed-width
 * integers with explicit wrap-around, the stream word, segment metadata,
 * session-table replies and queries, events and read commands.
 */
module TxTypes {

  type bit = x: int | 0 <= x < 2
  type byte = x: int | 0 <= x < 0x100
  type u2 = x: int | 0 <= x < 4
  type u3 = x: int | 0 <= x < 8
  type u4 = x: int | 0 <= x < 16
  type u16 = x: int | 0 <= x < 0x1_0000
  type u32 = x: int | 0 <= x < 0x1_0000_0000

  /** Truncation of an unbounded result to 16 bits (ap_uint<16> assignment). */
  function Wrap16(x: int): (r: u16)
    ensures 0 <= x < 0x1_0000 ==> r == x
  {
    x % 0x1_0000
  }

  /** Truncation of an unbounded result to 32 bits (ap_uint<32> assignment). */
  function Wrap32(x: int): (r: u32)
    ensures 0 <= x < 0x1_0000_0000 ==> r == x
  {
    x % 0x1_0000_0000
  }

  /** Bits 15..0 of a 32-bit value. */
  function Low16(x: u32): (r: u16)
    ensures x < 0x1_0000 ==> r == x
  {
    x % 0x1_0000
  }

  /** Truncation keeps the residue: x is Wrap16(x) plus a whole number of 2^16. */
  lemma Wrap16Residue(x: int)
    ensures x == (x / 0x1_0000) * 0x1_0000 + Wrap16(x)
  {
  }

  /** A 32-bit value is its low 16 bits plus a whole number of 2^16. */
  lemma Low16Residue(x: u32)
    ensures x == (x / 0x1_0000) * 0x1_0000 + Low16(x)
  {
  }

  /** The low 16 bits of a 32-bit wrapped sum depend only on the low 16 bits of the exact sum. */
  lemma Low16OfWrap32(x: int)
    ensures Low16(Wrap32(x)) == Wrap16(x)
  {
    var q := x / 0x1_0000_0000;
    assert x == q * 0x1_0000_0000 + Wrap32(x);
    assert q * 0x1_0000_0000 == (q * 0x1_0000) * 0x1_0000;
  }

  /** Adding a multiple of 2^16 does not change the truncation. */
  lemma Wrap16Shift(y: int, k: int)
    ensures Wrap16(y + k * 0x1_0000) == Wrap16(y)
  {
    var q := y / 0x1_0000;
    assert y + k * 0x1_0000 == (q + k) * 0x1_0000 + Wrap16(y);
  }

  /** Truncating an intermediate 32-bit sum does not change the truncated total. */
  lemma Wrap32Assoc(a: int, b: int)
    ensures Wrap32(Wrap32(a) + b) == Wrap32(a + b)
  {
    var q := a / 0x1_0000_0000;
    var x := a + b;
    var q2 := x / 0x1_0000_0000;
    assert Wrap32(a) + b == (q2 - q) * 0x1_0000_0000 + Wrap32(x);
  }

  /** Advancing a 32-bit pointer by a, then by b, is advancing it by a + b. */
  lemma Wrap32Advance(n: int, a: int, b: int, total: int)
    requires total == a + b
    ensures Wrap32(Wrap32(n + a) + b) == Wrap32(n + total)
  {
    Wrap32Assoc(n + a, b);
    assert n + a + b == n + total;
  }

  /** Two integers congruent modulo 2^16 truncate to the same value. */
  lemma Wrap16Congruent(x: int, y: int)
    requires (x - y) % 0x1_0000 == 0
    ensures Wrap16(x) == Wrap16(y)
  {
    var k := (x - y) / 0x1_0000;
    assert x == y + k * 0x1_0000;
  }

  // ---------------------------------------------------------------------
  // Byte order
  // ---------------------------------------------------------------------

  /** A 16-bit value as two bytes, most significant first (network order). */
  function BE16(x: u16): (b: seq<byte>)
    ensures |b| == 2
  {
    [x / 0x100, x % 0x100]
  }

  /** A 16-bit value as two bytes, least significant first. */
  function LE16(x: u16): (b: seq<byte>)
    ensures |b| == 2
  {
    [x % 0x100, x / 0x100]
  }

  /** A 32-bit value as four bytes, least significant first. */
  function LE32(x: u32): (b: seq<byte>)
    ensures |b| == 4
  {
    [x % 0x100, x / 0x100 % 0x100, x / 0x100 / 0x100 % 0x100, x / 0x100 / 0x100 / 0x100]
  }

  /** A 32-bit value as four bytes, most significant first (network order). */
  function BE32(x: u32): (b: seq<byte>)
    ensures |b| == 4
  {
    [x / 0x100 / 0x100 / 0x100, x / 0x100 / 0x100 % 0x100, x / 0x100 % 0x100, x % 0x100]
  }

  /** The value of two bytes read most significant first. */
  function FromBE16(b: seq<byte>): (x: u16)
    requires |b| == 2
  {
    b[0] as int * 0x100 + b[1]
  }

  /** The value of two bytes read least significant first. */
  function FromLE16(b: seq<byte>): (x: u16)
    requires |b| == 2
  {
    b[1] as int * 0x100 + b[0]
  }

  /** The value of four bytes read least significant first. */
  function FromLE32(b: seq<byte>): (x: u32)
    requires |b| == 4
  {
    b[0] as int + 0x100 * (b[1] as int + 0x100 * (b[2] as int + 0x100 * b[3] as int))
  }

  /** The value of four bytes read most significant first. */
  function FromBE32(b: seq<byte>): (x: u32)
    requires |b| == 4
  {
    b[3] as int + 0x100 * (b[2] as int + 0x100 * (b[1] as int + 0x100 * b[0] as int))
  }

  /** Each encoding is undone by the matching decoding. */
  lemma ByteOrderRoundTrip(h: u16, x: u32)
    ensures FromBE16(BE16(h)) == h && FromLE16(LE16(h)) == h
    ensures FromLE32(LE32(x)) == x && FromBE32(BE32(x)) == x
  {
    var q1 := x / 0x100;
    var q2 := q1 / 0x100;
    assert x == x % 0x100 + 0x100 * q1;
    assert q1 == q1 % 0x100 + 0x100 * q2;
    assert q2 == q2 % 0x100 + 0x100 * (q2 / 0x100);
  }

  // ---------------------------------------------------------------------
  // Stream words
  // ---------------------------------------------------------------------

  /**
   * One beat of a byte stream: data bytes (byte i is bits 8i+7..8i of the
   * hardware word), one keep flag per byte, and the end-of-frame flag.
   */
  datatype Word = Word(data: seq<byte>, keep: seq<bool>, last: bool)

  /** A word of `width` bytes with one keep flag per byte. */
  predicate Sized(w: Word, width: nat)
  {
    |w.data| == width && |w.keep| == width
  }

  /** The mask whose first n flags (of `width`) are set: lenToKeep. */
  function LenToKeep(n: int, width: nat): (k: seq<bool>)
    ensures |k| == width
    ensures forall i :: 0 <= i < width ==> (k[i] <==> i < n)
  {
    seq(width, i => i < n)
  }

  /** Number of leading set keep flags: keepToLen. */
  function KeepToLen(keep: seq<bool>): (n: nat)
    ensures n <= |keep|
    ensures forall i :: 0 <= i < n ==> keep[i]
    ensures n < |keep| ==> !keep[n]
  {
    if keep == [] || !keep[0] then 0 else 1 + KeepToLen(keep[1..])
  }

  /** A mask made of a run of set flags followed only by clear flags. */
  predicate PrefixKeep(keep: seq<bool>)
  {
    forall i, j :: 0 <= i < j < |keep| && keep[j] ==> keep[i]
  }

  lemma {:induction false} KeepToLenOfLenToKeep(n: nat, width: nat)
    requires n <= width
    ensures KeepToLen(LenToKeep(n, width)) == n
  {
    var k := LenToKeep(n, width);
    var m := KeepToLen(k);
    assert m < width ==> !k[m];
    assert n < width ==> !k[n];
  }

  /** On a prefix mask, the flags are exactly the first KeepToLen positions. */
  lemma PrefixKeepIsLenToKeep(keep: seq<bool>)
    requires PrefixKeep(keep)
    ensures keep == LenToKeep(KeepToLen(keep), |keep|)
  {
    var n := KeepToLen(keep);
    forall i | 0 <= i < |keep|
      ensures keep[i] == (i < n)
    {
    }
  }

  /** The valid bytes of a word. */
  function Valid(w: Word): (s: seq<byte>)
    requires |w.keep| <= |w.data|
  {
    w.data[..KeepToLen(w.keep)]
  }

  function Zeros(n: nat): (s: seq<byte>)
    ensures |s| == n && forall i :: 0 <= i < n ==> s[i] == 0
  {
    seq(n, i => 0)
  }

  // ---------------------------------------------------------------------
  // Sequence facts, stated for any element type so that each is proved
  // once, away from the context of the lemmas that use them
  // ---------------------------------------------------------------------

  lemma SplitAt<T>(d: seq<T>, i: nat, j: nat)
    requires i <= j <= |d|
    ensures d[..j] == d[..i] + d[i..j] && d == d[..i] + d[i..]
  {
  }

  lemma SliceConcat<T>(a: seq<T>, b: seq<T>, k: nat)
    requires k <= |a|
    ensures (a + b)[..k] == a[..k] && (a + b)[k..] == a[k..] + b
  {
  }

  lemma SliceConcat3<T>(a: seq<T>, b: seq<T>, c: seq<T>, k: nat)
    requires k <= |a|
    ensures (a + b + c)[..k] == a[..k] && (a + b + c)[k..] == a[k..] + (b + c)
  {
  }

  lemma HeadTail<T>(a: seq<T>, b: seq<T>)
    requires a != []
    ensures (a + b)[0] == a[0] && (a + b)[1..] == a[1..] + b && [a[0]] + a[1..] == a
    ensures a + b == [a[0]] + (a[1..] + b)
  {
  }

  lemma ConsTail3<T>(x: T, b: seq<T>, c: seq<T>)
    ensures ([x] + b + c)[0] == x && ([x] + b + c)[1..] == b + c
  {
  }

  lemma LastOf<T>(a: seq<T>)
    requires a != []
    ensures a[..|a| - 1] + [a[|a| - 1]] == a && a[|a| - 1..] == [a[|a| - 1]]
  {
  }

  lemma Single<T>(a: seq<T>)
    requires |a| == 1
    ensures a == [a[0]] && a[1..] == []
  {
  }

  lemma Assoc<T>(a: seq<T>, b: seq<T>, c: seq<T>)
    ensures (a + b) + c == a + (b + c)
  {
  }

  lemma Regroup<T>(p: seq<T>, x: seq<T>, y: seq<T>, z: seq<T>)
    ensures (p + x) + (y + z) == p + ((x + y) + z)
  {
  }

  lemma TailSlices<T>(p: seq<T>, k: nat)
    requires 1 <= k <= |p|
    ensures p[1..][k - 1..] == p[k..] && [p[0]] + p[1..][..k - 1] == p[..k]
  {
  }

  // ---------------------------------------------------------------------
  // Connection identification
  // ---------------------------------------------------------------------

  datatype FourTuple = FourTuple(srcIp: u32, dstIp: u32, srcPort: u16, dstPort: u16)
  datatype TwoTuple = TwoTuple(srcIp: u32, dstIp: u32)

  function AddressPair(t: FourTuple): (p: TwoTuple)
    ensures p.srcIp == t.srcIp && p.dstIp == t.dstIp
  {
    TwoTuple(t.srcIp, t.dstIp)
  }

  // ---------------------------------------------------------------------
  // Events, session-table traffic and segment metadata
  // ---------------------------------------------------------------------

  datatype EventKind = Tx | Rt | Ack | AckNoDelay | Syn | SynAck | Fin | Rst

  /**
   * A transmit event. For a reset event, `rstHasSession` and `rstAckNumb`
   * are what the event type's hasSessionID() and getAckNumb() return, and
   * `tuple` is the four-tuple of a stateless reset.
   */
  datatype Event = Event(kind: EventKind, sessionID: u16, length: u16, rtCount: u3,
                         rstHasSession: bool, rstAckNumb: u32, tuple: FourTuple)

  /** Transmit session state as returned by the transmit session table. */
  datatype TxSarReply = TxSarReply(notAckd: u32, ackd: u32, app: u16, minWindow: u16,
                                   finReady: bool, finSent: bool)

  /** Receive session state: next expected byte and the application's read pointer. */
  datatype RxSarEntry = RxSarEntry(recvd: u32, appd: u16)

  /** Requests to the transmit session table. */
  datatype TxSarQuery =
    | ReadQuery(sessionID: u16)
    | WriteQuery(sessionID: u16, notAckd: u32, init: bool, finReady: bool, finSent: bool)
    | ThresholdQuery(sessionID: u16, threshold: u16)

  /** The optional segment-type argument of a retransmit-timer request. */
  datatype TimerHint = NoHint | SynHint | SynAckHint

  datatype RetransmitTimerSet = RetransmitTimerSet(sessionID: u16, hint: TimerHint)

  /** Segment metadata handed to the header builders (tx_engine_meta). */
  datatype Meta = Meta(seqNumb: u32, ackNumb: u32, window: u16, length: u16,
                       ack: bool, rst: bool, syn: bool, fin: bool)

  /** A read command to the payload store: start address and byte count. */
  datatype MemCmd = MemCmd(saddr: u32, bbt: u16)
}
