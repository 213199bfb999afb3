/**
 * The checksum engine (tx_compute_pseudo_tcp_checksum). It reads the
 * stitched pseudo-header and TCP segment one 64-byte word at a time. Each
 * word is cut into 32 big-endian 16-bit lanes, and each lane is added into
 * its own 16-bit accumulator with an end-around carry. On the cycle after
 * the frame's last word, the accumulators are summed by an adder tree and
 * the carry is folded back in. The complement is written as the frame's
 * checksum, and the accumulators are cleared.
 *
 * The reference is the Internet checksum of section 1 of RFC 1071: the
 * complement of the one's-complement sum of the data's 16-bit words. The
 * main lemma shows the engine computes it for every frame.
 */
module Checksum {
  import opened TxTypes
  import opened Streams

  /** The 32 lane accumulators. */
  type Lanes = s: seq<u16> | |s| == 32 witness seq(32, i => 0)

  /** Cleared accumulators. */
  function ZeroLanes(): Lanes
  {
    seq(32, i => 0)
  }

  // ---------------------------------------------------------------------
  // One's-complement arithmetic
  // ---------------------------------------------------------------------

  /** Plain integer sum, folded from the left. */
  function Sum(xs: seq<int>): int
  {
    if xs == [] then 0 else Sum(xs[..|xs| - 1]) + xs[|xs| - 1]
  }

  /**
   * A lane adder: the 17-bit sum, and when its carry bit is set, the low
   * 16 bits of the sum plus one.
   */
  function OnesAdd(a: u16, b: u16): u16
  {
    if a + b >= 0x1_0000 then (a + b + 1) % 0x1_0000 else a + b
  }

  /**
   * The one's-complement sum of 16-bit words, added in order, as section 1
   * of RFC 1071 defines it.
   */
  function OnesSum(xs: seq<u16>): u16
  {
    if xs == [] then 0 else OnesAdd(OnesSum(xs[..|xs| - 1]), xs[|xs| - 1])
  }

  /**
   * `x` stands for the non-negative total `t` in one's-complement
   * arithmetic. The two agree modulo 0xFFFF, and `x` is zero exactly when
   * `t` is. In the range 0..0xFFFF this pins `x` down (see OnesRepUnique).
   */
  predicate OnesRep(x: int, t: int)
  {
    0 <= x && 0 <= t && x % 0xFFFF == t % 0xFFFF && (x == 0 <==> t == 0)
  }

  lemma OnesRepAdd(x: int, t: int, y: int, u: int)
    requires OnesRep(x, t) && OnesRep(y, u)
    ensures OnesRep(x + y, t + u)
  {
    assert x == (x / 0xFFFF) * 0xFFFF + t % 0xFFFF;
    assert y == (y / 0xFFFF) * 0xFFFF + u % 0xFFFF;
    assert t == (t / 0xFFFF) * 0xFFFF + t % 0xFFFF;
    assert u == (u / 0xFFFF) * 0xFFFF + u % 0xFFFF;
    ModShift(t % 0xFFFF + u % 0xFFFF, x / 0xFFFF + y / 0xFFFF);
    ModShift(t % 0xFFFF + u % 0xFFFF, t / 0xFFFF + u / 0xFFFF);
  }

  /** Adding a multiple of 0xFFFF leaves the residue alone. */
  lemma ModShift(r: int, q: int)
    ensures (r + q * 0xFFFF) % 0xFFFF == r % 0xFFFF
  {
  }

  lemma OnesRepTrans(x: int, y: int, t: int)
    requires OnesRep(x, y) && OnesRep(y, t)
    ensures OnesRep(x, t)
  {
  }

  /** Two 16-bit values that stand for the same total are equal. */
  lemma OnesRepUnique(x: int, y: int, t: int)
    requires x <= 0xFFFF && y <= 0xFFFF && OnesRep(x, t) && OnesRep(y, t)
    ensures x == y
  {
    if x != 0 {
      assert (if x == 0xFFFF then 0 else x) == x % 0xFFFF;
      assert (if y == 0xFFFF then 0 else y) == y % 0xFFFF;
    }
  }

  /** The lane adder is one's-complement addition: it stands for the plain sum. */
  lemma OnesAddRep(a: u16, b: u16)
    ensures OnesRep(OnesAdd(a, b), a + b)
  {
    if a + b >= 0x1_0000 {
      assert OnesAdd(a, b) == (a + b) - 0xFFFF;
      ModShift(a + b, -1);
    }
  }

  /** The running one's-complement sum stands for the plain sum of the words. */
  lemma {:induction false} OnesSumRep(xs: seq<u16>)
    ensures OnesRep(OnesSum(xs), Sum(xs))
    decreases |xs|
  {
    if xs != [] {
      var p := xs[..|xs| - 1];
      var x := xs[|xs| - 1];
      OnesSumRep(p);
      OnesAddRep(OnesSum(p), x);
      OnesRepAdd(OnesSum(p), Sum(p), x, x);
      OnesRepTrans(OnesAdd(OnesSum(p), x), OnesSum(p) + x, Sum(p) + x);
    }
  }

  /**
   * The carry fold at the bottom of the adder tree: bits 15..0 of the
   * 21-bit total plus bits 20..16, and when that overflows 16 bits, the
   * low 16 bits of the sum plus one.
   */
  function FoldCarry(t: int): u16
    requires 0 <= t < 0x20_0000
  {
    var r := t % 0x1_0000 + t / 0x1_0000;
    if r >= 0x1_0000 then (r + 1) % 0x1_0000 else r
  }

  /** A single fold suffices: a 21-bit total folds to a 16-bit value standing for it. */
  lemma FoldCarryRep(t: int)
    requires 0 <= t < 0x20_0000
    ensures OnesRep(FoldCarry(t), t)
  {
    var lo, hi := t % 0x1_0000, t / 0x1_0000;
    assert t == hi * 0xFFFF + (lo + hi);
    ModShift(lo + hi, hi);
    if lo + hi >= 0x1_0000 {
      ModShift(lo + hi, -1);
    }
  }

  /** The complement a 16-bit bitwise NOT computes. */
  function Complement(x: u16): u16
  {
    0xFFFF - x
  }

  // ---------------------------------------------------------------------
  // The reference: the Internet checksum of a byte sequence
  // ---------------------------------------------------------------------

  /** The data's 16-bit big-endian words, an odd final byte padded with zero. */
  function Words16(d: seq<byte>): seq<u16>
  {
    seq((|d| + 1) / 2, i requires 0 <= i < (|d| + 1) / 2 =>
      d[2 * i] as int * 0x100 + (if 2 * i + 1 < |d| then d[2 * i + 1] else 0))
  }

  /** The Internet checksum of section 1 of RFC 1071. */
  function Rfc1071(d: seq<byte>): u16
  {
    Complement(OnesSum(Words16(d)))
  }

  /**
   * The receiver's check of section 1 of RFC 1071: adding the checksum to
   * the one's-complement sum of the data gives all ones.
   */
  lemma ChecksumCompletesToOnes(d: seq<byte>)
    ensures OnesSum(Words16(d) + [Rfc1071(d)]) == 0xFFFF
  {
    var xs := Words16(d) + [Rfc1071(d)];
    assert xs[..|xs| - 1] == Words16(d);
  }

  // ---------------------------------------------------------------------
  // Lanes
  // ---------------------------------------------------------------------

  /** Lane i of a word: byte 2i as the high half and byte 2i+1 as the low half. */
  function LaneWord(w: Word64, i: nat): u16
    requires i < 32
  {
    w.data[2 * i] as int * 0x100 + w.data[2 * i + 1]
  }

  function LaneWords(w: Word64): seq<u16>
  {
    seq(32, i requires 0 <= i < 32 => LaneWord(w, i))
  }

  /** The read cycle's lane update. */
  function ReadLanes(lanes: Lanes, w: Word64): Lanes
  {
    seq(32, i requires 0 <= i < 32 => OnesAdd(lanes[i], LaneWord(w, i)))
  }

  /** Element-wise sum of two vectors of the same length. */
  function AddVec(a: seq<int>, b: seq<int>): (c: seq<int>)
    requires |a| == |b|
    ensures |c| == |a|
  {
    seq(|a|, i requires 0 <= i < |a| => a[i] + b[i])
  }

  /** The plain per-lane totals of a sequence of words. */
  function Totals(ws: seq<Word64>): (t: seq<int>)
    ensures |t| == 32
  {
    if ws == [] then seq(32, i => 0) else AddVec(LaneWords(ws[0]), Totals(ws[1..]))
  }

  /** Every byte of every word, in order, whatever its keep flag. */
  function AllData(ws: seq<Word64>): seq<byte>
  {
    if ws == [] then [] else ws[0].data + AllData(ws[1..])
  }

  /** Every lane stands for its total. */
  predicate AllRep(lanes: seq<int>, t: seq<int>)
  {
    |lanes| == |t| && forall i :: 0 <= i < |lanes| ==> OnesRep(lanes[i], t[i])
  }

  lemma {:induction false} SumAppend(a: seq<int>, b: seq<int>)
    ensures Sum(a + b) == Sum(a) + Sum(b)
    decreases |b|
  {
    if b == [] {
      assert a + b == a;
    } else {
      var b' := b[..|b| - 1];
      assert (a + b)[..|a + b| - 1] == a + b';
      SumAppend(a, b');
    }
  }

  lemma {:induction false} SumAddVec(a: seq<int>, b: seq<int>)
    requires |a| == |b|
    ensures Sum(AddVec(a, b)) == Sum(a) + Sum(b)
    decreases |a|
  {
    if a != [] {
      var n := |a| - 1;
      assert AddVec(a, b)[..n] == AddVec(a[..n], b[..n]);
      SumAddVec(a[..n], b[..n]);
    }
  }

  lemma {:induction false} SumZeros(n: nat)
    ensures Sum(seq(n, i => 0)) == 0
  {
    if n > 0 {
      assert seq(n, i => 0)[..n - 1] == seq(n - 1, i => 0);
      SumZeros(n - 1);
    }
  }

  /** 32 lanes of at most 0xFFFF each sum to fewer than 2^21. */
  lemma {:induction false} SumBound(xs: seq<u16>)
    ensures 0 <= Sum(xs) <= |xs| * 0xFFFF
    decreases |xs|
  {
    if xs != [] {
      SumBound(xs[..|xs| - 1]);
    }
  }

  /** Lanes standing for their totals have a sum standing for the sum of the totals. */
  lemma {:induction false} SumRep(lanes: seq<int>, t: seq<int>)
    requires AllRep(lanes, t)
    ensures OnesRep(Sum(lanes), Sum(t))
    decreases |lanes|
  {
    if lanes != [] {
      var n := |lanes| - 1;
      SumRep(lanes[..n], t[..n]);
      OnesRepAdd(Sum(lanes[..n]), Sum(t[..n]), lanes[n], t[n]);
    }
  }

  /** A read cycle keeps every lane standing for its total plus the word's lane. */
  lemma ReadKeepsRep(lanes: Lanes, t: seq<int>, w: Word64)
    requires AllRep(lanes, t)
    ensures AllRep(ReadLanes(lanes, w), AddVec(t, LaneWords(w)))
  {
    forall i | 0 <= i < 32
      ensures OnesRep(ReadLanes(lanes, w)[i], AddVec(t, LaneWords(w))[i])
    {
      var x := LaneWord(w, i);
      OnesAddRep(lanes[i], x);
      OnesRepAdd(lanes[i], t[i], x, x);
      OnesRepTrans(OnesAdd(lanes[i], x), lanes[i] + x, t[i] + x);
    }
  }

  /** Cutting words into whole 16-bit words splits at a word boundary. */
  lemma Words16Append(a: seq<byte>, b: seq<byte>)
    requires |a| % 2 == 0
    ensures Words16(a + b) == Words16(a) + Words16(b)
  {
    var l, r := Words16(a + b), Words16(a) + Words16(b);
    assert |l| == |r|;
    forall i | 0 <= i < |l|
      ensures l[i] == r[i]
    {
      if 2 * i >= |a| {
        assert (a + b)[2 * i] == b[2 * i - |a|];
      }
    }
  }

  /** The lanes of a word are the 16-bit words of its data. */
  lemma LaneWordsAreWords16(w: Word64)
    ensures Words16(w.data) == LaneWords(w)
  {
  }

  /** The totals over all lanes add up to the plain sum of the frame's 16-bit words. */
  lemma {:induction false} TotalsSum(ws: seq<Word64>)
    ensures Sum(Totals(ws)) == Sum(Words16(AllData(ws)))
    decreases |ws|
  {
    if ws == [] {
      SumZeros(32);
    } else {
      var w := ws[0];
      TotalsSum(ws[1..]);
      LaneWordsAreWords16(w);
      Words16Append(w.data, AllData(ws[1..]));
      SumAppend(Words16(w.data), Words16(AllData(ws[1..])));
      SumAddVec(LaneWords(w), Totals(ws[1..]));
    }
  }

  // ---------------------------------------------------------------------
  // The stage
  // ---------------------------------------------------------------------

  /** The stage's statics: the lane accumulators and the compute flag. */
  datatype ChecksumState = ChecksumState(lanes: Lanes, compute: bool)

  const Idle := ChecksumState(ZeroLanes(), false)

  /** The state after a step, the words left, and the checksums written. */
  datatype ChecksumStep = ChecksumStep(state: ChecksumState, rest: seq<Word64>, out: seq<u16>)

  /** The adder tree over the lanes, its carry folded back once, complemented. */
  function Reduce(lanes: Lanes): u16
  {
    SumBound(lanes);
    Complement(FoldCarry(Sum(lanes)))
  }

  /** One cycle. */
  function ChecksumNext(s: ChecksumState, inp: seq<Word64>): ChecksumStep
  {
    if inp != [] && !s.compute then
      ChecksumStep(ChecksumState(ReadLanes(s.lanes, inp[0]), inp[0].last), inp[1..], [])
    else if s.compute then
      ChecksumStep(Idle, inp, [Reduce(s.lanes)])
    else
      ChecksumStep(s, inp, [])
  }

  /** `n` cycles, with every checksum written. */
  function ChecksumRun(s: ChecksumState, inp: seq<Word64>, n: nat): ChecksumStep
    decreases n
  {
    if n == 0 then ChecksumStep(s, inp, [])
    else
      var r := ChecksumNext(s, inp);
      var r' := ChecksumRun(r.state, r.rest, n - 1);
      ChecksumStep(r'.state, r'.rest, r.out + r'.out)
  }

  /** `a` cycles and then `m` more are `a + m` cycles. */
  lemma {:induction false} ChecksumRunAppend(s: ChecksumState, inp: seq<Word64>, a: nat, m: nat, n: nat, r1: ChecksumStep)
    requires n == a + m && r1 == ChecksumRun(s, inp, a)
    ensures var r2 := ChecksumRun(r1.state, r1.rest, m);
            ChecksumRun(s, inp, n) == ChecksumStep(r2.state, r2.rest, r1.out + r2.out)
    decreases a
  {
    var r2 := ChecksumRun(r1.state, r1.rest, m);
    if a == 0 {
      assert r1.out + r2.out == r2.out;
    } else {
      var r := ChecksumNext(s, inp);
      var r1' := ChecksumRun(r.state, r.rest, a - 1);
      ChecksumRunAppend(r.state, r.rest, a - 1, m, n - 1, r1');
      assert r.out + (r1'.out + r2.out) == (r.out + r1'.out) + r2.out;
    }
  }

  /** Only the final word of the sequence is marked last. */
  predicate LastAtEnd(ws: seq<Word64>)
  {
    |ws| >= 1 && ws[|ws| - 1].last && forall k :: 0 <= k < |ws| - 1 ==> !ws[k].last
  }

  /**
   * Reading a frame takes one cycle per word and writes nothing. Afterwards
   * the stage is in its compute phase, the words after the frame are left
   * unread, and each lane stands for its earlier total plus the frame's
   * lane total.
   */
  lemma {:induction false} ReadFrame(s: ChecksumState, ws: seq<Word64>, rest: seq<Word64>, t: seq<int>,
                                     n: nat, r: ChecksumStep)
    requires !s.compute && AllRep(s.lanes, t) && LastAtEnd(ws)
    requires n == |ws| && r == ChecksumRun(s, ws + rest, n)
    ensures r.state.compute && r.rest == rest && r.out == []
    ensures AllRep(r.state.lanes, AddVec(t, Totals(ws)))
    decreases |ws|
  {
    var inp := ws + rest;
    var w := ws[0];
    assert inp[0] == w && inp[1..] == ws[1..] + rest;
    var r1 := ChecksumNext(s, inp);
    ReadKeepsRep(s.lanes, t, w);
    var t' := AddVec(t, LaneWords(w));
    if |ws| == 1 {
      assert ws[1..] == [] && rest == r1.rest;
      assert AddVec(t, Totals(ws)) == t';
    } else {
      var r' := ChecksumRun(r1.state, r1.rest, n - 1);
      ReadFrame(r1.state, ws[1..], rest, t', n - 1, r');
      assert AddVec(t', Totals(ws[1..])) == AddVec(t, Totals(ws));
    }
  }

  /**
   * Lanes that stand for a frame's totals reduce to the frame's Internet
   * checksum.
   */
  lemma ReduceIsChecksum(lanes: Lanes, ws: seq<Word64>)
    requires AllRep(lanes, AddVec(ZeroLanes(), Totals(ws)))
    ensures Reduce(lanes) == Rfc1071(AllData(ws))
  {
    var words := Words16(AllData(ws));
    SumRep(lanes, AddVec(ZeroLanes(), Totals(ws)));
    SumAddVec(ZeroLanes(), Totals(ws));
    SumZeros(32);
    TotalsSum(ws);
    SumBound(lanes);
    FoldCarryRep(Sum(lanes));
    OnesRepTrans(FoldCarry(Sum(lanes)), Sum(lanes), Sum(words));
    OnesSumRep(words);
    OnesRepUnique(FoldCarry(Sum(lanes)), OnesSum(words), Sum(words));
  }

  /**
   * One frame from the idle stage: a cycle per word plus one more writes
   * exactly one value, the Internet checksum of the frame's data, and leaves
   * the lanes cleared, the stage idle and the next frame unread.
   */
  lemma FrameChecksum(ws: seq<Word64>, rest: seq<Word64>, n: nat)
    requires LastAtEnd(ws) && n == |ws| + 1
    ensures ChecksumRun(Idle, ws + rest, n) == ChecksumStep(Idle, rest, [Rfc1071(AllData(ws))])
  {
    var r1 := ChecksumRun(Idle, ws + rest, |ws|);
    var zeros: seq<int> := ZeroLanes();
    assert AllRep(ZeroLanes(), zeros);
    ReadFrame(Idle, ws, rest, zeros, |ws|, r1);
    ReduceIsChecksum(r1.state.lanes, ws);
    ChecksumRunAppend(Idle, ws + rest, |ws|, 1, n, r1);
  }

  // ---------------------------------------------------------------------
  // Frames whose unused bytes are zero
  // ---------------------------------------------------------------------

  /** Every byte past the word's keep mask is zero. */
  predicate PaddedWithZeros(w: Word)
  {
    forall i :: KeepToLen(w.keep) <= i < |w.data| ==> w.data[i] == 0
  }

  /** An odd-length sequence is cut as if padded with one zero byte. */
  lemma Words16PadOdd(d: seq<byte>)
    requires |d| % 2 == 1
    ensures Words16(d + [0]) == Words16(d)
  {
  }

  lemma SumWords16OfZeros(k: nat)
    ensures Sum(Words16(Zeros(k))) == 0
  {
    assert Words16(Zeros(k)) == seq((k + 1) / 2, i => 0);
    SumZeros((k + 1) / 2);
  }

  lemma ZerosAfterOdd(d: seq<byte>, k: nat)
    requires k > 0
    ensures d + Zeros(k) == (d + [0]) + Zeros(k - 1)
  {
    assert Zeros(k) == [0] + Zeros(k - 1);
  }

  /** Zero bytes after data of even length add nothing to the plain sum of its 16-bit words. */
  lemma SumWords16ZerosEven(d: seq<byte>, k: nat)
    requires |d| % 2 == 0
    ensures Sum(Words16(d + Zeros(k))) == Sum(Words16(d))
  {
    Words16Append(d, Zeros(k));
    SumAppend(Words16(d), Words16(Zeros(k)));
    SumWords16OfZeros(k);
  }

  /** Zero bytes after the data add nothing to the plain sum of its 16-bit words. */
  lemma SumWords16Zeros(d: seq<byte>, k: nat)
    ensures Sum(Words16(d + Zeros(k))) == Sum(Words16(d))
  {
    if k == 0 {
      assert d + Zeros(k) == d;
    } else if |d| % 2 == 0 {
      SumWords16ZerosEven(d, k);
    } else {
      var d' := d + [0];
      ZerosAfterOdd(d, k);
      Words16PadOdd(d);
      SumWords16ZerosEven(d', k - 1);
    }
  }

  /** A packed frame's words hold its bytes followed by the zero padding of its final word. */
  lemma {:induction false} AllDataOfPacked(ws: seq<Word64>)
    requires Packed(ws) && PaddedWithZeros(ws[|ws| - 1])
    ensures Keyed(ws)
    ensures AllData(ws) == Bytes(ws) + Zeros(64 - KeepToLen(ws[|ws| - 1].keep))
    decreases |ws|
  {
    PackedKeyed(ws);
    var w := ws[0];
    if |ws| == 1 {
      BytesOne(w);
      assert ws[1..] == [];
      assert w.data == Valid(w) + Zeros(64 - KeepToLen(w.keep));
    } else {
      var t := ws[1..];
      assert Packed(t);
      AllDataOfPacked(t);
      FullCarriesAll(w);
      assert [w] + t == ws;
      BytesCons(w, t);
      assert ws[|ws| - 1] == t[|t| - 1];
      Assoc(w.data, Bytes(t), Zeros(64 - KeepToLen(t[|t| - 1].keep)));
    }
  }

  /**
   * For a packed frame whose final word is zero past its keep mask, the
   * checksum over every byte of its words is the Internet checksum of the
   * bytes the frame carries.
   */
  lemma PaddedFrameChecksum(ws: seq<Word64>, rest: seq<Word64>, n: nat)
    requires Packed(ws) && PaddedWithZeros(ws[|ws| - 1]) && n == |ws| + 1
    ensures Keyed(ws)
    ensures ChecksumRun(Idle, ws + rest, n) == ChecksumStep(Idle, rest, [Rfc1071(Bytes(ws))])
  {
    FrameChecksum(ws, rest, n);
    AllDataOfPacked(ws);
    ZeroPaddingKeepsChecksum(Bytes(ws), 64 - KeepToLen(ws[|ws| - 1].keep));
  }

  /** Zero bytes appended to the data leave its checksum unchanged. */
  lemma ZeroPaddingKeepsChecksum(d: seq<byte>, z: nat)
    ensures Rfc1071(d + Zeros(z)) == Rfc1071(d)
  {
    SumWords16Zeros(d, z);
    OnesSumRep(Words16(d + Zeros(z)));
    OnesSumRep(Words16(d));
    OnesRepUnique(OnesSum(Words16(d + Zeros(z))), OnesSum(Words16(d)), Sum(Words16(d)));
  }

  /** With nothing to read and no frame finished, the stage waits unchanged. */
  lemma WaitsForData(s: ChecksumState)
    requires !s.compute
    ensures ChecksumNext(s, []) == ChecksumStep(s, [], [])
  {
  }

  class ChecksumEngine {
    var wordSum: array<u16>
    var computeChecksum: bool

    predicate Valid()
      reads this
    {
      wordSum.Length == 32
    }

    function State(): ChecksumState
      requires Valid()
      reads this, wordSum
    {
      ChecksumState(wordSum[..], computeChecksum)
    }

    constructor ()
      ensures Valid() && State() == Idle && fresh(wordSum)
    {
      wordSum := new u16[32](i => 0);
      computeChecksum := false;
      new;
      assert wordSum[..] == ZeroLanes();
    }

    /** One cycle: returns the words left and the checksum written, if any. */
    method Step(inp: seq<Word64>) returns (rest: seq<Word64>, out: seq<u16>)
      requires Valid()
      modifies this, wordSum
      ensures Valid() && wordSum == old(wordSum)
      ensures ChecksumStep(State(), rest, out) == ChecksumNext(old(State()), inp)
    {
      rest, out := inp, [];
      if inp != [] && !computeChecksum {
        var w := inp[0];
        rest := inp[1..];
        AddWord(w);
        if w.last {
          computeChecksum := true;
        }
      } else if computeChecksum {
        var res := ReduceAndClear();
        computeChecksum := false;
        out := [res];
      }
    }

    /** The read cycle's 32 lane adders. */
    method AddWord(w: Word64)
      requires Valid()
      modifies wordSum
      ensures wordSum[..] == ReadLanes(old(wordSum[..]), w)
    {
      ghost var lanes: Lanes := wordSum[..];
      for i := 0 to 32
        invariant forall k :: 0 <= k < i ==> wordSum[k] == OnesAdd(lanes[k], LaneWord(w, k))
        invariant forall k :: i <= k < 32 ==> wordSum[k] == lanes[k]
      {
        var x := w.data[2 * i] as int * 0x100 + w.data[2 * i + 1];
        var sum := wordSum[i] + x;
        if sum >= 0x1_0000 {
          wordSum[i] := (sum + 1) % 0x1_0000;
        } else {
          wordSum[i] := sum;
        }
      }
      assert wordSum[..] == ReadLanes(lanes, w);
    }

    /**
     * The compute cycle: the adder tree over the lanes (whose widths hold
     * every sum exactly), the carry fold and the complement; the lanes are
     * cleared on the way.
     */
    method ReduceAndClear() returns (res: u16)
      requires Valid()
      modifies wordSum
      ensures wordSum[..] == ZeroLanes()
      ensures res == Reduce(old(wordSum[..]))
    {
      ghost var lanes: Lanes := wordSum[..];
      var l1: seq<int> := [];
      for i := 0 to 16
        invariant |l1| == i && Sum(l1) == Sum(lanes[..2 * i])
        invariant forall k :: 0 <= k < 2 * i ==> wordSum[k] == 0
        invariant forall k :: 2 * i <= k < 32 ==> wordSum[k] == lanes[k]
      {
        var prev := l1;
        l1 := prev + [wordSum[2 * i] as int + wordSum[2 * i + 1]];
        assert l1[..i] == prev;
        wordSum[2 * i] := 0;
        wordSum[2 * i + 1] := 0;
        PairStep(l1, lanes, i);
      }
      assert lanes[..32] == lanes;
      var l2 := PairSums(l1);
      var l3 := PairSums(l2);
      var l4 := PairSums(l3);
      var l5 := l4[1] + l4[0];
      assert Sum(l4) == l5 by {
        assert l4[..1] == [l4[0]] && [l4[0]][..0] == [];
      }
      SumBound(lanes);
      var lo, hi := l5 % 0x1_0000, l5 / 0x1_0000;
      var finalSum := lo + hi;
      if finalSum >= 0x1_0000 {
        res := 0xFFFF - (finalSum + 1) % 0x1_0000;
      } else {
        res := 0xFFFF - finalSum;
      }
      assert wordSum[..] == ZeroLanes();
    }
  }

  /** One step of a pair-summing loop: the new last entry is the next two inputs' sum. */
  lemma PairStep(ys: seq<int>, xs: seq<int>, i: nat)
    requires |ys| == i + 1 && 2 * i + 2 <= |xs|
    requires Sum(ys[..i]) == Sum(xs[..2 * i]) && ys[i] == xs[2 * i] + xs[2 * i + 1]
    ensures Sum(ys) == Sum(xs[..2 * i + 2])
  {
    assert xs[..2 * i + 2][..2 * i + 1] == xs[..2 * i + 1];
    assert xs[..2 * i + 1][..2 * i] == xs[..2 * i];
  }

  /** One level of the adder tree: neighbouring entries summed in pairs. */
  method PairSums(xs: seq<int>) returns (ys: seq<int>)
    requires |xs| % 2 == 0
    ensures |ys| == |xs| / 2
    ensures Sum(ys) == Sum(xs)
  {
    ys := [];
    for i := 0 to |xs| / 2
      invariant |ys| == i && Sum(ys) == Sum(xs[..2 * i])
    {
      var prev := ys;
      ys := prev + [xs[2 * i + 1] + xs[2 * i]];
      assert ys[..i] == prev;
      PairStep(ys, xs, i);
    }
    assert xs[..|xs|] == xs;
  }
}
