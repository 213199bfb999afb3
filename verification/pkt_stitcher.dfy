/**
 * The segment stitcher (tx_pseudo_header_pkt_stitcher), as written for
 * 8-byte words. It relays the header words of a segment (four, or five
 * when the SYN flag announces the MSS option word), then relays the words
 * of the payload read. When the breakdown marker says the read was split
 * in two and the first part ends in a partial word, the bytes of the
 * second part are shifted so that the segment's bytes stay contiguous,
 * with one more word at the end when the shifted bytes overflow.
 *
 * The bypass configuration (TCP_NODELAY) is not modelled: the phase it
 * would handle (state 7) has no case in the default build, so the stage
 * does nothing there.
 */
module PktStitcher {
  import opened TxTypes
  import opened Streams

  /** tps_state: 0 header, 1 option word, 2 relay, 3 first spliced word, 4 splice, 5 flush, 7 bypass. */
  datatype Phase = ReadHeader | ReadOption | Relay | SpliceFirst | Splice | Flush | Bypass

  /**
   * The stage's statics: the phase, the header word count, the word held,
   * the marker read for this segment, the valid bytes of the first part's
   * last word (shiftBuffer), and whether the marker has been read.
   */
  datatype StitchState = StitchState(phase: Phase, wordCount: u3, currWord: Word8, accBreakDown: bool,
                                     shift: u4, brkDownReadIn: bool)

  /** Header words, payload read words, and breakdown markers. */
  datatype StitchInputs = StitchInputs(headers: seq<Word8>, payload: seq<Word8>, markers: seq<bool>)

  datatype StitchStep = StitchStep(state: StitchState, rest: StitchInputs, out: seq<Word8>)

  const AllKeep: seq<bool> := LenToKeep(8, 8)

  const EmptyWord: Word8 := Word(Zeros(8), LenToKeep(0, 8), false)

  const InitialStitch := StitchState(ReadHeader, 0, EmptyWord, false, 0, false)

  /** The shift never exceeds a word; while splicing it is less than a word, and a flush has bytes left to flush. */
  predicate Inv(s: StitchState)
  {
    && s.shift <= 8
    && (s.phase in {SpliceFirst, Splice, Flush} ==> s.shift < 8)
    && (s.phase == Flush ==> KeepToLen(s.currWord.keep) >= 8 - s.shift)
  }

  /** Bit 9 of a word: in the fourth header word, the SYN flag. */
  predicate SynBit(w: Word8)
  {
    w.data[1] / 2 % 2 == 1
  }

  function HeaderNext(s: StitchState, inp: StitchInputs): StitchStep
  {
    if inp.headers == [] then StitchStep(s, inp, [])
    else
      var w := inp.headers[0];
      var phase := if w.last || s.wordCount != 3 then ReadHeader else if SynBit(w) then ReadOption else Relay;
      var count: u3 := if w.last || s.wordCount == 3 then 0 else (s.wordCount + 1) % 8;
      StitchStep(s.(phase := phase, wordCount := count, currWord := w, brkDownReadIn := false),
                 inp.(headers := inp.headers[1..]), [w])
  }

  function OptionNext(s: StitchState, inp: StitchInputs): StitchStep
  {
    if inp.headers == [] then StitchStep(s, inp, [])
    else
      var w := inp.headers[0];
      StitchStep(s.(phase := if w.last then ReadHeader else Bypass, wordCount := 0, currWord := w),
                 inp.(headers := inp.headers[1..]), [w])
  }

  function RelayNext(s: StitchState, inp: StitchInputs, outFull: bool): (r: StitchStep)
    requires Inv(s) && s.phase == Relay
    ensures Inv(r.state)
  {
    if inp.payload == [] || outFull || (!s.brkDownReadIn && inp.markers == []) then StitchStep(s, inp, [])
    else
      var acc := if s.brkDownReadIn then s.accBreakDown else inp.markers[0];
      var markers := if s.brkDownReadIn then inp.markers else inp.markers[1..];
      var w := inp.payload[0];
      var rest := inp.(payload := inp.payload[1..], markers := markers);
      var s1 := s.(brkDownReadIn := true, accBreakDown := acc, currWord := w);
      if !w.last then StitchStep(s1, rest, [w])
      else if !acc then StitchStep(s1.(phase := ReadHeader), rest, [w])
      else
        var w': Word8 := w.(last := false);
        var s2 := s1.(shift := KeepToLen(w.keep), accBreakDown := false, currWord := w');
        if !Full(w) then
          NotFullIsShort(w);
          StitchStep(s2.(phase := SpliceFirst), rest, [])
        else StitchStep(s2, rest, [w'])
  }

  /** The shifted-in bytes held over: the first part's partial word, or the previous word's tail. */
  function Pending(s: StitchState): (p: seq<byte>)
    requires s.shift <= 8
    ensures |p| == s.shift
  {
    if s.phase == SpliceFirst then s.currWord.data[..s.shift] else s.currWord.data[8 - s.shift..]
  }

  function SpliceNext(s: StitchState, inp: StitchInputs, outFull: bool): (r: StitchStep)
    requires Inv(s) && s.phase in {SpliceFirst, Splice}
    ensures Inv(r.state)
  {
    if inp.payload == [] || outFull then StitchStep(s, inp, [])
    else
      var w := inp.payload[0];
      var data := Pending(s) + w.data[..8 - s.shift];
      var kc := KeepToLen(w.keep);
      var rest := inp.(payload := inp.payload[1..]);
      if kc < 8 - s.shift then
        StitchStep(s.(phase := ReadHeader, currWord := w), rest, [Word(data, LenToKeep(kc + s.shift, 8), true)])
      else
        StitchStep(s.(phase := if w.last then Flush else Splice, currWord := w), rest, [Word(data, AllKeep, false)])
  }

  function FlushNext(s: StitchState, inp: StitchInputs, outFull: bool): (r: StitchStep)
    requires Inv(s) && s.phase == Flush
    ensures Inv(r.state)
  {
    if outFull then StitchStep(s, inp, [])
    else
      var kc := KeepToLen(s.currWord.keep) - (8 - s.shift);
      StitchStep(s.(phase := ReadHeader), inp,
                 [Word(s.currWord.data[8 - s.shift..] + Zeros(8 - s.shift), LenToKeep(kc, 8), true)])
  }

  /** One cycle; `outFull` is the segment output's full flag (checked in the payload phases only). */
  function StitchNext(s: StitchState, inp: StitchInputs, outFull: bool): (r: StitchStep)
    requires Inv(s)
    ensures Inv(r.state)
  {
    match s.phase
    case ReadHeader => HeaderNext(s, inp)
    case ReadOption => OptionNext(s, inp)
    case Relay => RelayNext(s, inp, outFull)
    case SpliceFirst => SpliceNext(s, inp, outFull)
    case Splice => SpliceNext(s, inp, outFull)
    case Flush => FlushNext(s, inp, outFull)
    case Bypass => StitchStep(s, inp, [])
  }

  /** In a splice phase, a cycle is a splice step. */
  lemma StitchIsSplice(s: StitchState, inp: StitchInputs)
    requires Inv(s) && s.phase in {SpliceFirst, Splice}
    ensures StitchNext(s, inp, false) == SpliceNext(s, inp, false)
  {
  }

  /** `n` cycles without back-pressure. */
  function StitchRun(s: StitchState, inp: StitchInputs, n: nat): (r: StitchStep)
    requires Inv(s)
    ensures Inv(r.state)
    decreases n
  {
    if n == 0 then StitchStep(s, inp, [])
    else
      var r := StitchNext(s, inp, false);
      var r' := StitchRun(r.state, r.rest, n - 1);
      StitchStep(r'.state, r'.rest, r.out + r'.out)
  }

  // ---------------------------------------------------------------------
  // Runs
  // ---------------------------------------------------------------------

  /** Running a + b cycles is running a cycles, then b more. */
  lemma {:induction false} RunAppend(s: StitchState, inp: StitchInputs, a: nat, m: nat, n: nat, r1: StitchStep)
    requires Inv(s) && r1 == StitchRun(s, inp, a) && n == a + m
    ensures var r2 := StitchRun(r1.state, r1.rest, m);
            StitchRun(s, inp, n) == StitchStep(r2.state, r2.rest, r1.out + r2.out)
    decreases a, 1
  {
    if a == 0 {
      assert r1 == StitchStep(s, inp, []);
      assert [] + StitchRun(s, inp, m).out == StitchRun(s, inp, m).out;
    } else {
      RunAppendStep(s, inp, a, m, n, r1);
    }
  }

  /** The step of RunAppend: the first cycle, then the rest of the a cycles and the m after them. */
  lemma {:induction false} RunAppendStep(s: StitchState, inp: StitchInputs, a: nat, m: nat, n: nat, r1: StitchStep)
    requires Inv(s) && r1 == StitchRun(s, inp, a) && n == a + m && a > 0
    ensures var r2 := StitchRun(r1.state, r1.rest, m);
            StitchRun(s, inp, n) == StitchStep(r2.state, r2.rest, r1.out + r2.out)
    decreases a, 0
  {
    var r := StitchNext(s, inp, false);
    var r' := StitchRun(r.state, r.rest, a - 1);
    RunOne(s, inp, a - 1, a, r);
    RunOne(s, inp, n - 1, n, r);
    RunAppend(r.state, r.rest, a - 1, m, n - 1, r');
    Assoc(r.out, r'.out, StitchRun(r1.state, r1.rest, m).out);
  }

  /** A run of one cycle is that cycle. */
  lemma RunSingle(s: StitchState, inp: StitchInputs, n: nat, r1: StitchStep)
    requires Inv(s) && n == 1 && r1 == StitchNext(s, inp, false)
    ensures StitchRun(s, inp, n) == r1
  {
    assert r1.out + [] == r1.out;
  }

  /** Running one cycle, then m more. */
  lemma RunOne(s: StitchState, inp: StitchInputs, m: nat, n: nat, r1: StitchStep)
    requires Inv(s) && n == m + 1 && r1 == StitchNext(s, inp, false)
    ensures var r2 := StitchRun(r1.state, r1.rest, m);
            StitchRun(s, inp, n) == StitchStep(r2.state, r2.rest, r1.out + r2.out)
  {
  }

  /**
   * Four header words without the end-of-frame flag, the fourth without
   * SYN, are relayed unchanged and leave the stage waiting for payload,
   * with the marker not yet read.
   */
  lemma HeaderThenPayload(s: StitchState, inp: StitchInputs, r: StitchStep)
    requires Inv(s) && s.phase == ReadHeader && s.wordCount == 0
    requires |inp.headers| >= 4 && forall k :: 0 <= k < 4 ==> !inp.headers[k].last
    requires !SynBit(inp.headers[3])
    requires r == StitchRun(s, inp, 4)
    ensures r.out == inp.headers[..4]
    ensures r.state.phase == Relay && !r.state.brkDownReadIn && r.state.wordCount == 0
    ensures r.rest == inp.(headers := inp.headers[4..])
  {
    var h := inp.headers;
    var r1 := StitchNext(s, inp, false);
    var r2 := StitchNext(r1.state, r1.rest, false);
    var r3 := StitchNext(r2.state, r2.rest, false);
    var r4 := StitchNext(r3.state, r3.rest, false);
    assert r1.rest.headers == h[1..] && r2.rest.headers == h[2..] && r3.rest.headers == h[3..];
    assert r4.rest.headers == h[4..];
    RunOne(s, inp, 3, 4, r1);
    RunOne(r1.state, r1.rest, 2, 3, r2);
    RunOne(r2.state, r2.rest, 1, 2, r3);
    RunOne(r3.state, r3.rest, 0, 1, r4);
    assert r.out == [h[0], h[1], h[2], h[3]];
  }

  /** A header word marked last ends the segment: the stage returns to reading headers. */
  lemma LastHeaderWordEndsSegment(s: StitchState, inp: StitchInputs)
    requires Inv(s) && s.phase in {ReadHeader, ReadOption} && inp.headers != [] && inp.headers[0].last
    ensures StitchNext(s, inp, false).out == [inp.headers[0]]
    ensures StitchNext(s, inp, false).state.phase == ReadHeader && StitchNext(s, inp, false).state.wordCount == 0
  {
  }

  /** After the option word of a SYN header, an option word not marked last leaves the stage in state 7, where nothing moves. */
  lemma OptionWordWithoutLastStalls(s: StitchState, inp: StitchInputs, more: StitchInputs)
    requires Inv(s) && s.phase == ReadOption && inp.headers != [] && !inp.headers[0].last
    ensures StitchNext(s, inp, false).state.phase == Bypass
    ensures StitchNext(StitchNext(s, inp, false).state, more, false) ==
              StitchStep(StitchNext(s, inp, false).state, more, [])
  {
  }

  // ---------------------------------------------------------------------
  // Single payload cycles
  // ---------------------------------------------------------------------

  /** Reading the marker with the first payload word is reading it first, then relaying as if it had been read. */
  lemma MarkerThenRelay(s: StitchState, inp: StitchInputs)
    requires Inv(s) && s.phase == Relay && !s.brkDownReadIn && inp.markers != [] && inp.payload != []
    ensures RelayNext(s, inp, false) ==
              RelayNext(s.(brkDownReadIn := true, accBreakDown := inp.markers[0]), inp.(markers := inp.markers[1..]), false)
  {
  }

  /** A payload word not marked last is relayed unchanged. */
  lemma RelayWord(s: StitchState, inp: StitchInputs, r: StitchStep)
    requires Inv(s) && s.phase == Relay && s.brkDownReadIn && inp.payload != [] && !inp.payload[0].last
    requires r == RelayNext(s, inp, false)
    ensures r.out == [inp.payload[0]] && r.state == s.(currWord := inp.payload[0])
    ensures r.rest == inp.(payload := inp.payload[1..])
  {
  }

  /** The last word of a read that is not split is relayed unchanged and ends the segment. */
  lemma RelayLastWord(s: StitchState, inp: StitchInputs, r: StitchStep)
    requires Inv(s) && s.phase == Relay && s.brkDownReadIn && !s.accBreakDown
    requires inp.payload != [] && inp.payload[0].last
    requires r == RelayNext(s, inp, false)
    ensures r.out == [inp.payload[0]] && r.state.phase == ReadHeader
    ensures r.rest == inp.(payload := inp.payload[1..])
  {
  }

  /** The first part of a split read ends in a full word: it is relayed without its end-of-frame flag. */
  lemma RelayFullFirstPart(s: StitchState, inp: StitchInputs, r: StitchStep)
    requires Inv(s) && s.phase == Relay && s.brkDownReadIn && s.accBreakDown
    requires inp.payload != [] && inp.payload[0].last && Full(inp.payload[0])
    requires r == RelayNext(s, inp, false)
    ensures |r.out| == 1 && r.out[0] == inp.payload[0].(last := false)
    ensures r.state.phase == Relay && r.state.brkDownReadIn && !r.state.accBreakDown
    ensures r.rest == inp.(payload := inp.payload[1..])
  {
  }

  /** The first part of a split read ends in a partial word: it is held back, its valid bytes pending. */
  lemma HoldPartialFirstPart(s: StitchState, inp: StitchInputs, r: StitchStep)
    requires Inv(s) && s.phase == Relay && s.brkDownReadIn && s.accBreakDown
    requires inp.payload != [] && inp.payload[0].last && !Full(inp.payload[0])
    requires r == RelayNext(s, inp, false)
    ensures r.out == [] && r.state.phase == SpliceFirst && r.state.shift == KeepToLen(inp.payload[0].keep)
    ensures Pending(r.state) == Valid(inp.payload[0])
    ensures r.rest == inp.(payload := inp.payload[1..])
  {
  }

  /** One splice cycle on a full word not marked last: the pending bytes, then as many of the word's as fit. */
  lemma SpliceFullWord(s: StitchState, inp: StitchInputs, r: StitchStep)
    requires Inv(s) && s.phase in {SpliceFirst, Splice}
    requires inp.payload != [] && Full(inp.payload[0]) && !inp.payload[0].last
    requires r == SpliceNext(s, inp, false)
    ensures |r.out| == 1 && Full(r.out[0]) && !r.out[0].last
    ensures Valid(r.out[0]) == Pending(s) + inp.payload[0].data[..8 - s.shift]
    ensures r.state.phase == Splice && r.state.shift == s.shift
    ensures Pending(r.state) == inp.payload[0].data[8 - s.shift..]
    ensures r.rest == inp.(payload := inp.payload[1..])
  {
    var w := inp.payload[0];
    ValidOfLenToKeep(Pending(s) + w.data[..8 - s.shift], 8, false);
  }

  /** A last word whose bytes fit behind the pending ones ends the segment in one word. */
  lemma SpliceFits(s: StitchState, inp: StitchInputs, r: StitchStep)
    requires Inv(s) && s.phase in {SpliceFirst, Splice}
    requires inp.payload != [] && KeepToLen(inp.payload[0].keep) < 8 - s.shift
    requires r == SpliceNext(s, inp, false)
    ensures |r.out| == 1 && r.out[0].last
    ensures Valid(r.out[0]) == Pending(s) + Valid(inp.payload[0])
    ensures r.state.phase == ReadHeader
    ensures r.rest == inp.(payload := inp.payload[1..])
  {
    var w := inp.payload[0];
    var kc := KeepToLen(w.keep);
    var data := Pending(s) + w.data[..8 - s.shift];
    ValidOfLenToKeep(data, kc + s.shift, true);
    assert data[..kc + s.shift] == Pending(s) + w.data[..kc];
  }

  /** A last word whose bytes do not all fit: a full word now, the rest flushed next. */
  lemma SpliceOverflows(s: StitchState, inp: StitchInputs, r: StitchStep)
    requires Inv(s) && s.phase in {SpliceFirst, Splice}
    requires inp.payload != [] && inp.payload[0].last && KeepToLen(inp.payload[0].keep) >= 8 - s.shift
    requires r == SpliceNext(s, inp, false)
    ensures |r.out| == 1 && Full(r.out[0]) && !r.out[0].last
    ensures Valid(r.out[0]) == Pending(s) + inp.payload[0].data[..8 - s.shift]
    ensures r.state.phase == Flush && r.state.currWord == inp.payload[0] && r.state.shift == s.shift
    ensures r.rest == inp.(payload := inp.payload[1..])
  {
    ValidOfLenToKeep(Pending(s) + inp.payload[0].data[..8 - s.shift], 8, false);
  }

  /** The flush writes the held word's remaining valid bytes and ends the segment. */
  lemma FlushRest(s: StitchState, inp: StitchInputs, r: StitchStep)
    requires Inv(s) && s.phase == Flush
    requires r == FlushNext(s, inp, false)
    ensures |r.out| == 1 && r.out[0].last
    ensures Valid(r.out[0]) == s.currWord.data[8 - s.shift..KeepToLen(s.currWord.keep)]
    ensures r.state.phase == ReadHeader && r.rest == inp
  {
    var kc := KeepToLen(s.currWord.keep) - (8 - s.shift);
    var tail := s.currWord.data[8 - s.shift..] + Zeros(8 - s.shift);
    ValidOfLenToKeep(tail, kc, true);
    assert tail[..kc] == s.currWord.data[8 - s.shift..KeepToLen(s.currWord.keep)];
  }

  // ---------------------------------------------------------------------
  // Payload runs
  // ---------------------------------------------------------------------

  /** Full words not marked last are relayed unchanged. */
  lemma {:induction false} RelayFullWords(s: StitchState, inp: StitchInputs, k: nat, r: StitchStep)
    requires Inv(s) && s.phase == Relay && s.brkDownReadIn
    requires k <= |inp.payload| && forall j :: 0 <= j < k ==> !inp.payload[j].last
    requires r == StitchRun(s, inp, k)
    ensures r.out == inp.payload[..k]
    ensures r.state.phase == Relay && r.state.brkDownReadIn && r.state.accBreakDown == s.accBreakDown
    ensures r.rest == inp.(payload := inp.payload[k..])
    decreases k
  {
    if k > 0 {
      var r1 := RelayNext(s, inp, false);
      RelayWord(s, inp, r1);
      var r' := StitchRun(r1.state, r1.rest, k - 1);
      RelayFullWords(r1.state, r1.rest, k - 1, r');
      RunOne(s, inp, k - 1, k, r1);
      TailSlices(inp.payload, k);
    }
  }

  /** A read that is not split is relayed unchanged, whole, and ends the segment. */
  lemma RelayFrame(s: StitchState, inp: StitchInputs, b: seq<Word8>, rest: seq<Word8>, r: StitchStep)
    requires Inv(s) && s.phase == Relay && s.brkDownReadIn && !s.accBreakDown
    requires Frame(b) && inp.payload == b + rest
    requires r == StitchRun(s, inp, |b|)
    ensures r.out == b && r.state.phase == ReadHeader
    ensures r.rest == inp.(payload := rest)
  {
    var k := |b| - 1;
    var rr := StitchRun(s, inp, k);
    RelayFullWords(s, inp, k, rr);
    SliceConcat(b, rest, k);
    LastOf(b);
    HeadTail([b[k]], rest);
    var r1 := RelayNext(rr.state, rr.rest, false);
    RelayLastWord(rr.state, rr.rest, r1);
    RunAppend(s, inp, k, 1, |b|, rr);
    RunSingle(rr.state, rr.rest, 1, r1);
  }

  /** Two words, the first full and unmarked, the second marked last, form a packed frame with both words' bytes. */
  lemma TwoWordFrame(o1: Word8, o2: Word8)
    requires Full(o1) && !o1.last && o2.last
    ensures Packed([o1] + [o2]) && Keyed([o1] + [o2]) && Bytes([o1] + [o2]) == Valid(o1) + Valid(o2)
  {
    BytesOne(o2);
    BytesCons(o1, [o2]);
    PackedCons(o1, [o2]);
  }

  /** The cycles a splice takes for the remaining words `b`: one per word, plus a flush when the last word overflows. */
  function SpliceCycles(shift: int, b: seq<Word8>): nat
    requires b != []
  {
    |b| + (if KeepToLen(b[|b| - 1].keep) >= 8 - shift then 1 else 0)
  }

  /** A final word whose bytes fit behind the pending ones: one word, marked last. */
  lemma SpliceLastFits(s: StitchState, inp: StitchInputs, n: nat, r: StitchStep)
    requires Inv(s) && s.phase in {SpliceFirst, Splice}
    requires inp.payload != [] && KeepToLen(inp.payload[0].keep) < 8 - s.shift
    requires n == 1 && r == StitchRun(s, inp, n)
    ensures Packed(r.out) && Keyed(r.out)
    ensures Bytes(r.out) == Pending(s) + Valid(inp.payload[0])
    ensures r.state.phase == ReadHeader
    ensures r.rest == inp.(payload := inp.payload[1..])
  {
    var r1 := SpliceNext(s, inp, false);
    RunSingle(s, inp, n, r1);
    SpliceFits(s, inp, r1);
    Single(r1.out);
    BytesOne(r1.out[0]);
  }

  /** A final word whose bytes overflow: a full word, then the flushed rest, marked last. */
  lemma SpliceLastOverflows(s: StitchState, inp: StitchInputs, n: nat, r: StitchStep)
    requires Inv(s) && s.phase in {SpliceFirst, Splice}
    requires inp.payload != [] && inp.payload[0].last && KeepToLen(inp.payload[0].keep) >= 8 - s.shift
    requires n == 2 && r == StitchRun(s, inp, n)
    ensures Packed(r.out) && Keyed(r.out)
    ensures Bytes(r.out) == Pending(s) + Valid(inp.payload[0])
    ensures r.state.phase == ReadHeader
    ensures r.rest == inp.(payload := inp.payload[1..])
  {
    var r1 := SpliceNext(s, inp, false);
    RunOne(s, inp, 1, n, r1);
    SpliceOverflows(s, inp, r1);
    var r2 := FlushNext(r1.state, r1.rest, false);
    RunSingle(r1.state, r1.rest, 1, r2);
    OverflowThenFlush(s, inp, r1, r2);
  }

  /** The words of an overflowing final word and its flush carry the pending bytes, then the word's. */
  lemma OverflowThenFlush(s: StitchState, inp: StitchInputs, r1: StitchStep, r2: StitchStep)
    requires Inv(s) && s.phase in {SpliceFirst, Splice}
    requires inp.payload != [] && inp.payload[0].last && KeepToLen(inp.payload[0].keep) >= 8 - s.shift
    requires r1 == SpliceNext(s, inp, false) && r1.state.phase == Flush
    requires r2 == FlushNext(r1.state, r1.rest, false)
    ensures Packed(r1.out + r2.out) && Keyed(r1.out + r2.out)
    ensures Bytes(r1.out + r2.out) == Pending(s) + Valid(inp.payload[0])
    ensures r2.state.phase == ReadHeader && r2.rest == inp.(payload := inp.payload[1..])
  {
    var w := inp.payload[0];
    SpliceOverflows(s, inp, r1);
    FlushRest(r1.state, r1.rest, r2);
    Single(r1.out);
    Single(r2.out);
    TwoWordFrame(r1.out[0], r2.out[0]);
    SplitAt(w.data, 8 - s.shift, KeepToLen(w.keep));
    Assoc(Pending(s), w.data[..8 - s.shift], w.data[8 - s.shift..KeepToLen(w.keep)]);
  }

  /** The splice of the final word: its bytes follow the pending ones, in one word or, when they overflow, in two. */
  lemma SpliceLastWord(s: StitchState, inp: StitchInputs, n: nat, r: StitchStep)
    requires Inv(s) && s.phase in {SpliceFirst, Splice}
    requires inp.payload != [] && Frame([inp.payload[0]])
    requires n == SpliceCycles(s.shift, [inp.payload[0]]) && r == StitchRun(s, inp, n)
    ensures Packed(r.out) && Keyed(r.out)
    ensures Bytes(r.out) == Pending(s) + Valid(inp.payload[0])
    ensures r.state.phase == ReadHeader
    ensures r.rest == inp.(payload := inp.payload[1..])
  {
    if KeepToLen(inp.payload[0].keep) < 8 - s.shift {
      SpliceLastFits(s, inp, n, r);
    } else {
      SpliceLastOverflows(s, inp, n, r);
    }
  }

  /**
   * Splicing a whole frame: the words written carry the pending bytes and
   * then the frame's bytes, contiguously, as one packed frame, and the
   * stage returns to reading headers.
   */
  lemma {:induction false} SpliceFrame(s: StitchState, inp: StitchInputs, b: seq<Word8>, rest: seq<Word8>,
                                       n: nat, r: StitchStep)
    requires Inv(s) && s.phase in {SpliceFirst, Splice}
    requires Frame(b) && inp.payload == b + rest
    requires n == SpliceCycles(s.shift, b) && r == StitchRun(s, inp, n)
    ensures Packed(r.out) && Keyed(r.out) && Keyed(b)
    ensures Bytes(r.out) == Pending(s) + Bytes(b)
    ensures r.state.phase == ReadHeader
    ensures r.rest == inp.(payload := rest)
    decreases |b|, 1
  {
    if |b| == 1 {
      SpliceFrameLast(s, inp, b, rest, n, r);
    } else {
      SpliceFrameStep(s, inp, b, rest, n, r);
    }
  }

  /** A splice takes one cycle for the first word, then those of the rest. */
  lemma SpliceCyclesTail(shift: int, b: seq<Word8>)
    requires |b| >= 2
    ensures SpliceCycles(shift, b) == 1 + SpliceCycles(shift, b[1..])
  {
    assert b[1..][|b[1..]| - 1] == b[|b| - 1];
  }

  /** The payload's cycles are those of the first read's full words, then those from its last word on. */
  lemma PayloadCyclesLast(a: seq<Word8>, b: seq<Word8>, split: bool)
    requires a != [] && (split ==> b != [])
    ensures PayloadCycles(a, b, split) == (|a| - 1) + PayloadCycles([a[|a| - 1]], b, split)
  {
  }

  /** A one-word frame is the final word's splice. */
  lemma SpliceFrameLast(s: StitchState, inp: StitchInputs, b: seq<Word8>, rest: seq<Word8>, n: nat, r: StitchStep)
    requires Inv(s) && s.phase in {SpliceFirst, Splice}
    requires Frame(b) && |b| == 1 && inp.payload == b + rest
    requires n == SpliceCycles(s.shift, b) && r == StitchRun(s, inp, n)
    ensures Packed(r.out) && Keyed(r.out) && Keyed(b)
    ensures Bytes(r.out) == Pending(s) + Bytes(b)
    ensures r.state.phase == ReadHeader
    ensures r.rest == inp.(payload := rest)
  {
    FrameKeyed(b);
    HeadTail(b, rest);
    Single(b);
    SpliceLastWord(s, inp, n, r);
    BytesOne(b[0]);
  }

  /** A longer frame: one full word spliced, then the rest of the frame. */
  lemma {:induction false} SpliceFrameStep(s: StitchState, inp: StitchInputs, b: seq<Word8>, rest: seq<Word8>,
                                           n: nat, r: StitchStep)
    requires Inv(s) && s.phase in {SpliceFirst, Splice}
    requires Frame(b) && |b| >= 2 && inp.payload == b + rest
    requires n == SpliceCycles(s.shift, b) && r == StitchRun(s, inp, n)
    ensures Packed(r.out) && Keyed(r.out) && Keyed(b)
    ensures Bytes(r.out) == Pending(s) + Bytes(b)
    ensures r.state.phase == ReadHeader
    ensures r.rest == inp.(payload := rest)
    decreases |b|, 0
  {
    FrameKeyed(b);
    HeadTail(b, rest);
    var w := b[0];
    var r1 := SpliceNext(s, inp, false);
    SpliceFullWord(s, inp, r1);
    FrameTail(b);
    SpliceCyclesTail(s.shift, b);
    var m := SpliceCycles(s.shift, b[1..]);
    var r' := StitchRun(r1.state, r1.rest, m);
    SpliceFrame(r1.state, r1.rest, b[1..], rest, m, r');
    StitchIsSplice(s, inp);
    RunOne(s, inp, m, n, r1);
    Single(r1.out);
    SpliceStepBytes(r1.out[0], r'.out, Pending(s), w, b[1..], s.shift);
  }

  /** Bookkeeping of one spliced full word in front of the rest of the splice. */
  lemma SpliceStepBytes(o: Word8, out: seq<Word8>, pending: seq<byte>, w: Word8, b: seq<Word8>, shift: int)
    requires 0 <= shift < 8 && Full(o) && !o.last && Packed(out) && Full(w) && Keyed(b)
    requires Valid(o) == pending + w.data[..8 - shift]
    requires Keyed(out) && Bytes(out) == w.data[8 - shift..] + Bytes(b)
    ensures Packed([o] + out) && Keyed([o] + out) && Keyed([w] + b)
    ensures Bytes([o] + out) == pending + Bytes([w] + b)
  {
    PackedCons(o, out);
    BytesCons(o, out);
    BytesCons(w, b);
    FullCarriesAll(w);
    SplitAt(w.data, 8 - shift, 8);
    Regroup(pending, w.data[..8 - shift], w.data[8 - shift..], Bytes(b));
  }

  /**
   * The cycles the second read takes after the first read's last word:
   * none without a split, one per word when they are relayed, the splice's
   * cycles otherwise.
   */
  function SecondReadCycles(a: seq<Word8>, b: seq<Word8>, split: bool): nat
    requires a != [] && (split ==> b != [])
  {
    if !split then 0
    else if Full(a[|a| - 1]) then |b|
    else SpliceCycles(KeepToLen(a[|a| - 1].keep), b)
  }

  /** The cycles the payload of one segment takes: one per word of the first read, then the second read's. */
  function PayloadCycles(a: seq<Word8>, b: seq<Word8>, split: bool): nat
    requires a != [] && (split ==> b != [])
  {
    |a| + SecondReadCycles(a, b, split)
  }

  /** Without a split the first read's last word is relayed and ends the segment. */
  lemma FinishUnsplit(s: StitchState, inp: StitchInputs, w: Word8, rest: seq<Word8>, n: nat, r: StitchStep)
    requires Inv(s) && s.phase == Relay && s.brkDownReadIn && !s.accBreakDown
    requires Frame([w]) && inp.payload == [w] + rest
    requires n == 1 && r == StitchRun(s, inp, n)
    ensures Packed(r.out) && Keyed(r.out) && Bytes(r.out) == Valid(w)
    ensures r.state.phase == ReadHeader
    ensures r.rest == inp.(payload := rest)
  {
    HeadTail([w], rest);
    var r0 := RelayNext(s, inp, false);
    RelayLastWord(s, inp, r0);
    RunSingle(s, inp, n, r0);
    BytesOne(w);
  }

  /** With a split and a full last word, that word is relayed unmarked and the second read relayed after it. */
  lemma FinishAfterFullWord(s: StitchState, inp: StitchInputs, w: Word8, b: seq<Word8>, rest: seq<Word8>,
                            n: nat, r: StitchStep)
    requires Inv(s) && s.phase == Relay && s.brkDownReadIn && s.accBreakDown
    requires Frame([w]) && Full(w) && Frame(b) && inp.payload == [w] + b + rest
    requires n == 1 + |b| && r == StitchRun(s, inp, n)
    ensures Keyed(b) && Packed(r.out) && Keyed(r.out) && Bytes(r.out) == Valid(w) + Bytes(b)
    ensures r.state.phase == ReadHeader
    ensures r.rest == inp.(payload := rest)
  {
    ConsTail3(w, b, rest);
    FrameKeyed(b);
    var r0 := RelayNext(s, inp, false);
    RelayFullFirstPart(s, inp, r0);
    var r1 := StitchRun(r0.state, r0.rest, |b|);
    RelayFrame(r0.state, r0.rest, b, rest, r1);
    RunOne(s, inp, |b|, n, r0);
    Single(r0.out);
    FrameIsPacked(b);
    PackedCons(r0.out[0], b);
    BytesOne(r0.out[0]);
    BytesAppend(r0.out, b);
  }

  /** With a split and a partial last word, that word is held and the second read spliced behind its bytes. */
  lemma FinishBySplice(s: StitchState, inp: StitchInputs, w: Word8, b: seq<Word8>, rest: seq<Word8>,
                       n: nat, r: StitchStep)
    requires Inv(s) && s.phase == Relay && s.brkDownReadIn && s.accBreakDown
    requires Frame([w]) && !Full(w) && Frame(b) && inp.payload == [w] + b + rest
    requires n == 1 + SpliceCycles(KeepToLen(w.keep), b) && r == StitchRun(s, inp, n)
    ensures Keyed(b) && Packed(r.out) && Keyed(r.out) && Bytes(r.out) == Valid(w) + Bytes(b)
    ensures r.state.phase == ReadHeader
    ensures r.rest == inp.(payload := rest)
  {
    ConsTail3(w, b, rest);
    var r0 := RelayNext(s, inp, false);
    HoldPartialFirstPart(s, inp, r0);
    var m := SpliceCycles(KeepToLen(w.keep), b);
    var r1 := StitchRun(r0.state, r0.rest, m);
    SpliceFrame(r0.state, r0.rest, b, rest, m, r1);
    RunOne(s, inp, m, n, r0);
    assert r0.out + r1.out == r1.out;
  }

  /**
   * The last word of the first read and what follows it: relayed and done
   * when the marker is clear; with the marker set, relayed unmarked before
   * the second read's words (a full word), or held back as the start of a
   * splice (a partial word).
   */
  lemma FinishFirstRead(s: StitchState, inp: StitchInputs, w: Word8, b: seq<Word8>, rest: seq<Word8>,
                        split: bool, n: nat, r: StitchStep)
    requires Inv(s) && s.phase == Relay && s.brkDownReadIn && s.accBreakDown == split
    requires Frame([w]) && (split ==> Frame(b)) && (!split ==> b == [])
    requires inp.payload == [w] + b + rest
    requires n == PayloadCycles([w], b, split) && r == StitchRun(s, inp, n)
    ensures Keyed(b) && Keyed(r.out)
    ensures Packed(r.out) && Bytes(r.out) == Valid(w) + Bytes(b)
    ensures r.state.phase == ReadHeader
    ensures r.rest == inp.(payload := rest)
  {
    if !split {
      assert [w] + b == [w];
      FinishUnsplit(s, inp, w, rest, n, r);
    } else if Full(w) {
      FinishAfterFullWord(s, inp, w, b, rest, n, r);
    } else {
      FinishBySplice(s, inp, w, b, rest, n, r);
    }
  }

  /** A frame is packed. */
  lemma FrameIsPacked(b: seq<Word8>)
    requires Frame(b)
    ensures Packed(b)
  {
  }

  /** Full unmarked words in front of a packed frame: still packed, their bytes first. */
  lemma {:induction false} FullPrefixBytes(p: seq<Word8>, out: seq<Word8>)
    requires forall k :: 0 <= k < |p| ==> Full(p[k]) && !p[k].last
    requires Packed(out)
    ensures Keyed(p) && Keyed(out) && Packed(p + out)
    ensures Bytes(p + out) == Bytes(p) + Bytes(out)
    decreases |p|
  {
    PackedKeyed(out);
    BytesAppend(p, out);
    if p != [] {
      FullPrefixBytes(p[1..], out);
      HeadTail(p, out);
      PackedCons(p[0], p[1..] + out);
    }
  }

  /** The payload of a segment once its marker has been read. */
  lemma PayloadAfterMarker(s: StitchState, inp: StitchInputs, a: seq<Word8>, b: seq<Word8>,
                           rest: seq<Word8>, split: bool, n: nat, r: StitchStep)
    requires Inv(s) && s.phase == Relay && s.brkDownReadIn && s.accBreakDown == split
    requires Frame(a) && (split ==> Frame(b)) && (!split ==> b == [])
    requires inp.payload == a + b + rest
    requires n == PayloadCycles(a, b, split) && r == StitchRun(s, inp, n)
    ensures Keyed(a) && Keyed(b) && Keyed(r.out)
    ensures Packed(r.out) && Bytes(r.out) == Bytes(a) + Bytes(b)
    ensures r.state.phase == ReadHeader
    ensures r.rest == inp.(payload := rest)
  {
    FrameKeyed(a);
    var k := |a| - 1;
    var w := a[k];
    var r1 := StitchRun(s, inp, k);
    RelayFullWords(s, inp, k, r1);
    LastOf(a);
    SliceConcat3(a, b, rest, k);
    PayloadCyclesLast(a, b, split);
    FrameLast(a);
    Assoc([w], b, rest);
    var m := PayloadCycles([w], b, split);
    RunAppend(s, inp, k, m, n, r1);
    var r2 := StitchRun(r1.state, r1.rest, m);
    FinishFirstRead(r1.state, r1.rest, w, b, rest, split, m, r2);
    FullWordsThenRest(a, b, r2.out);
  }

  /** The first read's full words, then the words written from its last word on: the bytes of both reads. */
  lemma FullWordsThenRest(a: seq<Word8>, b: seq<Word8>, out: seq<Word8>)
    requires Frame(a) && Keyed(b) && Packed(out) && Keyed(out)
    requires Bytes(out) == Valid(a[|a| - 1]) + Bytes(b)
    ensures Keyed(a) && Keyed(a[..|a| - 1] + out) && Packed(a[..|a| - 1] + out)
    ensures Bytes(a[..|a| - 1] + out) == Bytes(a) + Bytes(b)
  {
    var k := |a| - 1;
    var w := a[k];
    FrameKeyed(a);
    LastOf(a);
    FullPrefixBytes(a[..k], out);
    BytesAppend(a[..k], [w]);
    BytesOne(w);
    Assoc(Bytes(a[..k]), Valid(w), Bytes(b));
  }

  /**
   * The payload of one segment: with the marker clear the first read's
   * words are relayed; with it set the second read's bytes are appended
   * directly after the first's. Either way the words written form one
   * packed frame carrying the bytes of both reads in order, one marker is
   * consumed, and the stage returns to reading headers.
   */
  lemma PayloadIsContiguous(s: StitchState, inp: StitchInputs, a: seq<Word8>, b: seq<Word8>,
                            rest: seq<Word8>, r: StitchStep)
    requires Inv(s) && s.phase == Relay && !s.brkDownReadIn
    requires inp.markers != [] && Frame(a) && (inp.markers[0] ==> Frame(b)) && (!inp.markers[0] ==> b == [])
    requires inp.payload == a + b + rest
    requires r == StitchRun(s, inp, PayloadCycles(a, b, inp.markers[0]))
    ensures Keyed(a) && Keyed(b) && Keyed(r.out)
    ensures Packed(r.out) && Bytes(r.out) == Bytes(a) + Bytes(b)
    ensures r.state.phase == ReadHeader
    ensures r.rest == inp.(payload := rest, markers := inp.markers[1..])
  {
    var split := inp.markers[0];
    var s' := s.(brkDownReadIn := true, accBreakDown := split);
    var inp' := inp.(markers := inp.markers[1..]);
    var n := PayloadCycles(a, b, split);
    MarkerThenRelay(s, inp);
    var r0 := RelayNext(s', inp', false);
    RunOne(s, inp, n - 1, n, r0);
    RunOne(s', inp', n - 1, n, r0);
    PayloadAfterMarker(s', inp', a, b, rest, split, n, r);
  }

  // ---------------------------------------------------------------------
  // The stage as an object
  // ---------------------------------------------------------------------

  class Stitcher {
    var phase: Phase
    var wordCount: u3
    var currWord: Word8
    var accBreakDown: bool
    var shift: u4
    var brkDownReadIn: bool

    function State(): StitchState
      reads this
    {
      StitchState(phase, wordCount, currWord, accBreakDown, shift, brkDownReadIn)
    }

    predicate Valid()
      reads this
    {
      Inv(State())
    }

    constructor ()
      ensures State() == InitialStitch && Valid()
    {
      phase, wordCount, currWord, accBreakDown, shift, brkDownReadIn := ReadHeader, 0, EmptyWord, false, 0, false;
    }

    /** One cycle: returns the inputs left and the words written. */
    method Step(inp: StitchInputs, outFull: bool) returns (rest: StitchInputs, out: seq<Word8>)
      requires Valid()
      modifies this
      ensures Valid()
      ensures StitchStep(State(), rest, out) == StitchNext(old(State()), inp, outFull)
    {
      match phase {
        case ReadHeader =>
          out, rest := ReadHeaderWord(inp);
        case ReadOption =>
          out, rest := ReadOptionWord(inp);
        case Relay =>
          out, rest := RelayPayloadWord(inp, outFull);
        case SpliceFirst =>
          out, rest := SpliceWord(inp, outFull);
        case Splice =>
          out, rest := SpliceWord(inp, outFull);
        case Flush =>
          out, rest := FlushWord(inp, outFull);
        case Bypass =>
          out, rest := [], inp;
      }
    }

    /** State 0: relay a header word, counting to the fourth. */
    method ReadHeaderWord(inp: StitchInputs) returns (out: seq<Word8>, rest: StitchInputs)
      requires Valid() && phase == ReadHeader
      modifies this
      ensures Valid()
      ensures StitchStep(State(), rest, out) == HeaderNext(old(State()), inp)
    {
      out, rest := [], inp;
      if inp.headers != [] {
        currWord := inp.headers[0];
        rest := inp.(headers := inp.headers[1..]);
        out := [currWord];
        brkDownReadIn := false;
        if wordCount == 3 {
          phase := if SynBit(currWord) then ReadOption else Relay;
          wordCount := 0;
        } else {
          wordCount := (wordCount + 1) % 8;
        }
        if currWord.last {
          phase := ReadHeader;
          wordCount := 0;
        }
      }
    }

    /** State 1: relay the option word. */
    method ReadOptionWord(inp: StitchInputs) returns (out: seq<Word8>, rest: StitchInputs)
      requires Valid() && phase == ReadOption
      modifies this
      ensures Valid()
      ensures StitchStep(State(), rest, out) == OptionNext(old(State()), inp)
    {
      out, rest := [], inp;
      if inp.headers != [] {
        currWord := inp.headers[0];
        rest := inp.(headers := inp.headers[1..]);
        out := [currWord];
        phase := if currWord.last then ReadHeader else Bypass;
        wordCount := 0;
      }
    }

    /** State 2: relay a payload word, reading the marker with the first. */
    method RelayPayloadWord(inp: StitchInputs, outFull: bool) returns (out: seq<Word8>, rest: StitchInputs)
      requires Valid() && phase == Relay
      modifies this
      ensures Valid()
      ensures StitchStep(State(), rest, out) == RelayNext(old(State()), inp, outFull)
    {
      out, rest := [], inp;
      if inp.payload != [] && !outFull && (brkDownReadIn || inp.markers != []) {
        if !brkDownReadIn {
          brkDownReadIn := true;
          accBreakDown := inp.markers[0];
          rest := rest.(markers := inp.markers[1..]);
        }
        currWord := inp.payload[0];
        rest := rest.(payload := inp.payload[1..]);
        if currWord.last {
          if !accBreakDown {
            phase := ReadHeader;
            out := [currWord];
          } else {
            shift := KeepToLen(currWord.keep);
            accBreakDown := false;
            var full := Full(currWord);
            currWord := currWord.(last := false);
            if !full {
              NotFullIsShort(currWord);
              phase := SpliceFirst;
            } else {
              out := [currWord];
            }
          }
        } else {
          out := [currWord];
        }
      }
    }

    /** State 5: write the held word's remaining bytes. */
    method FlushWord(inp: StitchInputs, outFull: bool) returns (out: seq<Word8>, rest: StitchInputs)
      requires Valid() && phase == Flush
      modifies this
      ensures Valid()
      ensures StitchStep(State(), rest, out) == FlushNext(old(State()), inp, outFull)
    {
      out, rest := [], inp;
      if !outFull {
        var kc := KeepToLen(currWord.keep) - (8 - shift);
        out := [Word(currWord.data[8 - shift..] + Zeros(8 - shift), LenToKeep(kc, 8), true)];
        phase := ReadHeader;
      }
    }

    /** States 3 and 4: shift the next read word in behind the held bytes. */
    method SpliceWord(inp: StitchInputs, outFull: bool) returns (out: seq<Word8>, rest: StitchInputs)
      requires Valid() && phase in {SpliceFirst, Splice}
      modifies this
      ensures Valid()
      ensures StitchStep(State(), rest, out) == SpliceNext(old(State()), inp, outFull)
    {
      out, rest := [], inp;
      if inp.payload != [] && !outFull {
        var held := if phase == SpliceFirst then currWord.data[..shift] else currWord.data[8 - shift..];
        currWord := inp.payload[0];
        rest := inp.(payload := inp.payload[1..]);
        var data := held + currWord.data[..8 - shift];
        var kc := KeepToLen(currWord.keep);
        if kc < 8 - shift {
          out := [Word(data, LenToKeep(kc + shift, 8), true)];
          phase := ReadHeader;
        } else {
          out := [Word(data, AllKeep, false)];
          phase := if currWord.last then Flush else Splice;
        }
      }
    }
  }
}
