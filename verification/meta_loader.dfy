/**
 * The event dispatcher (metaLoader): a two-phase machine that fetches one
 * event, requests the session state it needs, and then turns the event
 * into segment metadata, payload read commands, table write-backs and
 * timer requests, one step per clock cycle.
 *
 * `Next` is the step as a function of the static state and the input
 * FIFOs; `Loader` holds the statics as fields and its `Step` is proved
 * to perform `Next`.
 */
module MetaLoader {
  import opened TxTypes
  import opened SarArith

  datatype Phase = Fetch | Process

  /** The dispatcher's static variables. */
  datatype LoaderState = LoaderState(phase: Phase, sarLoaded: bool, curEvent: Event,
                                     randomValue: bv32, segmentCount: u2,
                                     rxSar: RxSarEntry, txSar: TxSarReply, meta: Meta)

  /** The input FIFOs, consumed from the front. */
  datatype LoaderInputs = LoaderInputs(events: seq<Event>, rxRsp: seq<RxSarEntry>,
                                       txRsp: seq<TxSarReply>)

  /** What one step writes to each output FIFO. */
  datatype LoaderOutputs = LoaderOutputs(
    readCount: seq<bit>, rxReq: seq<u16>, txReq: seq<TxSarQuery>,
    retransmitTimer: seq<RetransmitTimerSet>, probeTimer: seq<u16>,
    ipMeta: seq<u16>, tcpMeta: seq<Meta>, readCmd: seq<MemCmd>,
    lookupReq: seq<u16>, isLookUp: seq<bool>, shortCut: seq<FourTuple>)

  const NoOutput := LoaderOutputs([], [], [], [], [], [], [], [], [], [], [])

  /** The state after a step, the inputs left, and what was written. */
  datatype Reaction = Reaction(state: LoaderState, inputs: LoaderInputs, out: LoaderOutputs)

  const NoEvent := Event(Tx, 0, 0, 0, false, 0, FourTuple(0, 0, 0, 0))

  /** Power-on state: fetch phase, generator at its seed; the records are default-constructed. */
  const InitialState := LoaderState(Fetch, false, NoEvent, RandomSeed, 0, RxSarEntry(0, 0),
                                    TxSarReply(0, 0, 0, 0, false, false),
                                    Meta(0, 0, 0, 0, false, false, false, false))

  // ---------------------------------------------------------------------
  // Fetch phase
  // ---------------------------------------------------------------------

  /** The session-table reads an event requests when it is fetched. */
  function Requests(e: Event): (o: LoaderOutputs)
    ensures o.rxReq == [] || o.rxReq == [e.sessionID]
    ensures o.txReq == [] || o.txReq == [ReadQuery(e.sessionID)]
    ensures o.rxReq != [] ==> o.txReq != []
  {
    match e.kind
    case Rst => if e.rstHasSession then NoOutput.(txReq := [ReadQuery(e.sessionID)]) else NoOutput
    case Syn => if e.rtCount != 0 then NoOutput.(txReq := [ReadQuery(e.sessionID)]) else NoOutput
    case _ => NoOutput.(rxReq := [e.sessionID], txReq := [ReadQuery(e.sessionID)])
  }

  function FetchNext(s: LoaderState, inp: LoaderInputs): Reaction
  {
    if inp.events == [] then
      Reaction(s.(segmentCount := 0), inp, NoOutput)
    else
      var e := inp.events[0];
      Reaction(s.(phase := Process, sarLoaded := false, curEvent := e,
                  randomValue := s.randomValue + 1, segmentCount := 0),
               inp.(events := inp.events[1..]),
               Requests(e).(readCount := [1]))
  }

  // ---------------------------------------------------------------------
  // Process phase
  // ---------------------------------------------------------------------

  /** A segment routed through the reverse session lookup. */
  function Segment(m: Meta, sessionID: u16): LoaderOutputs
  {
    NoOutput.(ipMeta := [m.length], tcpMeta := [m], isLookUp := [true], lookupReq := [sessionID])
  }

  /** A payload-carrying segment: metadata, payload read command and retransmit timer. */
  function DataSegment(m: Meta, sessionID: u16, addr: u32): LoaderOutputs
  {
    Segment(m, sessionID).(readCmd := [MemCmd(addr, m.length)],
                           retransmitTimer := [RetransmitTimerSet(sessionID, NoHint)])
  }

  /** Session state is at hand: kept from an earlier step of this event, or both replies queued. */
  predicate Ready(s: LoaderState, inp: LoaderInputs)
  {
    s.sarLoaded || (inp.rxRsp != [] && inp.txRsp != [])
  }

  /** The session state to work on and the inputs left after reading it. */
  function Load(s: LoaderState, inp: LoaderInputs): (RxSarEntry, TxSarReply, LoaderInputs)
    requires Ready(s, inp)
  {
    if s.sarLoaded then (s.rxSar, s.txSar, inp)
    else (inp.rxRsp[0], inp.txRsp[0], inp.(rxRsp := inp.rxRsp[1..], txRsp := inp.txRsp[1..]))
  }

  function PhaseAfter(a: After): Phase
  {
    if a == Done then Fetch else Process
  }

  /** A step that ends on a FIN re-tags the event, so that the next step sends the FIN. */
  function Retag(e: Event, a: After): Event
  {
    if a == ThenFin then e.(kind := Fin) else e
  }

  /** TX: send new data from not_ackd, at most one MSS per step. */
  function DataSendNext(s: LoaderState, inp: LoaderInputs): Reaction
  {
    if !Ready(s, inp) then Reaction(s, inp, NoOutput)
    else
      var (rx, tx, rest) := Load(s, inp);
      var sid := s.curEvent.sessionID;
      var p := PlanTx(tx);
      var m := Meta(tx.notAckd, rx.recvd, AdvertisedWindow(rx), p.length, true, false, false, false);
      var sent := if p.length != 0 then DataSegment(m, sid, PayloadAddress(sid, tx.notAckd)) else NoOutput;
      var out := sent.(probeTimer := if p.probe then [sid] else [],
                       txReq := if p.writeBack then [WriteQuery(sid, p.notAckd, false, false, false)] else []);
      Reaction(s.(phase := PhaseAfter(p.after), sarLoaded := true, curEvent := Retag(s.curEvent, p.after),
                  rxSar := rx, txSar := tx.(notAckd := p.notAckd), meta := m),
               rest, out)
  }

  /** RT: resend from ackd, at most four MSS segments per pass. */
  function RetransmitNext(s: LoaderState, inp: LoaderInputs): Reaction
  {
    if !Ready(s, inp) then Reaction(s, inp, NoOutput)
    else
      var (rx, tx, rest) := Load(s, inp);
      var sid := s.curEvent.sessionID;
      var cur := RetransmitLength(tx);
      var p := PlanRt(tx, s.segmentCount);
      var m := Meta(tx.ackd, rx.recvd, AdvertisedWindow(rx), p.length, true, false, false, false);
      var sent := if p.length != 0 then DataSegment(m, sid, PayloadAddress(sid, tx.ackd)) else NoOutput;
      var threshold := if !s.sarLoaded && s.curEvent.rtCount == 1
                       then [ThresholdQuery(sid, SlowStartThreshold(cur))] else [];
      Reaction(s.(phase := PhaseAfter(p.after), sarLoaded := true, curEvent := Retag(s.curEvent, p.after),
                  segmentCount := p.segmentCount, rxSar := rx, txSar := tx.(ackd := p.ackd), meta := m),
               rest, sent.(txReq := threshold))
  }

  /** ACK: a pure acknowledgement carrying the current window. */
  function AckNext(s: LoaderState, inp: LoaderInputs): Reaction
  {
    if inp.rxRsp == [] || inp.txRsp == [] then Reaction(s, inp, NoOutput)
    else
      var rx := inp.rxRsp[0];
      var tx := inp.txRsp[0];
      var m := Meta(tx.notAckd, rx.recvd, AdvertisedWindow(rx), 0, true, false, false, false);
      Reaction(s.(phase := Fetch, rxSar := rx, txSar := tx, meta := m),
               inp.(rxRsp := inp.rxRsp[1..], txRsp := inp.txRsp[1..]),
               Segment(m, s.curEvent.sessionID))
  }

  /** SYN: a fresh initial sequence number from the generator, or the one in the table on a retry. */
  function SynNext(s: LoaderState, inp: LoaderInputs): Reaction
  {
    var sid := s.curEvent.sessionID;
    var timer := [RetransmitTimerSet(sid, SynHint)];
    if s.curEvent.rtCount != 0 then
      if inp.txRsp == [] then Reaction(s, inp, NoOutput)
      else
        var tx := inp.txRsp[0];
        var m := Meta(tx.ackd, 0, 0xFFFF, 4, false, false, true, false);
        Reaction(s.(phase := Fetch, txSar := tx, meta := m), inp.(txRsp := inp.txRsp[1..]),
                 Segment(m, sid).(retransmitTimer := timer))
    else
      var isn: u32 := s.randomValue as int;
      var m := Meta(isn, 0, 0xFFFF, 4, false, false, true, false);
      Reaction(s.(phase := Fetch, txSar := s.txSar.(notAckd := isn),
                  randomValue := Scramble(s.randomValue), meta := m),
               inp,
               Segment(m, sid).(retransmitTimer := timer,
                                txReq := [WriteQuery(sid, Wrap32(isn + 1), true, false, false)]))
  }

  /** SYN-ACK: as SYN, acknowledging the peer's SYN. */
  function SynAckNext(s: LoaderState, inp: LoaderInputs): Reaction
  {
    if inp.rxRsp == [] || inp.txRsp == [] then Reaction(s, inp, NoOutput)
    else
      var rx := inp.rxRsp[0];
      var tx := inp.txRsp[0];
      var rest := inp.(rxRsp := inp.rxRsp[1..], txRsp := inp.txRsp[1..]);
      var sid := s.curEvent.sessionID;
      var timer := [RetransmitTimerSet(sid, SynAckHint)];
      if s.curEvent.rtCount != 0 then
        var m := Meta(tx.ackd, rx.recvd, 0xFFFF, 4, true, false, true, false);
        Reaction(s.(phase := Fetch, rxSar := rx, txSar := tx, meta := m), rest,
                 Segment(m, sid).(retransmitTimer := timer))
      else
        var isn: u32 := s.randomValue as int;
        var m := Meta(isn, rx.recvd, 0xFFFF, 4, true, false, true, false);
        Reaction(s.(phase := Fetch, rxSar := rx, txSar := tx.(notAckd := isn),
                    randomValue := Scramble(s.randomValue), meta := m),
                 rest,
                 Segment(m, sid).(retransmitTimer := timer,
                                  txReq := [WriteQuery(sid, Wrap32(isn + 1), true, false, false)]))
  }

  /** FIN: sent only once all buffered data is out; recorded in the table on first send. */
  function FinNext(s: LoaderState, inp: LoaderInputs): Reaction
  {
    if !Ready(s, inp) then Reaction(s, inp, NoOutput)
    else
      var (rx, tx, rest) := Load(s, inp);
      var sid := s.curEvent.sessionID;
      var f := PlanFin(tx, sid, s.curEvent.rtCount);
      var m := Meta(f.seqNumb, rx.recvd, AdvertisedWindow(rx), 0, true, false, false, true);
      var sent := if f.emit then Segment(m, sid).(retransmitTimer := [RetransmitTimerSet(sid, NoHint)])
                  else NoOutput;
      Reaction(s.(phase := Fetch, rxSar := rx, txSar := tx, meta := m), rest, sent.(txReq := f.writeBack))
  }

  /** RST: stateless (four-tuple carried by the event) or stateful (sequence number from the table). */
  function ResetNext(s: LoaderState, inp: LoaderInputs): Reaction
  {
    var e := s.curEvent;
    if !e.rstHasSession then
      Reaction(s.(phase := Fetch), inp,
               NoOutput.(ipMeta := [0], tcpMeta := [Meta(0, e.rstAckNumb, 0, 0, true, true, false, false)],
                         isLookUp := [false], shortCut := [e.tuple]))
    else if inp.txRsp == [] then
      Reaction(s, inp, NoOutput)
    else
      var tx := inp.txRsp[0];
      Reaction(s.(phase := Fetch, txSar := tx), inp.(txRsp := inp.txRsp[1..]),
               Segment(Meta(tx.notAckd, e.rstAckNumb, 0, 0, true, true, false, false), e.sessionID))
  }

  /** One clock cycle of the dispatcher. */
  function Next(s: LoaderState, inp: LoaderInputs): Reaction
  {
    if s.phase == Fetch then FetchNext(s, inp)
    else
      match s.curEvent.kind
      case Tx => DataSendNext(s, inp)
      case Rt => RetransmitNext(s, inp)
      case Ack => AckNext(s, inp)
      case AckNoDelay => AckNext(s, inp)
      case Syn => SynNext(s, inp)
      case SynAck => SynAckNext(s, inp)
      case Fin => FinNext(s, inp)
      case Rst => ResetNext(s, inp)
  }

  /** `n` cycles from `s`, with every step's output. */
  function Run(s: LoaderState, inp: LoaderInputs, n: nat): (LoaderState, LoaderInputs, seq<LoaderOutputs>)
    decreases n
  {
    if n == 0 then (s, inp, [])
    else
      var r := Next(s, inp);
      var (s', inp', outs) := Run(r.state, r.inputs, n - 1);
      (s', inp', [r.out] + outs)
  }

  /** Payload length announced by one step's segment metadata (0 for none). */
  function OutLength(o: LoaderOutputs): nat
  {
    if o.tcpMeta == [] then 0 else o.tcpMeta[0].length
  }

  /** Payload bytes announced by a run's segment metadata. */
  function SentBytes(outs: seq<LoaderOutputs>): nat
  {
    if outs == [] then 0 else OutLength(outs[0]) + SentBytes(outs[1..])
  }

  /** The first step of a run, split off. */
  lemma RunFirst(s: LoaderState, inp: LoaderInputs, n: nat, r: Reaction)
    requires n > 0 && r == Next(s, inp)
    ensures Run(s, inp, n).0 == Run(r.state, r.inputs, n - 1).0
    ensures SentBytes(Run(s, inp, n).2) == OutLength(r.out) + SentBytes(Run(r.state, r.inputs, n - 1).2)
  {
    var rest := Run(r.state, r.inputs, n - 1);
    assert Run(s, inp, n).2 == [r.out] + rest.2;
    assert ([r.out] + rest.2)[1..] == rest.2;
  }

  // ---------------------------------------------------------------------
  // Properties
  // ---------------------------------------------------------------------

  /**
   * The metadata FIFOs stay in lock-step: a step writes at most one segment,
   * its IP length is the segment length, it is routed either through the
   * lookup (with a request) or through the short-cut (with its tuple), and
   * a payload read always belongs to a non-empty segment of the same length.
   */
  predicate WellPaired(o: LoaderOutputs)
  {
    |o.tcpMeta| <= 1 && |o.ipMeta| == |o.tcpMeta| && |o.isLookUp| == |o.tcpMeta| &&
    (o.tcpMeta != [] ==> o.ipMeta[0] == o.tcpMeta[0].length) &&
    (o.lookupReq != [] <==> o.isLookUp == [true]) && |o.lookupReq| <= 1 &&
    (o.shortCut != [] <==> o.isLookUp == [false]) && |o.shortCut| <= 1 &&
    (o.readCmd != [] ==> |o.readCmd| == 1 && o.tcpMeta != [] &&
                         0 < o.readCmd[0].bbt == o.tcpMeta[0].length)
  }

  lemma EveryStepPairsMetadata(s: LoaderState, inp: LoaderInputs)
    ensures WellPaired(Next(s, inp).out)
  {
    if s.phase == Process {
      match s.curEvent.kind {
        case Tx => DataSendPairs(s, inp);
        case Rt => RetransmitPairs(s, inp);
        case Ack => AckPairs(s, inp);
        case AckNoDelay => AckPairs(s, inp);
        case Syn => SynPairs(s, inp);
        case SynAck => SynAckPairs(s, inp);
        case Fin => FinPairs(s, inp);
        case Rst => ResetPairs(s, inp);
      }
    }
  }

  lemma AckPairs(s: LoaderState, inp: LoaderInputs)
    ensures WellPaired(AckNext(s, inp).out)
  {
  }

  lemma SynPairs(s: LoaderState, inp: LoaderInputs)
    ensures WellPaired(SynNext(s, inp).out)
  {
  }

  lemma SynAckPairs(s: LoaderState, inp: LoaderInputs)
    ensures WellPaired(SynAckNext(s, inp).out)
  {
    if inp.rxRsp != [] && inp.txRsp != [] {
      var o := SynAckNext(s, inp).out;
      var m := SynAckNext(s, inp).state.meta;
      SegmentPairs(m, s.curEvent.sessionID, o.retransmitTimer, o.txReq);
      if s.curEvent.rtCount != 0 {
        assert o == Segment(m, s.curEvent.sessionID).(retransmitTimer := o.retransmitTimer);
      } else {
        assert o == Segment(m, s.curEvent.sessionID).(retransmitTimer := o.retransmitTimer, txReq := o.txReq);
      }
    }
  }

  /** A segment with a timer and, possibly, a table write is well paired. */
  lemma SegmentPairs(m: Meta, sid: u16, timer: seq<RetransmitTimerSet>, req: seq<TxSarQuery>)
    ensures WellPaired(Segment(m, sid).(retransmitTimer := timer))
    ensures WellPaired(Segment(m, sid).(retransmitTimer := timer, txReq := req))
  {
  }

  lemma FinPairs(s: LoaderState, inp: LoaderInputs)
    ensures WellPaired(FinNext(s, inp).out)
  {
  }

  lemma ResetPairs(s: LoaderState, inp: LoaderInputs)
    ensures WellPaired(ResetNext(s, inp).out)
  {
  }

  lemma DataSendPairs(s: LoaderState, inp: LoaderInputs)
    ensures WellPaired(DataSendNext(s, inp).out)
  {
    if Ready(s, inp) {
      var tx := Load(s, inp).1;
      assert PlanTx(tx).length <= MSS;
    }
  }

  lemma RetransmitPairs(s: LoaderState, inp: LoaderInputs)
    ensures WellPaired(RetransmitNext(s, inp).out)
  {
    if Ready(s, inp) {
      var tx := Load(s, inp).1;
      assert PlanRt(tx, s.segmentCount).length <= MSS;
    }
  }

  /**
   * A step consumes at most one entry of each input FIFO.
   */
  lemma StepConsumesAtMostOne(s: LoaderState, inp: LoaderInputs)
    ensures var r := Next(s, inp);
            (r.inputs.events == inp.events || (inp.events != [] && r.inputs.events == inp.events[1..])) &&
            (r.inputs.rxRsp == inp.rxRsp || (inp.rxRsp != [] && r.inputs.rxRsp == inp.rxRsp[1..])) &&
            (r.inputs.txRsp == inp.txRsp || (inp.txRsp != [] && r.inputs.txRsp == inp.txRsp[1..]))
  {
  }

  /**
   * The fetch phase requests exactly the table replies the process phase
   * waits for: an event never consumes a reply it did not request, and
   * once the replies it requested are queued it consumes them.
   */
  lemma FetchRequestsWhatProcessReads(s: LoaderState, e: Event, inp: LoaderInputs, later: LoaderInputs)
    ensures var f := FetchNext(s, inp.(events := [e] + inp.events));
            var r := Next(f.state, later);
            var asked := f.out;
            (asked.rxReq == [] ==> r.inputs.rxRsp == later.rxRsp) &&
            (asked.txReq == [] ==> r.inputs.txRsp == later.txRsp) &&
            (asked.rxReq != [] && later.rxRsp != [] && later.txRsp != [] ==>
               r.inputs.rxRsp == later.rxRsp[1..] && r.inputs.txRsp == later.txRsp[1..]) &&
            (asked.txReq != [] && later.txRsp != [] && (asked.rxReq == [] || later.rxRsp != []) ==>
               r.inputs.txRsp == later.txRsp[1..])
  {
    var f := FetchNext(s, inp.(events := [e] + inp.events));
    assert f.state.curEvent == e && f.state.phase == Process && !f.state.sarLoaded;
  }

  /** A stateless reset touches no session table and goes out through the short-cut with its own tuple. */
  lemma StatelessResetUsesNoTable(s: LoaderState, inp: LoaderInputs)
    requires s.curEvent.kind == Rst && !s.curEvent.rstHasSession
    ensures s.phase == Fetch ==> Requests(s.curEvent) == NoOutput
    ensures s.phase == Process ==>
              var r := Next(s, inp);
              r.inputs == inp && r.state.phase == Fetch &&
              r.out.shortCut == [s.curEvent.tuple] && r.out.isLookUp == [false] &&
              r.out.tcpMeta == [Meta(0, s.curEvent.rstAckNumb, 0, 0, true, true, false, false)]
  {
  }

  /** A stateful reset carries the table's not_ackd as its sequence number. */
  lemma StatefulResetUsesNotAckd(s: LoaderState, inp: LoaderInputs)
    requires s.phase == Process && s.curEvent.kind == Rst && s.curEvent.rstHasSession
    requires inp.txRsp != []
    ensures var r := Next(s, inp);
            r.out.tcpMeta == [Meta(inp.txRsp[0].notAckd, s.curEvent.rstAckNumb, 0, 0, true, true, false, false)] &&
            r.out.lookupReq == [s.curEvent.sessionID] && r.out.readCmd == [] && r.inputs.rxRsp == inp.rxRsp
  {
  }

  /**
   * A first SYN or SYN-ACK takes the generator's value as its sequence
   * number, initialises the table to the number after it, and advances the
   * generator by its scrambling step.
   */
  lemma FirstSynUsesGenerator(s: LoaderState, inp: LoaderInputs)
    requires s.phase == Process && (s.curEvent.kind == Syn || s.curEvent.kind == SynAck)
    requires s.curEvent.rtCount == 0
    requires s.curEvent.kind == SynAck ==> inp.rxRsp != [] && inp.txRsp != []
    ensures UsesGenerator(s, Next(s, inp))
  {
    if s.curEvent.kind == Syn {
      SynUsesGenerator(s, inp);
    } else {
      SynAckUsesGenerator(s, inp);
    }
  }

  /** The reaction sends a SYN numbered by the generator and records the number after it. */
  predicate UsesGenerator(s: LoaderState, r: Reaction)
  {
    var isn: u32 := s.randomValue as int;
    r.out.tcpMeta != [] && r.out.tcpMeta[0].seqNumb == isn && r.out.tcpMeta[0].syn &&
    r.out.txReq == [WriteQuery(s.curEvent.sessionID, Wrap32(isn + 1), true, false, false)] &&
    r.state.randomValue == Scramble(s.randomValue) && r.state.txSar.notAckd == isn
  }

  lemma SynUsesGenerator(s: LoaderState, inp: LoaderInputs)
    requires s.curEvent.rtCount == 0
    ensures UsesGenerator(s, SynNext(s, inp))
  {
  }

  lemma SynAckUsesGenerator(s: LoaderState, inp: LoaderInputs)
    requires s.curEvent.rtCount == 0 && inp.rxRsp != [] && inp.txRsp != []
    ensures UsesGenerator(s, SynAckNext(s, inp))
  {
  }

  /**
   * The shape of every SYN and SYN-ACK: its only length is the four-byte
   * MSS option, it offers the full window 0xFFFF, SYN is set, RST and FIN
   * are clear, and ACK is set exactly for a SYN-ACK.
   */
  predicate SynShape(m: Meta, isSynAck: bool)
  {
    m.length == 4 && m.window == 0xFFFF && m.syn && !m.rst && !m.fin && m.ack == isSynAck
  }

  /** A SYN step, first or retried, sends one segment of that shape through the lookup. */
  lemma SynStepShape(s: LoaderState, inp: LoaderInputs)
    requires s.curEvent.rtCount == 0 || inp.txRsp != []
    ensures var r := SynNext(s, inp);
            |r.out.tcpMeta| == 1 && SynShape(r.out.tcpMeta[0], false) && r.out.tcpMeta[0].ackNumb == 0 &&
            r.out.ipMeta == [4] && r.out.isLookUp == [true] && r.out.readCmd == [] &&
            r.out.retransmitTimer == [RetransmitTimerSet(s.curEvent.sessionID, SynHint)] &&
            r.state.phase == Fetch
  {
  }

  /** A SYN-ACK step, first or retried, sends one segment of that shape acknowledging recvd. */
  lemma SynAckStepShape(s: LoaderState, inp: LoaderInputs)
    requires inp.rxRsp != [] && inp.txRsp != []
    ensures var r := SynAckNext(s, inp);
            |r.out.tcpMeta| == 1 && SynShape(r.out.tcpMeta[0], true) &&
            r.out.tcpMeta[0].ackNumb == inp.rxRsp[0].recvd &&
            r.out.ipMeta == [4] && r.out.isLookUp == [true] && r.out.readCmd == [] &&
            r.out.retransmitTimer == [RetransmitTimerSet(s.curEvent.sessionID, SynAckHint)] &&
            r.state.phase == Fetch
  {
  }

  /**
   * A retried SYN is numbered from the table's ackd, the number of the SYN
   * first sent; it writes nothing back and leaves the generator alone.
   */
  lemma SynRetryUsesAckd(s: LoaderState, inp: LoaderInputs)
    requires s.curEvent.rtCount != 0 && inp.txRsp != []
    ensures var r := SynNext(s, inp);
            r.out.tcpMeta != [] && r.out.tcpMeta[0].seqNumb == inp.txRsp[0].ackd &&
            r.out.txReq == [] && r.state.randomValue == s.randomValue &&
            r.inputs == inp.(txRsp := inp.txRsp[1..])
  {
  }

  /** A retried SYN-ACK, likewise, is numbered from ackd and changes neither table nor generator. */
  lemma SynAckRetryUsesAckd(s: LoaderState, inp: LoaderInputs)
    requires s.curEvent.rtCount != 0 && inp.rxRsp != [] && inp.txRsp != []
    ensures var r := SynAckNext(s, inp);
            r.out.tcpMeta != [] && r.out.tcpMeta[0].seqNumb == inp.txRsp[0].ackd &&
            r.out.txReq == [] && r.state.randomValue == s.randomValue &&
            r.inputs == inp.(rxRsp := inp.rxRsp[1..], txRsp := inp.txRsp[1..])
  {
  }

  /**
   * ACK: once both session replies are queued, one pure acknowledgement
   * goes out, numbered from not_ackd, acknowledging recvd, offering the
   * advertised window, with no payload and only ACK set; until then the
   * dispatcher waits without change.
   */
  lemma AckStepSends(s: LoaderState, inp: LoaderInputs)
    requires s.phase == Process && (s.curEvent.kind == Ack || s.curEvent.kind == AckNoDelay)
    ensures inp.rxRsp == [] || inp.txRsp == [] ==> Next(s, inp) == Reaction(s, inp, NoOutput)
    ensures inp.rxRsp != [] && inp.txRsp != [] ==>
              var r := Next(s, inp);
              var rx := inp.rxRsp[0];
              r.out.tcpMeta == [Meta(inp.txRsp[0].notAckd, rx.recvd, AdvertisedWindow(rx), 0, true, false, false, false)] &&
              r.out.ipMeta == [0] && r.out.readCmd == [] && r.out.txReq == [] && r.out.retransmitTimer == [] &&
              r.out.lookupReq == [s.curEvent.sessionID] && r.state.phase == Fetch &&
              r.inputs == inp.(rxRsp := inp.rxRsp[1..], txRsp := inp.txRsp[1..])
  {
  }

  /**
   * FIN: the segment goes out exactly when PlanFin says, as a FIN+ACK with
   * no payload, numbered as PlanFin says and acknowledging recvd; the
   * table update is PlanFin's write-back whether or not it goes out.
   */
  lemma FinStepSends(s: LoaderState, inp: LoaderInputs)
    requires s.phase == Process && s.curEvent.kind == Fin && Ready(s, inp)
    ensures var (rx, tx, rest) := Load(s, inp);
            var f := PlanFin(tx, s.curEvent.sessionID, s.curEvent.rtCount);
            var r := Next(s, inp);
            (r.out.tcpMeta != [] <==> f.emit) &&
            (f.emit ==> r.out.tcpMeta == [Meta(f.seqNumb, rx.recvd, AdvertisedWindow(rx), 0, true, false, false, true)] &&
                        r.out.ipMeta == [0] && r.out.lookupReq == [s.curEvent.sessionID]) &&
            r.out.txReq == f.writeBack && r.out.readCmd == [] &&
            r.state.phase == Fetch && r.inputs == rest
  {
  }

  /**
   * RT: a segment of min(retransmit length, MSS) bytes from ackd goes out
   * exactly when that length is not zero, read from ackd's slot, with the
   * retransmit timer re-armed.
   */
  lemma RetransmitStepSends(s: LoaderState, inp: LoaderInputs)
    requires s.phase == Process && s.curEvent.kind == Rt && Ready(s, inp)
    ensures var (rx, tx, _) := Load(s, inp);
            var sid := s.curEvent.sessionID;
            var len := Min(RetransmitLength(tx), MSS);
            var r := Next(s, inp);
            (r.out.tcpMeta != [] <==> len != 0) &&
            (len != 0 ==> r.out.tcpMeta == [Meta(tx.ackd, rx.recvd, AdvertisedWindow(rx), len, true, false, false, false)] &&
                          r.out.readCmd == [MemCmd(PayloadAddress(sid, tx.ackd), len)] &&
                          r.out.retransmitTimer == [RetransmitTimerSet(sid, NoHint)])
  {
  }

  /**
   * RT: the slow-start threshold is lowered to max(flight / 2, 2 MSS) only
   * on the first step of a first retransmission (rt_count 1, session state
   * freshly read); no other RT step writes to the table.
   */
  lemma RetransmitThresholdOnFirstPass(s: LoaderState, inp: LoaderInputs)
    requires s.phase == Process && s.curEvent.kind == Rt && Ready(s, inp)
    ensures var tx := Load(s, inp).1;
            var r := Next(s, inp);
            r.out.txReq == if !s.sarLoaded && s.curEvent.rtCount == 1
                           then [ThresholdQuery(s.curEvent.sessionID, Max(RetransmitLength(tx) / 2, 2 * MSS) as u16)]
                           else []
  {
  }

  /**
   * One TX step: the segment fits the MSS, the usable window and the unsent
   * data, starts at not_ackd, is read from not_ackd's slot of the session's
   * buffer, and not_ackd advances by its length.
   */
  lemma DataSendStepIsPlanned(s: LoaderState, inp: LoaderInputs)
    requires s.phase == Process && s.curEvent.kind == Tx && Ready(s, inp)
    ensures var (rx, tx, _) := Load(s, inp);
            var r := Next(s, inp);
            var len := if r.out.tcpMeta == [] then 0 else r.out.tcpMeta[0].length;
            len <= MSS && len <= UsableWindow(tx) && len <= AvailableLength(tx) &&
            r.state.txSar.notAckd == Wrap32(tx.notAckd + len) &&
            (r.out.tcpMeta != [] ==> r.out.tcpMeta[0].seqNumb == tx.notAckd &&
                                     r.out.tcpMeta[0].ackNumb == rx.recvd &&
                                     r.out.readCmd == [MemCmd(PayloadAddress(s.curEvent.sessionID, tx.notAckd), len)])
  {
  }

  /** Steps the TX event stays in the process phase for, from table state `tx`. */
  function DataSendSteps(tx: TxSarReply): nat
    decreases AvailableLength(tx)
  {
    var p := PlanTx(tx);
    if p.after == Repeat then
      AvailableAfterFullSegment(tx);
      1 + DataSendSteps(tx.(notAckd := p.notAckd))
    else 1
  }

  /** The state a TX step leaves, in terms of its plan. */
  lemma DataSendOneStep(s: LoaderState, inp: LoaderInputs, tx: TxSarReply, r: Reaction)
    requires s.phase == Process && s.curEvent.kind == Tx && Ready(s, inp)
    requires tx == Load(s, inp).1 && r == Next(s, inp)
    ensures r.state.sarLoaded && r.state.phase == PhaseAfter(PlanTx(tx).after)
    ensures r.state.curEvent.kind == (if PlanTx(tx).after == ThenFin then Fin else Tx)
    ensures r.state.txSar == tx.(notAckd := PlanTx(tx).notAckd)
    ensures OutLength(r.out) == PlanTx(tx).length
  {
  }

  /** How TxBurst and DataSendSteps unfold over one full segment. */
  lemma DataSendRepeat(tx: TxSarReply, tx': TxSarReply)
    requires PlanTx(tx).after == Repeat && tx' == tx.(notAckd := PlanTx(tx).notAckd)
    ensures AvailableLength(tx') < AvailableLength(tx)
    ensures DataSendSteps(tx) == 1 + DataSendSteps(tx')
    ensures TxBurst(tx) == MSS + TxBurst(tx')
  {
    AvailableAfterFullSegment(tx);
    assert TxBurst(tx) == PlanTx(tx).length + TxBurst(tx');
  }

  /** After one full segment, not_ackd plus the rest of the burst is where the whole burst leaves it. */
  lemma DataSendRepeatAdvances(tx: TxSarReply, tx': TxSarReply)
    requires PlanTx(tx).after == Repeat && tx' == tx.(notAckd := PlanTx(tx).notAckd)
    ensures Wrap32(tx'.notAckd + TxBurst(tx')) == Wrap32(tx.notAckd + TxBurst(tx))
  {
    DataSendRepeat(tx, tx');
    AdvanceBySegment(tx.notAckd, tx'.notAckd, TxBurst(tx'), TxBurst(tx));
  }

  lemma AdvanceBySegment(n: u32, n': u32, rest: nat, total: nat)
    requires n' == Wrap32(n + MSS as int) && total == MSS as int + rest
    ensures Wrap32(n' + rest) == Wrap32(n + total)
  {
    Wrap32Advance(n, MSS as int, rest, total);
  }

  /**
   * A TX event, run to its end, announces exactly TxBurst bytes, advances
   * not_ackd by them, and leaves the process phase or hands over to a FIN.
   */
  lemma {:induction false} DataSendBurst(s: LoaderState, inp: LoaderInputs, tx: TxSarReply)
    requires s.phase == Process && s.curEvent.kind == Tx && Ready(s, inp)
    requires tx == Load(s, inp).1
    ensures SentBytes(Run(s, inp, DataSendSteps(tx)).2) == TxBurst(tx)
    ensures Run(s, inp, DataSendSteps(tx)).0.txSar.notAckd == Wrap32(tx.notAckd + TxBurst(tx))
    ensures Run(s, inp, DataSendSteps(tx)).0.phase == Fetch ||
            Run(s, inp, DataSendSteps(tx)).0.curEvent.kind == Fin
    decreases AvailableLength(tx)
  {
    var r := Next(s, inp);
    var p := PlanTx(tx);
    var n := DataSendSteps(tx);
    DataSendOneStep(s, inp, tx, r);
    RunFirst(s, inp, n, r);
    if p.after == Repeat {
      var tx' := tx.(notAckd := p.notAckd);
      DataSendRepeat(tx, tx');
      DataSendRepeatAdvances(tx, tx');
      DataSendBurst(r.state, r.inputs, tx');
    } else {
      assert Run(r.state, r.inputs, n - 1) == (r.state, r.inputs, []);
    }
  }

  /**
   * A TX event, run to its end, hands over to a FIN exactly when a FIN is
   * ready and the burst hands out every buffered byte; otherwise it ends as
   * a TX event back in the fetch phase.
   */
  lemma {:induction false} DataSendBurstHandsOverToFin(s: LoaderState, inp: LoaderInputs, tx: TxSarReply)
    requires s.phase == Process && s.curEvent.kind == Tx && Ready(s, inp)
    requires tx == Load(s, inp).1
    ensures var end := Run(s, inp, DataSendSteps(tx)).0;
            (end.curEvent.kind == Fin <==> tx.finReady && TxBurst(tx) == AvailableLength(tx)) &&
            (end.curEvent.kind != Fin ==> end.phase == Fetch && end.curEvent.kind == Tx)
    decreases AvailableLength(tx)
  {
    var r := Next(s, inp);
    var p := PlanTx(tx);
    var n := DataSendSteps(tx);
    DataSendOneStep(s, inp, tx, r);
    RunFirst(s, inp, n, r);
    if p.after == Repeat {
      var tx' := tx.(notAckd := p.notAckd);
      DataSendRepeat(tx, tx');
      AvailableAfterFullSegment(tx);
      DataSendBurstHandsOverToFin(r.state, r.inputs, tx');
    } else {
      assert Run(r.state, r.inputs, n - 1).0 == r.state;
    }
  }

  /** Steps one RT pass stays in the process phase for. */
  function RetransmitSteps(tx: TxSarReply, count: u2): nat
    decreases 3 - count
  {
    var p := PlanRt(tx, count);
    if p.after == Repeat then 1 + RetransmitSteps(tx.(ackd := p.ackd), count + 1) else 1
  }

  /** The state an RT step leaves, in terms of its plan. */
  lemma RetransmitOneStep(s: LoaderState, inp: LoaderInputs, tx: TxSarReply, r: Reaction)
    requires s.phase == Process && s.curEvent.kind == Rt && Ready(s, inp)
    requires tx == Load(s, inp).1 && r == Next(s, inp)
    ensures r.state.sarLoaded && r.state.phase == PhaseAfter(PlanRt(tx, s.segmentCount).after)
    ensures r.state.curEvent.kind == (if PlanRt(tx, s.segmentCount).after == ThenFin then Fin else Rt)
    ensures r.state.segmentCount == PlanRt(tx, s.segmentCount).segmentCount
    ensures r.state.txSar == tx.(ackd := PlanRt(tx, s.segmentCount).ackd)
    ensures OutLength(r.out) == PlanRt(tx, s.segmentCount).length
  {
  }

  /**
   * An RT event, run to the end of its pass, announces RtBurst bytes
   * starting at ackd, and leaves the process phase or hands over to a FIN.
   */
  lemma {:induction false} RetransmitBurst(s: LoaderState, inp: LoaderInputs, tx: TxSarReply)
    requires s.phase == Process && s.curEvent.kind == Rt && Ready(s, inp)
    requires tx == Load(s, inp).1
    ensures SentBytes(Run(s, inp, RetransmitSteps(tx, s.segmentCount)).2) == RtBurst(tx, s.segmentCount)
    ensures Run(s, inp, RetransmitSteps(tx, s.segmentCount)).0.phase == Fetch ||
            Run(s, inp, RetransmitSteps(tx, s.segmentCount)).0.curEvent.kind == Fin
    decreases 3 - s.segmentCount
  {
    var r := Next(s, inp);
    var p := PlanRt(tx, s.segmentCount);
    RetransmitOneStep(s, inp, tx, r);
    RunFirst(s, inp, RetransmitSteps(tx, s.segmentCount), r);
    if p.after == Repeat {
      RetransmitBurst(r.state, r.inputs, tx.(ackd := p.ackd));
    } else {
      assert Run(r.state, r.inputs, 0) == (r.state, r.inputs, []);
    }
  }

  // ---------------------------------------------------------------------
  // The dispatcher with its statics as fields
  // ---------------------------------------------------------------------

  class Loader {
    var phase: Phase
    var sarLoaded: bool
    var curEvent: Event
    var randomValue: bv32
    var segmentCount: u2
    var rxSar: RxSarEntry
    var txSar: TxSarReply
    var meta: Meta

    function State(): LoaderState
      reads this
    {
      LoaderState(phase, sarLoaded, curEvent, randomValue, segmentCount, rxSar, txSar, meta)
    }

    constructor ()
      ensures State() == InitialState
    {
      phase, sarLoaded, curEvent, randomValue, segmentCount := Fetch, false, NoEvent, RandomSeed, 0;
      rxSar, txSar := RxSarEntry(0, 0), TxSarReply(0, 0, 0, 0, false, false);
      meta := Meta(0, 0, 0, 0, false, false, false, false);
    }

    /** One clock cycle: returns the inputs left and what was written. */
    method Step(inp: LoaderInputs) returns (rest: LoaderInputs, out: LoaderOutputs)
      modifies this
      ensures Reaction(State(), rest, out) == Next(old(State()), inp)
    {
      if phase == Fetch {
        rest, out := FetchEvent(inp);
      } else {
        match curEvent.kind {
          case Tx => rest, out := SendData(inp);
          case Rt => rest, out := Retransmit(inp);
          case Ack => rest, out := SendAck(inp);
          case AckNoDelay => rest, out := SendAck(inp);
          case Syn => rest, out := SendSyn(inp);
          case SynAck => rest, out := SendSynAck(inp);
          case Fin => rest, out := SendFin(inp);
          case Rst => rest, out := SendReset(inp);
        }
      }
    }

    method FetchEvent(inp: LoaderInputs) returns (rest: LoaderInputs, out: LoaderOutputs)
      requires phase == Fetch
      modifies this
      ensures Reaction(State(), rest, out) == FetchNext(old(State()), inp)
    {
      rest, out := inp, NoOutput;
      if inp.events != [] {
        curEvent := inp.events[0];
        rest := inp.(events := inp.events[1..]);
        out := Requests(curEvent).(readCount := [1]);
        sarLoaded := false;
        phase := Process;
        randomValue := randomValue + 1;
      }
      segmentCount := 0;
    }

    /** Takes the session state from the reply FIFOs unless this event already holds it. */
    method LoadSar(inp: LoaderInputs) returns (rest: LoaderInputs)
      requires Ready(State(), inp)
      modifies this
      ensures (rxSar, txSar, rest) == Load(old(State()), inp)
      ensures phase == old(phase) && sarLoaded == old(sarLoaded) && curEvent == old(curEvent)
      ensures randomValue == old(randomValue) && segmentCount == old(segmentCount) && meta == old(meta)
    {
      rest := inp;
      if !sarLoaded {
        rxSar, txSar := inp.rxRsp[0], inp.txRsp[0];
        rest := inp.(rxRsp := inp.rxRsp[1..], txRsp := inp.txRsp[1..]);
      }
    }

    method SendData(inp: LoaderInputs) returns (rest: LoaderInputs, out: LoaderOutputs)
      requires phase == Process
      modifies this
      ensures Reaction(State(), rest, out) == DataSendNext(old(State()), inp)
    {
      rest, out := inp, NoOutput;
      if Ready(State(), inp) {
        rest := LoadSar(inp);
        var sid := curEvent.sessionID;
        var p := PlanTx(txSar);
        meta := Meta(txSar.notAckd, rxSar.recvd, AdvertisedWindow(rxSar), p.length, true, false, false, false);
        if p.length != 0 {
          out := DataSegment(meta, sid, PayloadAddress(sid, txSar.notAckd));
        }
        if p.probe {
          out := out.(probeTimer := [sid]);
        }
        if p.writeBack {
          out := out.(txReq := [WriteQuery(sid, p.notAckd, false, false, false)]);
        }
        txSar := txSar.(notAckd := p.notAckd);
        phase := PhaseAfter(p.after);
        curEvent := Retag(curEvent, p.after);
        sarLoaded := true;
      }
    }

    method Retransmit(inp: LoaderInputs) returns (rest: LoaderInputs, out: LoaderOutputs)
      requires phase == Process
      modifies this
      ensures Reaction(State(), rest, out) == RetransmitNext(old(State()), inp)
    {
      rest, out := inp, NoOutput;
      if Ready(State(), inp) {
        var firstPass := !sarLoaded && curEvent.rtCount == 1;
        rest := LoadSar(inp);
        var sid := curEvent.sessionID;
        var p := PlanRt(txSar, segmentCount);
        meta := Meta(txSar.ackd, rxSar.recvd, AdvertisedWindow(rxSar), p.length, true, false, false, false);
        if p.length != 0 {
          out := DataSegment(meta, sid, PayloadAddress(sid, txSar.ackd));
        }
        if firstPass {
          out := out.(txReq := [ThresholdQuery(sid, SlowStartThreshold(RetransmitLength(txSar)))]);
        }
        txSar := txSar.(ackd := p.ackd);
        segmentCount := p.segmentCount;
        phase := PhaseAfter(p.after);
        curEvent := Retag(curEvent, p.after);
        sarLoaded := true;
      }
    }

    method SendAck(inp: LoaderInputs) returns (rest: LoaderInputs, out: LoaderOutputs)
      requires phase == Process
      modifies this
      ensures Reaction(State(), rest, out) == AckNext(old(State()), inp)
    {
      rest, out := inp, NoOutput;
      if inp.rxRsp != [] && inp.txRsp != [] {
        rxSar, txSar := inp.rxRsp[0], inp.txRsp[0];
        rest := inp.(rxRsp := inp.rxRsp[1..], txRsp := inp.txRsp[1..]);
        meta := Meta(txSar.notAckd, rxSar.recvd, AdvertisedWindow(rxSar), 0, true, false, false, false);
        out := Segment(meta, curEvent.sessionID);
        phase := Fetch;
      }
    }

    method SendSyn(inp: LoaderInputs) returns (rest: LoaderInputs, out: LoaderOutputs)
      requires phase == Process
      modifies this
      ensures Reaction(State(), rest, out) == SynNext(old(State()), inp)
    {
      rest, out := inp, NoOutput;
      var sid := curEvent.sessionID;
      if curEvent.rtCount != 0 && inp.txRsp != [] {
        txSar := inp.txRsp[0];
        rest := inp.(txRsp := inp.txRsp[1..]);
        meta := Meta(txSar.ackd, 0, 0xFFFF, 4, false, false, true, false);
      } else if curEvent.rtCount == 0 {
        var isn: u32 := randomValue as int;
        txSar := txSar.(notAckd := isn);
        randomValue := Scramble(randomValue);
        meta := Meta(isn, 0, 0xFFFF, 4, false, false, true, false);
        out := out.(txReq := [WriteQuery(sid, Wrap32(isn + 1), true, false, false)]);
      }
      if curEvent.rtCount == 0 || inp.txRsp != [] {
        out := Segment(meta, sid).(retransmitTimer := [RetransmitTimerSet(sid, SynHint)], txReq := out.txReq);
        phase := Fetch;
      }
    }

    method SendSynAck(inp: LoaderInputs) returns (rest: LoaderInputs, out: LoaderOutputs)
      requires phase == Process
      modifies this
      ensures Reaction(State(), rest, out) == SynAckNext(old(State()), inp)
    {
      rest, out := inp, NoOutput;
      if inp.rxRsp != [] && inp.txRsp != [] {
        var sid := curEvent.sessionID;
        var timer := [RetransmitTimerSet(sid, SynAckHint)];
        rxSar, txSar := inp.rxRsp[0], inp.txRsp[0];
        rest := inp.(rxRsp := inp.rxRsp[1..], txRsp := inp.txRsp[1..]);
        if curEvent.rtCount != 0 {
          meta := Meta(txSar.ackd, rxSar.recvd, 0xFFFF, 4, true, false, true, false);
          out := Segment(meta, sid).(retransmitTimer := timer);
        } else {
          var isn: u32 := randomValue as int;
          txSar := txSar.(notAckd := isn);
          randomValue := Scramble(randomValue);
          meta := Meta(isn, rxSar.recvd, 0xFFFF, 4, true, false, true, false);
          out := Segment(meta, sid).(retransmitTimer := timer,
                                     txReq := [WriteQuery(sid, Wrap32(isn + 1), true, false, false)]);
        }
        phase := Fetch;
      }
    }

    method SendFin(inp: LoaderInputs) returns (rest: LoaderInputs, out: LoaderOutputs)
      requires phase == Process
      modifies this
      ensures Reaction(State(), rest, out) == FinNext(old(State()), inp)
    {
      rest, out := inp, NoOutput;
      if Ready(State(), inp) {
        rest := LoadSar(inp);
        var sid := curEvent.sessionID;
        var f := PlanFin(txSar, sid, curEvent.rtCount);
        meta := Meta(f.seqNumb, rxSar.recvd, AdvertisedWindow(rxSar), 0, true, false, false, true);
        if f.emit {
          out := Segment(meta, sid).(retransmitTimer := [RetransmitTimerSet(sid, NoHint)]);
        }
        out := out.(txReq := f.writeBack);
        phase := Fetch;
      }
    }

    method SendReset(inp: LoaderInputs) returns (rest: LoaderInputs, out: LoaderOutputs)
      requires phase == Process
      modifies this
      ensures Reaction(State(), rest, out) == ResetNext(old(State()), inp)
    {
      rest, out := inp, NoOutput;
      var e := curEvent;
      if !e.rstHasSession {
        out := NoOutput.(ipMeta := [0], tcpMeta := [Meta(0, e.rstAckNumb, 0, 0, true, true, false, false)],
                         isLookUp := [false], shortCut := [e.tuple]);
        phase := Fetch;
      } else if inp.txRsp != [] {
        txSar := inp.txRsp[0];
        rest := inp.(txRsp := inp.txRsp[1..]);
        out := Segment(Meta(txSar.notAckd, e.rstAckNumb, 0, 0, true, true, false, false), e.sessionID);
        phase := Fetch;
      }
    }
  }
}
