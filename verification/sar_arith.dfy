/**
 * The arithmetic the event dispatcher (metaLoader) performs on the
 * transmit and receive session state: advertised and usable window, the
 * length of a new or retransmitted segment, the slow-start threshold of
 * RFC 5681, the FIN sequence number and the initial-sequence-number
 * generator. Window and length arithmetic is 16 bits wide and wraps;
 * sequence pointers are 32 bits wide.
 */
module SarArith {
  import opened TxTypes

  /** Maximum segment size; the value the SYN option announces (0x05B4). */
  const MSS: u16 := 1460

  function Max(a: int, b: int): int { if a >= b then a else b }
  function Min(a: int, b: int): int { if a <= b then a else b }

  // ---------------------------------------------------------------------
  // Windows
  // ---------------------------------------------------------------------

  /**
   * The window advertised to the peer: the free space between the next
   * expected byte and the application's read pointer, less one, computed
   * modulo 2^16 so that it holds across wrap-around.
   */
  function AdvertisedWindow(rx: RxSarEntry): u16
  {
    Wrap16(rx.appd - Low16(rx.recvd) - 1)
  }

  /** The advertised window ends one byte before the application's read pointer. */
  lemma AdvertisedWindowReachesReadPointer(rx: RxSarEntry)
    ensures Wrap16(rx.recvd + AdvertisedWindow(rx) + 1) == rx.appd
  {
    var y := rx.appd - Low16(rx.recvd) - 1;
    Wrap16Residue(y);
    Low16Residue(rx.recvd);
    var k := rx.recvd / 0x1_0000 - y / 0x1_0000;
    assert rx.recvd + AdvertisedWindow(rx) + 1 == rx.appd + k * 0x1_0000;
    Wrap16Shift(rx.appd, k);
  }

  /** Bytes sent and not yet acknowledged, modulo 2^16. */
  function UsedLength(tx: TxSarReply): u16
  {
    Wrap16(Low16(tx.notAckd) - tx.ackd)
  }

  /** ackd plus the bytes in flight is not_ackd (in its low 16 bits). */
  lemma UsedLengthSpansFlight(tx: TxSarReply)
    ensures Wrap16(tx.ackd + UsedLength(tx)) == Low16(tx.notAckd)
  {
    var y := Low16(tx.notAckd) - tx.ackd;
    Wrap16Residue(y);
    var k := -(y / 0x1_0000);
    assert tx.ackd + UsedLength(tx) == Low16(tx.notAckd) + k * 0x1_0000;
    Wrap16Shift(Low16(tx.notAckd), k);
  }

  /**
   * Room left in min(receive window, congestion window) once the bytes in
   * flight are counted; zero when they already fill it.
   */
  function UsableWindow(tx: TxSarReply): (w: u16)
    ensures w <= tx.minWindow
    ensures UsedLength(tx) + w == Max(tx.minWindow, UsedLength(tx))
  {
    if tx.minWindow > UsedLength(tx) then tx.minWindow - UsedLength(tx) else 0
  }

  /** Bytes the application has written that were never sent, modulo 2^16. */
  function AvailableLength(tx: TxSarReply): u16
  {
    Wrap16(tx.app - Low16(tx.notAckd))
  }

  /** not_ackd plus the unsent bytes is the application's write pointer. */
  lemma AvailableLengthReachesApp(tx: TxSarReply)
    ensures Wrap16(tx.notAckd + AvailableLength(tx)) == tx.app
  {
    var y := tx.app - Low16(tx.notAckd);
    Wrap16Residue(y);
    Low16Residue(tx.notAckd);
    var k := tx.notAckd / 0x1_0000 - y / 0x1_0000;
    assert tx.notAckd + AvailableLength(tx) == tx.app + k * 0x1_0000;
    Wrap16Shift(tx.app, k);
  }

  /**
   * The payload-store address of sequence number `seqNumb` of a session: bits
   * 31..30 are 01, bits 29..16 the low 14 bits of the session id, bits
   * 15..0 the low 16 bits of the sequence number (the session's 64 KiB
   * circular buffer).
   */
  function PayloadAddress(sessionID: u16, seqNumb: u32): u32
  {
    0x4000_0000 + (sessionID % 0x4000) * 0x1_0000 + Low16(seqNumb)
  }

  /** The address splits into the session's buffer and the offset within it. */
  lemma PayloadAddressFields(sessionID: u16, seqNumb: u32)
    ensures Low16(PayloadAddress(sessionID, seqNumb)) == Low16(seqNumb)
    ensures PayloadAddress(sessionID, seqNumb) / 0x1_0000 == 0x4000 + sessionID % 0x4000
  {
    var hi := 0x4000 + sessionID % 0x4000;
    assert PayloadAddress(sessionID, seqNumb) == hi * 0x1_0000 + Low16(seqNumb);
  }

  // ---------------------------------------------------------------------
  // New data (TX event, buffered mode)
  // ---------------------------------------------------------------------

  /** What the dispatcher does after a step: stay on the event, leave it, or re-tag it FIN. */
  datatype After = Repeat | Done | ThenFin

  /**
   * One step of the TX event: the length of the segment to send (0 for
   * none), the new not_ackd, whether a probe timer is requested, whether
   * not_ackd is written back to the table, and what happens next.
   */
  datatype TxPlan = TxPlan(length: u16, notAckd: u32, probe: bool, writeBack: bool, after: After)

  function PlanTx(tx: TxSarReply): (p: TxPlan)
    // a segment never exceeds the MSS, the usable window or the unsent data
    ensures p.length <= MSS && p.length <= UsableWindow(tx) && p.length <= AvailableLength(tx)
    // not_ackd advances by exactly the length sent
    ensures p.notAckd == Wrap32(tx.notAckd + p.length)
    // a full segment goes out whenever data and window both allow one
    ensures AvailableLength(tx) >= MSS && UsableWindow(tx) >= MSS ==> p.length == MSS
    // Nagle: a short segment is sent only when nothing is in flight
    ensures 0 < p.length < MSS ==> tx.ackd == tx.notAckd
    // the dispatcher stays on the event only after a full segment, and
    // writes not_ackd back exactly when it leaves it
    ensures p.after == Repeat ==> p.length == MSS
    ensures p.writeBack <==> p.after != Repeat
    // leaving with unsent data always schedules a probe
    ensures p.after != Repeat && p.length < AvailableLength(tx) ==> p.probe
    ensures p.probe ==> p.after != Repeat
    // the FIN follows exactly when it is ready and the step leaving the event
    // hands out every buffered byte
    ensures p.after == ThenFin <==> tx.finReady && p.after != Repeat && p.length == AvailableLength(tx)
    // the event repeats exactly when a full segment fits both data and window
    ensures p.after == Repeat <==> Min(AvailableLength(tx), UsableWindow(tx)) >= MSS
    // a probe is armed exactly when the event ends with data in flight or held back by the window
    ensures p.probe <==> p.after != Repeat && (tx.ackd != tx.notAckd || AvailableLength(tx) > UsableWindow(tx))
    // the step that ends the event sends everything the window lets through
    // when nothing is in flight, and nothing otherwise
    ensures p.after != Repeat ==>
              p.length == (if tx.ackd == tx.notAckd then Min(AvailableLength(tx), UsableWindow(tx)) else 0)
  {
    var cur := AvailableLength(tx);
    var usable := UsableWindow(tx);
    var idle := tx.ackd == tx.notAckd;
    if cur <= usable then
      if cur >= MSS then
        TxPlan(MSS, Wrap32(tx.notAckd + MSS), false, false, Repeat)
      else
        var len := if idle then cur else 0;
        var after := if tx.finReady && (idle || cur == 0) then ThenFin else Done;
        TxPlan(len, Wrap32(tx.notAckd + len), !idle, true, after)
    else
      if usable >= MSS then
        TxPlan(MSS, Wrap32(tx.notAckd + MSS), false, false, Repeat)
      else
        var len := if idle then usable else 0;
        TxPlan(len, Wrap32(tx.notAckd + len), true, true, Done)
  }

  /** After a full segment, the unsent data shrinks by exactly MSS. */
  lemma AvailableAfterFullSegment(tx: TxSarReply)
    requires AvailableLength(tx) >= MSS
    ensures AvailableLength(tx.(notAckd := Wrap32(tx.notAckd + MSS))) == AvailableLength(tx) - MSS
  {
    var n := tx.notAckd;
    var cur := AvailableLength(tx);
    Low16OfWrap32(n + MSS);
    var lo := Wrap16(n + MSS);
    Wrap16Residue(n + MSS);
    Wrap16Residue(tx.app - Low16(n));
    Low16Residue(n);
    var k := (n + MSS) / 0x1_0000 + (tx.app - Low16(n)) / 0x1_0000 - n / 0x1_0000;
    assert tx.app - lo == (cur - MSS) + k * 0x1_0000;
    Wrap16Shift(cur - MSS, k);
  }

  /** Advancing not_ackd by len raises the bytes in flight by len, while that stays below 2^16. */
  lemma UsedAfterAdvance(tx: TxSarReply, len: nat, tx': TxSarReply)
    requires UsedLength(tx) + len < 0x1_0000
    requires tx' == tx.(notAckd := Wrap32(tx.notAckd + len))
    ensures UsedLength(tx') == UsedLength(tx) + len
  {
    var used := UsedLength(tx);
    Low16OfWrap32(tx.notAckd + len);
    Wrap16Residue(tx.notAckd + len);
    Low16Residue(tx.notAckd);
    Wrap16Residue(Low16(tx.notAckd) - tx.ackd);
    var k := (tx.notAckd + len) / 0x1_0000 - tx.notAckd / 0x1_0000 - (Low16(tx.notAckd) - tx.ackd) / 0x1_0000;
    assert Low16(tx'.notAckd) - tx.ackd == (used + len) - k * 0x1_0000;
    Wrap16Shift(used + len, -k);
  }

  /** With ackd equal to not_ackd nothing is in flight. */
  lemma IdleMeansNothingInFlight(tx: TxSarReply)
    requires tx.ackd == tx.notAckd
    ensures UsedLength(tx) == 0
  {
    Low16Residue(tx.ackd);
    assert Low16(tx.notAckd) - tx.ackd == -(tx.ackd / 0x1_0000) * 0x1_0000;
    Wrap16Shift(0, -(tx.ackd / 0x1_0000));
  }

  /**
   * After a full segment that the window admitted, the rest of the data
   * is still admitted and bytes are in flight.
   */
  lemma WindowAfterFullSegment(tx: TxSarReply, tx': TxSarReply)
    requires MSS <= AvailableLength(tx) <= UsableWindow(tx)
    requires tx' == tx.(notAckd := Wrap32(tx.notAckd + MSS))
    ensures UsedLength(tx') == UsedLength(tx) + MSS
    ensures AvailableLength(tx') <= UsableWindow(tx')
    ensures tx'.ackd != tx'.notAckd
  {
    AvailableAfterFullSegment(tx);
    assert UsedLength(tx) + UsableWindow(tx) == tx.minWindow;
    UsedAfterAdvance(tx, MSS, tx');
    if tx'.ackd == tx'.notAckd {
      IdleMeansNothingInFlight(tx');
      assert false;
    }
  }

  /** Removing one MSS keeps the remainder modulo MSS. */
  lemma MinusOneSegment(x: int)
    requires x >= MSS
    ensures (x - MSS) % MSS == x % MSS
  {
    var q := x / MSS;
    assert x - MSS == (q - 1) * MSS + x % MSS;
  }

  /** Total bytes the TX event sends before the dispatcher leaves it. */
  function TxBurst(tx: TxSarReply): nat
    decreases AvailableLength(tx)
  {
    var p := PlanTx(tx);
    if p.after == Repeat then
      AvailableAfterFullSegment(tx);
      p.length + TxBurst(tx.(notAckd := p.notAckd))
    else
      p.length
  }

  /**
   * When the window admits all unsent data, one TX event sends it as whole
   * MSS segments; the tail shorter than MSS is held back (Nagle) unless it
   * is all there is and nothing is in flight.
   */
  lemma {:induction false} TxBurstSendsWholeSegments(tx: TxSarReply)
    requires AvailableLength(tx) <= UsableWindow(tx)
    ensures TxBurst(tx) == if tx.ackd == tx.notAckd && AvailableLength(tx) < MSS
                           then AvailableLength(tx)
                           else AvailableLength(tx) - AvailableLength(tx) % MSS
    decreases AvailableLength(tx)
  {
    var cur := AvailableLength(tx);
    if cur >= MSS {
      var tx' := tx.(notAckd := Wrap32(tx.notAckd + MSS));
      AvailableAfterFullSegment(tx);
      WindowAfterFullSegment(tx, tx');
      TxBurstSendsWholeSegments(tx');
      MinusOneSegment(cur);
    }
  }

  // ---------------------------------------------------------------------
  // Retransmission (RT event)
  // ---------------------------------------------------------------------

  /** Bytes to resend: everything unacknowledged, less the FIN's sequence number once sent. */
  function RetransmitLength(tx: TxSarReply): u16
  {
    Wrap16(UsedLength(tx) - (if tx.finSent then 1 else 0))
  }

  /** ackd plus the bytes to resend, plus the FIN if one was sent, is not_ackd. */
  lemma RetransmitLengthSpansFlight(tx: TxSarReply)
    ensures Wrap16(tx.ackd + RetransmitLength(tx) + (if tx.finSent then 1 else 0)) == Low16(tx.notAckd)
  {
    var f := if tx.finSent then 1 else 0;
    var y := UsedLength(tx) - f;
    Wrap16Residue(y);
    var k := -(y / 0x1_0000);
    assert tx.ackd + RetransmitLength(tx) + f == tx.ackd + UsedLength(tx) + k * 0x1_0000;
    Wrap16Shift(tx.ackd + UsedLength(tx), k);
    UsedLengthSpansFlight(tx);
  }

  /**
   * The slow-start threshold set on the first retransmission:
   * max(FlightSize / 2, 2 * SMSS), equation (4) of RFC 5681 section 3.1.
   */
  function SlowStartThreshold(flight: u16): (t: u16)
    ensures t == Max(flight / 2, 2 * MSS)
  {
    if flight > 4 * MSS then flight / 2 else 2 * MSS
  }

  /** One step of the RT event; `segmentCount` counts the MSS segments of this pass. */
  datatype RtPlan = RtPlan(length: u16, ackd: u32, segmentCount: u2, after: After)

  function PlanRt(tx: TxSarReply, segmentCount: u2): (p: RtPlan)
    ensures p.length == Min(RetransmitLength(tx), MSS)
    // the replay cursor moves past a segment only while more than MSS remains
    ensures p.ackd == if RetransmitLength(tx) > MSS then Wrap32(tx.ackd + MSS) else tx.ackd
    // the fourth consecutive MSS segment hands control back to the fetch phase
    ensures RetransmitLength(tx) > MSS ==> (p.after == Repeat <==> segmentCount < 3)
    ensures p.after == Repeat ==> p.segmentCount == segmentCount + 1
    // the remainder of a stream whose FIN was sent is followed by the FIN
    ensures p.after == ThenFin <==> RetransmitLength(tx) <= MSS && tx.finSent
  {
    var cur := RetransmitLength(tx);
    if cur > MSS then
      RtPlan(MSS, Wrap32(tx.ackd + MSS), (segmentCount + 1) % 4,
             if segmentCount == 3 then Done else Repeat)
    else
      RtPlan(cur, tx.ackd, segmentCount, if tx.finSent then ThenFin else Done)
  }

  /** Resending a full segment shrinks what is left to resend by exactly MSS. */
  lemma RetransmitAfterFullSegment(tx: TxSarReply)
    requires RetransmitLength(tx) > MSS
    ensures RetransmitLength(tx.(ackd := Wrap32(tx.ackd + MSS))) == RetransmitLength(tx) - MSS
  {
    var tx' := tx.(ackd := Wrap32(tx.ackd + MSS));
    var f := if tx.finSent then 1 else 0;
    var cur := RetransmitLength(tx);
    var k1 := (tx.ackd + MSS) / 0x1_0000_0000;
    assert tx'.ackd == tx.ackd + MSS - k1 * 0x1_0000_0000;
    var y := Low16(tx.notAckd) - tx.ackd;
    Wrap16Residue(y);
    Wrap16Residue(UsedLength(tx) - f);
    // used' = Wrap16(y - MSS + k1 * 2^32)
    Wrap16Shift(y - MSS, k1 * 0x1_0000);
    assert Low16(tx.notAckd) - tx'.ackd == (y - MSS) + (k1 * 0x1_0000) * 0x1_0000;
    var k := y / 0x1_0000 + (UsedLength(tx) - f) / 0x1_0000;
    assert y - MSS == (cur + f - MSS) + k * 0x1_0000;
    Wrap16Shift(cur + f - MSS, k);
    assert UsedLength(tx') == cur + f - MSS;
  }

  /** Total bytes one dispatch pass of an RT event resends, from segment count `count`. */
  function RtBurst(tx: TxSarReply, count: u2): nat
    decreases 3 - count
  {
    var p := PlanRt(tx, count);
    if p.after == Repeat then p.length + RtBurst(tx.(ackd := p.ackd), count + 1) else p.length
  }

  /**
   * One pass of an RT event resends everything outstanding, or four full
   * segments when more than that is outstanding.
   */
  lemma {:induction false} RtBurstResendsAtMostFourSegments(tx: TxSarReply, count: u2)
    ensures RtBurst(tx, count) == Min(RetransmitLength(tx), (4 - count) * MSS)
    decreases 3 - count
  {
    var p := PlanRt(tx, count);
    if p.after == Repeat {
      RetransmitAfterFullSegment(tx);
      RtBurstResendsAtMostFourSegments(tx.(ackd := p.ackd), count + 1);
    }
  }

  // ---------------------------------------------------------------------
  // FIN
  // ---------------------------------------------------------------------

  /** Sequence number of the FIN, whether it goes out now, and the table write-back. */
  datatype FinPlan = FinPlan(seqNumb: u32, emit: bool, writeBack: seq<TxSarQuery>)

  function PlanFin(tx: TxSarReply, sessionID: u16, rtCount: u3): (p: FinPlan)
    // a FIN goes out only when it sits right after the last application byte
    ensures p.emit <==> Low16(p.seqNumb) == tx.app
    // a retransmitted FIN reuses the sequence number committed for it
    ensures rtCount != 0 ==> Wrap32(p.seqNumb + 1) == tx.notAckd && p.writeBack == []
    // a first FIN records fin_ready, and commits its sequence number (and
    // fin_sent) exactly when it is sent
    ensures rtCount == 0 ==>
              p.seqNumb == tx.notAckd &&
              p.writeBack == [WriteQuery(sessionID, Wrap32(tx.notAckd + (if p.emit then 1 else 0)),
                                         false, true, p.emit)]
  {
    if rtCount != 0 then
      var sn := Wrap32(tx.notAckd - 1);
      FinPlan(sn, Low16(sn) == tx.app, [])
    else
      var caughtUp := tx.app == Low16(tx.notAckd);
      FinPlan(tx.notAckd, caughtUp,
              [if caughtUp then WriteQuery(sessionID, Wrap32(tx.notAckd + 1), false, true, true)
               else WriteQuery(sessionID, tx.notAckd, false, true, false)])
  }

  // ---------------------------------------------------------------------
  // Initial sequence numbers
  // ---------------------------------------------------------------------

  /** Seed of the initial-sequence-number generator. */
  const RandomSeed: bv32 := 0x562301af

  /** The generator's update on each use: (r * 8) xor r, truncated to 32 bits. */
  function Scramble(r: bv32): (n: bv32)
  {
    (r << 3) ^ r
  }

  /**
   * The update is injective, hence a permutation of the 32-bit values:
   * distinct generator states never collapse, and zero is reached only from zero.
   */
  lemma ScrambleIsInjective(r1: bv32, r2: bv32)
    ensures Scramble(r1) == Scramble(r2) ==> r1 == r2
    ensures Scramble(r1) == 0 <==> r1 == 0
  {
  }
}
