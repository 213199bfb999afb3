/**
 * The two header builders (ipHeaderConstruction and
 * pseudoHeaderConstruction). Each waits until one metadata entry and one
 * tuple are available, then lays out one 64-byte word marked last: the
 * 20-byte IPv4 header of section 3.1 of RFC 791, or the 12-byte TCP
 * pseudo-header followed by the TCP header of section 3.1 of RFC 793
 * (with the maximum-segment-size option on a SYN).
 *
 * Addresses and ports are carried in integers whose least significant
 * byte is the first byte on the wire, so they are copied low byte first;
 * lengths, sequence and acknowledgment numbers and the window are written
 * most significant byte first.
 */
module Headers {
  import opened TxTypes
  import SarArith

  const WordBytes := 64

  // ---------------------------------------------------------------------
  // IPv4 header
  // ---------------------------------------------------------------------

  /** The 20 header bytes for a TCP segment carrying `length` payload bytes. */
  function IpHeaderBytes(length: u16, t: TwoTuple): (b: seq<byte>)
    ensures |b| == 20
  {
    var total := Wrap16(length + 40);
    [0x45, 0] + BE16(total) + [0, 0, 0, 0, 0x40, 6, 0, 0] + (LE32(t.srcIp) + LE32(t.dstIp))
  }

  /** The IPv4 header word. */
  function IpHeaderWord(length: u16, t: TwoTuple): (w: Word)
  {
    Word(IpHeaderBytes(length, t) + Zeros(44), LenToKeep(20, WordBytes), true)
  }

  /** The fields of an IPv4 header, as section 3.1 of RFC 791 places them. */
  datatype IpFields = IpFields(version: int, ihl: int, tos: byte, totalLength: u16, identification: u16,
                               flagsFragment: u16, ttl: byte, protocol: byte, headerChecksum: u16,
                               source: u32, destination: u32)

  function ParseIpHeader(b: seq<byte>): IpFields
    requires |b| >= 20
  {
    IpFields(b[0] / 16, b[0] % 16, b[1], FromBE16(b[2..4]), FromBE16(b[4..6]), FromBE16(b[6..8]),
             b[8], b[9], FromBE16(b[10..12]), FromLE32(b[12..16]), FromLE32(b[16..20]))
  }

  /**
   * The builder's word holds exactly one 20-byte header (IHL 5): version 4,
   * total length = payload + 20 bytes of IP header + 20 bytes of TCP
   * header (16-bit), no fragmentation, time to live 64, protocol TCP (6),
   * checksum left 0 for a later stage, and the tuple's addresses.
   */
  lemma IpHeaderLayout(length: u16, t: TwoTuple)
    ensures Sized(IpHeaderWord(length, t), WordBytes) && IpHeaderWord(length, t).last
    ensures |Valid(IpHeaderWord(length, t))| == 20
    ensures ParseIpHeader(Valid(IpHeaderWord(length, t))) ==
              IpFields(4, 5, 0, Wrap16(length + 40), 0, 0, 0x40, 6, 0, t.srcIp, t.dstIp)
  {
    KeepToLenOfLenToKeep(20, WordBytes);
    assert Valid(IpHeaderWord(length, t)) == IpHeaderBytes(length, t);
    IpBytesDecode(length, t);
  }

  lemma IpBytesDecode(length: u16, t: TwoTuple)
    ensures ParseIpHeader(IpHeaderBytes(length, t)) ==
              IpFields(4, 5, 0, Wrap16(length + 40), 0, 0, 0x40, 6, 0, t.srcIp, t.dstIp)
  {
    var h := IpHeaderBytes(length, t);
    IpFixedBytes(length, t);
    IpAddressBytes(length, t);
    ByteOrderRoundTrip(Wrap16(length + 40), t.srcIp);
    ByteOrderRoundTrip(0, t.dstIp);
    assert FromBE16(h[4..6]) == 0 && FromBE16(h[6..8]) == 0 && FromBE16(h[10..12]) == 0;
  }

  /** The first twelve header bytes: version and IHL, total length, and the constant fields. */
  lemma IpFixedBytes(length: u16, t: TwoTuple)
    ensures var h := IpHeaderBytes(length, t);
            h[0] == 0x45 && h[1] == 0 && h[2..4] == BE16(Wrap16(length + 40)) &&
            h[4..6] == [0, 0] && h[6..8] == [0, 0] && h[8] == 0x40 && h[9] == 6 && h[10..12] == [0, 0]
  {
  }

  /** The last eight header bytes: source then destination address. */
  lemma IpAddressBytes(length: u16, t: TwoTuple)
    ensures var h := IpHeaderBytes(length, t);
            h[12..16] == LE32(t.srcIp) && h[16..20] == LE32(t.dstIp)
  {
    var h := IpHeaderBytes(length, t);
    var addrs := LE32(t.srcIp) + LE32(t.dstIp);
    assert h[12..20] == addrs;
    assert h[12..16] == addrs[..4] && h[16..20] == addrs[4..];
  }

  // ---------------------------------------------------------------------
  // TCP pseudo-header and header
  // ---------------------------------------------------------------------

  /** The control-flag byte of the TCP header: FIN, SYN, RST, (PSH clear), ACK. */
  function FlagByte(m: Meta): (f: byte)
  {
    (if m.fin then 1 else 0) + (if m.syn then 2 else 0) + (if m.rst then 4 else 0) + (if m.ack then 16 else 0)
  }

  /** The maximum-segment-size option: kind 2, length 4, value MSS. */
  const MssOption: seq<byte> := [2, 4, 0x05, 0xB4]

  /** The 12-byte pseudo-header: addresses, zero, protocol TCP, TCP length. */
  function PseudoBytes(m: Meta, t: FourTuple): (b: seq<byte>)
    ensures |b| == 12
  {
    (LE32(t.srcIp) + LE32(t.dstIp)) + ([0, 6] + BE16(Wrap16(m.length + 0x14)))
  }

  /** The 20-byte TCP header without options; checksum and urgent pointer 0. */
  function TcpBytes(m: Meta, t: FourTuple): (b: seq<byte>)
    ensures |b| == 20
  {
    (LE16(t.srcPort) + LE16(t.dstPort)) + (BE32(m.seqNumb) + BE32(m.ackNumb))
      + ([(5 + (if m.syn then 1 else 0)) * 16, FlagByte(m)] + BE16(m.window) + [0, 0, 0, 0])
  }

  /** The pseudo-header, the TCP header and, on a SYN, the MSS option with four zero bytes. */
  function PseudoHeaderWord(m: Meta, t: FourTuple): (w: Word)
  {
    Word(PseudoBytes(m, t) + TcpBytes(m, t) + (if m.syn then MssOption + Zeros(28) else Zeros(32)),
         LenToKeep(if m.syn then 40 else 32, WordBytes), true)
  }

  /** The pseudo-header of section 3.1 of RFC 793, then the TCP header fields. */
  datatype TcpFields = TcpFields(source: u32, destination: u32, zero: byte, protocol: byte, tcpLength: u16,
                                 sourcePort: u16, destinationPort: u16, sequence: u32, acknowledgment: u32,
                                 dataOffset: int, reserved: int, flags: byte, window: u16,
                                 checksum: u16, urgent: u16)

  function ParseTcpHeader(b: seq<byte>): TcpFields
    requires |b| >= 32
  {
    TcpFields(FromLE32(b[0..4]), FromLE32(b[4..8]), b[8], b[9], FromBE16(b[10..12]),
              FromLE16(b[12..14]), FromLE16(b[14..16]), FromBE32(b[16..20]), FromBE32(b[20..24]),
              b[24] / 16, b[24] % 16, b[25], FromBE16(b[26..28]), FromBE16(b[28..30]), FromBE16(b[30..32]))
  }

  /**
   * The builder's word decodes to the tuple's addresses and ports, protocol
   * TCP, a TCP length of the payload plus 20 (16-bit), the metadata's
   * sequence and acknowledgment numbers and window, the metadata's flags,
   * a zero checksum and urgent pointer, and a data offset of 5 words, or 6
   * with the MSS option (value 1460) on a SYN.
   */
  lemma PseudoHeaderLayout(m: Meta, t: FourTuple)
    ensures Sized(PseudoHeaderWord(m, t), WordBytes) && PseudoHeaderWord(m, t).last
    ensures |Valid(PseudoHeaderWord(m, t))| == if m.syn then 40 else 32
    ensures ParseTcpHeader(Valid(PseudoHeaderWord(m, t))) ==
              TcpFields(t.srcIp, t.dstIp, 0, 6, Wrap16(m.length + 20), t.srcPort, t.dstPort,
                        m.seqNumb, m.ackNumb, if m.syn then 6 else 5, 0, FlagByte(m), m.window, 0, 0)
  {
    var n := if m.syn then 40 else 32;
    KeepToLenOfLenToKeep(n, WordBytes);
    var b := Valid(PseudoHeaderWord(m, t));
    var ph := PseudoBytes(m, t) + TcpBytes(m, t);
    assert b[..32] == ph;
    ParseReadsFirst32(b);
    PseudoBytesDecode(m, t);
  }

  /**
   * On a SYN the header is followed by the MSS option announcing 1460
   * bytes and then four zero bytes, which the word's keep mask also marks
   * valid although the data offset (6 words) does not cover them.
   */
  lemma SynCarriesMssOption(m: Meta, t: FourTuple)
    requires m.syn
    ensures |Valid(PseudoHeaderWord(m, t))| == 12 + 4 * 6 + 4
    ensures Valid(PseudoHeaderWord(m, t))[32..] == MssOption + [0, 0, 0, 0]
    ensures FromBE16(MssOption[2..4]) == SarArith.MSS
  {
    KeepToLenOfLenToKeep(40, WordBytes);
  }

  /** The TCP fields are read from the first 32 bytes only. */
  lemma ParseReadsFirst32(b: seq<byte>)
    requires |b| >= 32
    ensures ParseTcpHeader(b) == ParseTcpHeader(b[..32])
  {
  }

  lemma PseudoBytesDecode(m: Meta, t: FourTuple)
    ensures ParseTcpHeader(PseudoBytes(m, t) + TcpBytes(m, t)) ==
              TcpFields(t.srcIp, t.dstIp, 0, 6, Wrap16(m.length + 20), t.srcPort, t.dstPort,
                        m.seqNumb, m.ackNumb, if m.syn then 6 else 5, 0, FlagByte(m), m.window, 0, 0)
  {
    var p := PseudoBytes(m, t);
    var h := TcpBytes(m, t);
    var b := p + h;
    assert b[0..4] == p[0..4] && b[4..8] == p[4..8] && b[10..12] == p[10..12];
    assert b[12..14] == h[0..2] && b[14..16] == h[2..4] && b[16..20] == h[4..8] && b[20..24] == h[8..12];
    assert b[26..28] == h[14..16] && b[28..30] == h[16..18] && b[30..32] == h[18..20];
    PseudoFields(m, t);
    TcpFieldsOf(m, t);
  }

  lemma PseudoFields(m: Meta, t: FourTuple)
    ensures var p := PseudoBytes(m, t);
            FromLE32(p[0..4]) == t.srcIp && FromLE32(p[4..8]) == t.dstIp && p[8] == 0 && p[9] == 6
            && FromBE16(p[10..12]) == Wrap16(m.length + 20)
  {
    var p := PseudoBytes(m, t);
    ByteOrderRoundTrip(Wrap16(m.length + 0x14), t.srcIp);
    ByteOrderRoundTrip(0, t.dstIp);
    var a := LE32(t.srcIp) + LE32(t.dstIp);
    assert p[..8] == a;
    assert a[..4] == LE32(t.srcIp) && a[4..] == LE32(t.dstIp);
    assert p[10..12] == BE16(Wrap16(m.length + 0x14));
  }

  lemma TcpFieldsOf(m: Meta, t: FourTuple)
    ensures var h := TcpBytes(m, t);
            FromLE16(h[0..2]) == t.srcPort && FromLE16(h[2..4]) == t.dstPort
            && FromBE32(h[4..8]) == m.seqNumb && FromBE32(h[8..12]) == m.ackNumb
            && h[12] == (5 + (if m.syn then 1 else 0)) * 16 && h[13] == FlagByte(m)
            && FromBE16(h[14..16]) == m.window && h[16..20] == [0, 0, 0, 0]
  {
    var h := TcpBytes(m, t);
    ByteOrderRoundTrip(t.srcPort, m.seqNumb);
    ByteOrderRoundTrip(t.dstPort, m.ackNumb);
    ByteOrderRoundTrip(m.window, 0);
    var ports := LE16(t.srcPort) + LE16(t.dstPort);
    var nums := BE32(m.seqNumb) + BE32(m.ackNumb);
    var rest := [(5 + (if m.syn then 1 else 0)) * 16, FlagByte(m)] + BE16(m.window) + [0, 0, 0, 0];
    assert h == ports + nums + rest;
    assert h[0..4] == ports && h[4..12] == nums && h[12..] == rest;
    assert ports[..2] == LE16(t.srcPort) && ports[2..] == LE16(t.dstPort);
    assert nums[..4] == BE32(m.seqNumb) && nums[4..] == BE32(m.ackNumb);
    assert rest[2..4] == BE16(m.window);
  }

  /** A flag is set in the header exactly when the metadata sets it. */
  lemma FlagByteEncodesFlags(m: Meta)
    ensures FlagByte(m) % 2 == 1 <==> m.fin
    ensures FlagByte(m) / 2 % 2 == 1 <==> m.syn
    ensures FlagByte(m) / 4 % 2 == 1 <==> m.rst
    ensures FlagByte(m) / 8 % 2 == 0
    ensures FlagByte(m) / 16 % 2 == 1 <==> m.ack
    ensures FlagByte(m) < 32
  {
  }

  /**
   * For one segment, the IP total length exceeds the pseudo-header's TCP
   * length by exactly the 20-byte IP header (modulo 2^16).
   */
  lemma IpLengthCoversTcpLength(m: Meta)
    ensures Wrap16(m.length + 40) == Wrap16(Wrap16(m.length + 0x14) + 20)
  {
    var q := (m.length + 0x14) / 0x1_0000;
    assert Wrap16(m.length + 0x14) + 20 == (m.length + 40) + (-q) * 0x1_0000;
    Wrap16Shift(m.length + 40, -q);
  }

  // ---------------------------------------------------------------------
  // The builders as stages
  // ---------------------------------------------------------------------

  /** The metadata and tuples left after a cycle, and the words written. */
  datatype BuildStep<M, T> = BuildStep(metas: seq<M>, tuples: seq<T>, out: seq<Word>)

  /** One cycle of a builder: it fires only when both a metadata entry and a tuple are queued. */
  function BuildNext<M, T>(ms: seq<M>, ts: seq<T>, build: (M, T) -> Word): BuildStep<M, T>
  {
    if ms != [] && ts != [] then BuildStep(ms[1..], ts[1..], [build(ms[0], ts[0])])
    else BuildStep(ms, ts, [])
  }

  function BuildRun<M, T>(ms: seq<M>, ts: seq<T>, build: (M, T) -> Word, n: nat): BuildStep<M, T>
    decreases n
  {
    if n == 0 then BuildStep(ms, ts, [])
    else
      var r := BuildNext(ms, ts, build);
      var r' := BuildRun(r.metas, r.tuples, build, n - 1);
      BuildStep(r'.metas, r'.tuples, r.out + r'.out)
  }

  /** The IP header builder's cycle. */
  function IpHeaderNext(lengths: seq<u16>, tuples: seq<TwoTuple>): BuildStep<u16, TwoTuple>
  {
    BuildNext(lengths, tuples, IpHeaderWord)
  }

  /** The TCP header builder's cycle. */
  function PseudoHeaderNext(metas: seq<Meta>, tuples: seq<FourTuple>): BuildStep<Meta, FourTuple>
  {
    BuildNext(metas, tuples, PseudoHeaderWord)
  }

  /**
   * A builder pairs metadata and tuples strictly in arrival order: after n
   * cycles with both queues holding at least n entries, it has written the
   * k-th header from the k-th entry of each, and consumed n of each.
   */
  lemma {:induction false} BuildRunPairsInOrder<M, T>(ms: seq<M>, ts: seq<T>, build: (M, T) -> Word, n: nat)
    requires n <= |ms| && n <= |ts|
    ensures BuildRun(ms, ts, build, n).out == seq(n, k requires 0 <= k < n => build(ms[k], ts[k]))
    ensures BuildRun(ms, ts, build, n).metas == ms[n..] && BuildRun(ms, ts, build, n).tuples == ts[n..]
    decreases n
  {
    if n > 0 {
      BuildRunPairsInOrder(ms[1..], ts[1..], build, n - 1);
      assert ms[1..][n - 1..] == ms[n..] && ts[1..][n - 1..] == ts[n..];
    }
  }
}
