/**
 * The memory access breakdown (txEngMemAccessBreakdown): a payload read
 * command whose bytes run past the end of the session's 64 KiB circular
 * buffer is rewritten into two commands, the first up to the end of the
 * buffer and the second from its start; a one-bit marker per input
 * command tells the packet stitcher whether a split happened.
 */
module MemAccess {
  import opened TxTypes

  /** The session buffer a command reads from: address bits 31..16. */
  function Buffer(c: MemCmd): int
  {
    c.saddr / 0x1_0000
  }

  /** The offsets within the session's buffer that a command reads, in order, wrapping at 64 KiB. */
  function Offsets(c: MemCmd): seq<int>
  {
    seq(c.bbt, i => (Low16(c.saddr) + i) % 0x1_0000)
  }

  /** The command runs past the end of its buffer. */
  predicate Crosses(c: MemCmd)
  {
    Low16(c.saddr) + c.bbt > 0x1_0000
  }

  /** The command reads a contiguous range of memory. */
  predicate Contiguous(c: MemCmd)
  {
    Low16(c.saddr) + c.bbt <= 0x1_0000
  }

  /** The commands the breakdown issues for `c`. */
  function Split(c: MemCmd): seq<MemCmd>
  {
    if Crosses(c) then
      var first := 0x1_0000 - Low16(c.saddr);
      [MemCmd(c.saddr, first), MemCmd(c.saddr - Low16(c.saddr), c.bbt - first)]
    else
      [c]
  }

  /**
   * The issued commands each read contiguous memory within the same
   * session buffer, and together read exactly the offsets of `c`, in order;
   * a split happens exactly when `c` crosses the end of its buffer.
   */
  lemma SplitCoversCommand(c: MemCmd)
    ensures |Split(c)| == (if Crosses(c) then 2 else 1)
    ensures forall k :: 0 <= k < |Split(c)| ==>
              Contiguous(Split(c)[k]) && Buffer(Split(c)[k]) == Buffer(c)
    ensures Offsets(c) == if Crosses(c) then Offsets(Split(c)[0]) + Offsets(Split(c)[1])
                          else Offsets(Split(c)[0])
  {
    if Crosses(c) {
      var lo := Low16(c.saddr);
      var first := 0x1_0000 - lo;
      var a := MemCmd(c.saddr, first);
      var b := MemCmd(c.saddr - lo, c.bbt - first);
      Low16Residue(c.saddr);
      assert Low16(b.saddr) == 0 && Buffer(b) == Buffer(c);
      assert Offsets(c) == Offsets(a) + Offsets(b) by {
        forall i | 0 <= i < c.bbt
          ensures Offsets(c)[i] == (Offsets(a) + Offsets(b))[i]
        {
          if i >= first {
            assert (lo + i) % 0x1_0000 == i - first;
          }
        }
      }
    }
  }

  // ---------------------------------------------------------------------
  // The stage
  // ---------------------------------------------------------------------

  /** The stage's statics: a split in progress, the command being split, the first part's length. */
  datatype BreakdownState = BreakdownState(splitting: bool, tempCmd: MemCmd, breakTemp: u16)

  /** While a split is pending, the held command crosses and breakTemp is its first part's length. */
  predicate Inv(s: BreakdownState)
  {
    s.splitting ==> Crosses(s.tempCmd) && s.breakTemp == 0x1_0000 - Low16(s.tempCmd.saddr)
  }

  const InitialBreakdown := BreakdownState(false, MemCmd(0, 0), 0)

  /** The state after a step, the commands left, the commands issued and the markers written. */
  datatype BreakdownStep = BreakdownStep(state: BreakdownState, rest: seq<MemCmd>,
                                         out: seq<MemCmd>, marker: seq<bool>)

  /** The first part's length, computed as the 16-bit truncation of 65536 - saddr. */
  lemma BreakTempIsRoomLeft(c: MemCmd)
    requires Crosses(c)
    ensures Wrap16(0x1_0000 - c.saddr) == 0x1_0000 - Low16(c.saddr)
  {
    Low16Residue(c.saddr);
    var q := c.saddr / 0x1_0000;
    assert 0x1_0000 - c.saddr == (0x1_0000 - Low16(c.saddr)) + (-q) * 0x1_0000;
    Wrap16Shift(0x1_0000 - Low16(c.saddr), -q);
  }

  /** One cycle; `outFull` is the output FIFO's full flag. */
  function BreakdownNext(s: BreakdownState, input: seq<MemCmd>, outFull: bool): (r: BreakdownStep)
    requires Inv(s)
    ensures Inv(r.state)
  {
    if outFull || (!s.splitting && input == []) then
      BreakdownStep(s, input, [], [])
    else if !s.splitting then
      var c := input[0];
      if Crosses(c) then
        var first := Wrap16(0x1_0000 - c.saddr);
        BreakTempIsRoomLeft(c);
        BreakdownStep(BreakdownState(true, c, first), input[1..], [MemCmd(c.saddr, first)], [true])
      else
        BreakdownStep(s.(tempCmd := c), input[1..], [c], [false])
    else
      var c := s.tempCmd;
      Low16Residue(c.saddr);
      var cleared := MemCmd(c.saddr - Low16(c.saddr), c.bbt);
      BreakdownStep(BreakdownState(false, cleared, s.breakTemp), input,
                    [MemCmd(cleared.saddr, c.bbt - s.breakTemp)], [])
  }

  /** `n` cycles without back-pressure, with everything issued. */
  function BreakdownRun(s: BreakdownState, input: seq<MemCmd>, n: nat): (r: BreakdownStep)
    requires Inv(s)
    ensures Inv(r.state)
    decreases n
  {
    if n == 0 then BreakdownStep(s, input, [], [])
    else
      var r := BreakdownNext(s, input, false);
      var r' := BreakdownRun(r.state, r.rest, n - 1);
      BreakdownStep(r'.state, r'.rest, r.out + r'.out, r.marker + r'.marker)
  }

  /**
   * From idle, one input command is consumed and issued as Split(c) in one
   * cycle, or two when it crosses the buffer end; one marker records which,
   * and the stage is idle again.
   */
  lemma BreakdownIssuesSplit(s: BreakdownState, c: MemCmd, rest: seq<MemCmd>)
    requires Inv(s) && !s.splitting
    ensures var r := BreakdownRun(s, [c] + rest, if Crosses(c) then 2 else 1);
            r.out == Split(c) && r.marker == [Crosses(c)] && r.rest == rest && !r.state.splitting
  {
    var input := [c] + rest;
    assert input[0] == c && input[1..] == rest;
    if Crosses(c) {
      BreakTempIsRoomLeft(c);
    }
  }

  /** Back-pressure stalls the stage without consuming or issuing anything. */
  lemma FullOutputStalls(s: BreakdownState, input: seq<MemCmd>)
    requires Inv(s)
    ensures BreakdownNext(s, input, true) == BreakdownStep(s, input, [], [])
  {
  }

  class Breakdown {
    var splitting: bool
    var tempCmd: MemCmd
    var breakTemp: u16

    function State(): BreakdownState
      reads this
    {
      BreakdownState(splitting, tempCmd, breakTemp)
    }

    predicate Valid()
      reads this
    {
      Inv(State())
    }

    constructor ()
      ensures State() == InitialBreakdown && Valid()
    {
      splitting, tempCmd, breakTemp := false, MemCmd(0, 0), 0;
    }

    /** One cycle: returns the commands left, the commands issued and the marker written. */
    method Step(input: seq<MemCmd>, outFull: bool) returns (rest: seq<MemCmd>, out: seq<MemCmd>, marker: seq<bool>)
      requires Valid()
      modifies this
      ensures Valid()
      ensures BreakdownStep(State(), rest, out, marker) == BreakdownNext(old(State()), input, outFull)
    {
      rest, out, marker := input, [], [];
      if !splitting {
        if input != [] && !outFull {
          tempCmd := input[0];
          rest := input[1..];
          var cmd := tempCmd;
          if Low16(tempCmd.saddr) + tempCmd.bbt > 0x1_0000 {
            BreakTempIsRoomLeft(tempCmd);
            breakTemp := Wrap16(0x1_0000 - tempCmd.saddr);
            cmd := MemCmd(tempCmd.saddr, breakTemp);
            splitting := true;
          }
          out := [cmd];
          marker := [splitting];
        }
      } else if !outFull {
        Low16Residue(tempCmd.saddr);
        tempCmd := tempCmd.(saddr := tempCmd.saddr - Low16(tempCmd.saddr));
        out := [MemCmd(tempCmd.saddr, tempCmd.bbt - breakTemp)];
        splitting := false;
      }
    }
  }
}
