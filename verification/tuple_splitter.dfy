/**
 * The tuple splitter (tupleSplitter): for every segment the event
 * dispatcher sends a selector saying where the segment's four-tuple comes
 * from: the session lookup's reply (true) or the dispatcher's own shortcut
 * channel (false). The splitter reads the selector, then exactly one tuple
 * from the selected channel, and forwards it to both header builders: the
 * address pair to the IP header builder, the whole tuple to the TCP one.
 */
module TupleSplitter {
  import opened TxTypes

  /** The stage's statics: waiting for a selector, and the last selector read. */
  datatype SplitterState = SplitterState(getMeta: bool, isLookUp: bool)

  const InitialSplitter := SplitterState(true, false)

  /** Input channels: selectors, lookup replies, shortcut tuples. */
  datatype SplitterInputs = SplitterInputs(sels: seq<bool>, lookups: seq<FourTuple>, shortcuts: seq<FourTuple>)

  /** The state after a step, the inputs left, and what was written to the two builders. */
  datatype SplitterStep = SplitterStep(state: SplitterState, rest: SplitterInputs,
                                       ip: seq<TwoTuple>, tcp: seq<FourTuple>)

  /** One cycle of the splitter. */
  function SplitterNext(s: SplitterState, inp: SplitterInputs): (r: SplitterStep)
  {
    if s.getMeta then
      if inp.sels == [] then SplitterStep(s, inp, [], [])
      else SplitterStep(SplitterState(false, inp.sels[0]), inp.(sels := inp.sels[1..]), [], [])
    else if inp.lookups != [] && s.isLookUp then
      var t := inp.lookups[0];
      SplitterStep(s.(getMeta := true), inp.(lookups := inp.lookups[1..]), [AddressPair(t)], [t])
    else if inp.shortcuts != [] && !s.isLookUp then
      var t := inp.shortcuts[0];
      SplitterStep(s.(getMeta := true), inp.(shortcuts := inp.shortcuts[1..]), [AddressPair(t)], [t])
    else
      SplitterStep(s, inp, [], [])
  }

  /** `n` cycles, with everything written concatenated. */
  function SplitterRun(s: SplitterState, inp: SplitterInputs, n: nat): SplitterStep
    decreases n
  {
    if n == 0 then SplitterStep(s, inp, [], [])
    else
      var r := SplitterNext(s, inp);
      var r' := SplitterRun(r.state, r.rest, n - 1);
      SplitterStep(r'.state, r'.rest, r.ip + r'.ip, r.tcp + r'.tcp)
  }

  /** Number of entries of `sels` equal to `b`. */
  function Count(sels: seq<bool>, b: bool): (n: nat)
    ensures n <= |sels|
  {
    if sels == [] then 0 else (if sels[0] == b then 1 else 0) + Count(sels[1..], b)
  }

  /** The tuples the selectors call for, each taken in turn from the channel its selector names. */
  function Route(sels: seq<bool>, lookups: seq<FourTuple>, shortcuts: seq<FourTuple>): seq<FourTuple>
    requires Count(sels, true) <= |lookups| && Count(sels, false) <= |shortcuts|
  {
    if sels == [] then []
    else if sels[0] then [lookups[0]] + Route(sels[1..], lookups[1..], shortcuts)
    else [shortcuts[0]] + Route(sels[1..], lookups, shortcuts[1..])
  }

  /** Address pairs of a sequence of tuples. */
  function Pairs(ts: seq<FourTuple>): (ps: seq<TwoTuple>)
    ensures |ps| == |ts| && forall k :: 0 <= k < |ts| ==> ps[k] == AddressPair(ts[k])
  {
    seq(|ts|, k requires 0 <= k < |ts| => AddressPair(ts[k]))
  }

  /**
   * The k-th routed tuple is the next unread tuple of the channel the k-th
   * selector names: the one after as many as earlier selectors took from it.
   */
  lemma {:induction false} RouteSelects(sels: seq<bool>, lookups: seq<FourTuple>, shortcuts: seq<FourTuple>, k: nat)
    requires Count(sels, true) <= |lookups| && Count(sels, false) <= |shortcuts|
    requires k < |sels|
    ensures |Route(sels, lookups, shortcuts)| == |sels|
    ensures Count(sels[..k], sels[k]) < (if sels[k] then |lookups| else |shortcuts|)
    ensures Route(sels, lookups, shortcuts)[k] ==
              if sels[k] then lookups[Count(sels[..k], true)] else shortcuts[Count(sels[..k], false)]
    decreases k
  {
    RouteLength(sels, lookups, shortcuts);
    if k == 0 {
      assert sels[..0] == [];
      if sels[0] {
        assert Count(sels, true) >= 1;
      } else {
        assert Count(sels, false) >= 1;
      }
    } else {
      var t := sels[1..];
      assert sels[..k][1..] == t[..k - 1];
      assert sels[k] == t[k - 1];
      if sels[0] {
        RouteSelects(t, lookups[1..], shortcuts, k - 1);
      } else {
        RouteSelects(t, lookups, shortcuts[1..], k - 1);
      }
    }
  }

  lemma {:induction false} RouteLength(sels: seq<bool>, lookups: seq<FourTuple>, shortcuts: seq<FourTuple>)
    requires Count(sels, true) <= |lookups| && Count(sels, false) <= |shortcuts|
    ensures |Route(sels, lookups, shortcuts)| == |sels|
    decreases |sels|
  {
    if sels != [] {
      if sels[0] {
        RouteLength(sels[1..], lookups[1..], shortcuts);
      } else {
        RouteLength(sels[1..], lookups, shortcuts[1..]);
      }
    }
  }

  /** When the selected channel is empty the splitter waits without changing anything. */
  lemma WaitsForSelectedTuple(s: SplitterState, inp: SplitterInputs)
    requires !s.getMeta
    requires if s.isLookUp then inp.lookups == [] else inp.shortcuts == []
    ensures SplitterNext(s, inp) == SplitterStep(s, inp, [], [])
  {
  }

  /** A tuple is never taken from the channel the selector did not name. */
  lemma OnlySelectedChannelIsRead(s: SplitterState, inp: SplitterInputs)
    requires !s.getMeta
    ensures var r := SplitterNext(s, inp);
            (s.isLookUp ==> r.rest.shortcuts == inp.shortcuts) &&
            (!s.isLookUp ==> r.rest.lookups == inp.lookups) &&
            r.rest.sels == inp.sels
  {
  }

  /** Running n cycles is a selector cycle, a tuple cycle and n - 2 more. */
  lemma RunUnfoldsTwice(s: SplitterState, inp: SplitterInputs, n: nat, r1: SplitterStep, r2: SplitterStep, r: SplitterStep)
    requires n >= 2 && r1 == SplitterNext(s, inp) && r2 == SplitterNext(r1.state, r1.rest)
    requires r == SplitterRun(r2.state, r2.rest, n - 2)
    ensures SplitterRun(s, inp, n) == SplitterStep(r.state, r.rest, r1.ip + r2.ip + r.ip, r1.tcp + r2.tcp + r.tcp)
  {
  }

  /** A selector, then the tuple it names, in two cycles. */
  lemma SelectorThenTuple(s: SplitterState, inp: SplitterInputs, r1: SplitterStep, r2: SplitterStep)
    requires s.getMeta && inp.sels != []
    requires if inp.sels[0] then inp.lookups != [] else inp.shortcuts != []
    requires r1 == SplitterNext(s, inp) && r2 == SplitterNext(r1.state, r1.rest)
    ensures r2.state.getMeta
    ensures var t := if inp.sels[0] then inp.lookups[0] else inp.shortcuts[0];
            r1.tcp + r2.tcp == [t] && r1.ip + r2.ip == [AddressPair(t)]
    ensures r2.rest == if inp.sels[0] then SplitterInputs(inp.sels[1..], inp.lookups[1..], inp.shortcuts)
                       else SplitterInputs(inp.sels[1..], inp.lookups, inp.shortcuts[1..])
  {
  }

  /** What is left of the channels after the first selector and the rest of them. */
  lemma ChannelsLeft(inp: SplitterInputs, inp': SplitterInputs)
    requires inp.sels != []
    requires Count(inp.sels, true) <= |inp.lookups| && Count(inp.sels, false) <= |inp.shortcuts|
    requires inp' == if inp.sels[0] then SplitterInputs(inp.sels[1..], inp.lookups[1..], inp.shortcuts)
                     else SplitterInputs(inp.sels[1..], inp.lookups, inp.shortcuts[1..])
    ensures Count(inp'.sels, true) <= |inp'.lookups| && Count(inp'.sels, false) <= |inp'.shortcuts|
    ensures inp'.lookups[Count(inp'.sels, true)..] == inp.lookups[Count(inp.sels, true)..]
    ensures inp'.shortcuts[Count(inp'.sels, false)..] == inp.shortcuts[Count(inp.sels, false)..]
    ensures Route(inp.sels, inp.lookups, inp.shortcuts) ==
              [if inp.sels[0] then inp.lookups[0] else inp.shortcuts[0]] + Route(inp'.sels, inp'.lookups, inp'.shortcuts)
  {
  }

  /** The address pairs of one tuple in front of others. */
  lemma PairsCons(a: seq<FourTuple>, b: seq<FourTuple>)
    requires |a| == 1
    ensures Pairs(a + b) == [AddressPair(a[0])] + Pairs(b)
  {
  }

  /**
   * Given the selectors and enough tuples on both channels, two cycles per
   * selector forward exactly the routed tuples, in order, to the TCP
   * builder and their address pairs to the IP builder, alternating
   * selector and tuple, and leave the splitter waiting for a selector.
   */
  lemma {:induction false} SplitterForwardsRoute(s: SplitterState, inp: SplitterInputs, r: SplitterStep)
    requires s.getMeta
    requires Count(inp.sels, true) <= |inp.lookups| && Count(inp.sels, false) <= |inp.shortcuts|
    requires r == SplitterRun(s, inp, 2 * |inp.sels|)
    ensures r.tcp == Route(inp.sels, inp.lookups, inp.shortcuts)
    ensures r.ip == Pairs(r.tcp)
    ensures r.state.getMeta
    ensures r.rest == SplitterInputs([], inp.lookups[Count(inp.sels, true)..],
                                     inp.shortcuts[Count(inp.sels, false)..])
    decreases |inp.sels|
  {
    if inp.sels != [] {
      var n := 2 * |inp.sels|;
      var r1 := SplitterNext(s, inp);
      var r2 := SplitterNext(r1.state, r1.rest);
      SelectorThenTuple(s, inp, r1, r2);
      ChannelsLeft(inp, r2.rest);
      var rest := SplitterRun(r2.state, r2.rest, n - 2);
      SplitterForwardsRoute(r2.state, r2.rest, rest);
      RunUnfoldsTwice(s, inp, n, r1, r2, rest);
      assert r.ip == (r1.ip + r2.ip) + rest.ip;
      assert r.tcp == (r1.tcp + r2.tcp) + rest.tcp;
      PairsCons(r1.tcp + r2.tcp, rest.tcp);
    }
  }

  class Splitter {
    var getMeta: bool
    var isLookUp: bool

    function State(): SplitterState
      reads this
    {
      SplitterState(getMeta, isLookUp)
    }

    constructor ()
      ensures State() == InitialSplitter
    {
      getMeta, isLookUp := true, false;
    }

    /** One cycle: returns the inputs left and the pair and tuple written. */
    method Step(inp: SplitterInputs) returns (rest: SplitterInputs, ip: seq<TwoTuple>, tcp: seq<FourTuple>)
      modifies this
      ensures SplitterStep(State(), rest, ip, tcp) == SplitterNext(old(State()), inp)
    {
      rest, ip, tcp := inp, [], [];
      if getMeta {
        if inp.sels != [] {
          isLookUp := inp.sels[0];
          rest := inp.(sels := inp.sels[1..]);
          getMeta := false;
        }
      } else if inp.lookups != [] && isLookUp {
        var t := inp.lookups[0];
        rest := inp.(lookups := inp.lookups[1..]);
        ip, tcp := [TwoTuple(t.srcIp, t.dstIp)], [t];
        getMeta := true;
      } else if inp.shortcuts != [] && !isLookUp {
        var t := inp.shortcuts[0];
        rest := inp.(shortcuts := inp.shortcuts[1..]);
        ip, tcp := [TwoTuple(t.srcIp, t.dstIp)], [t];
        getMeta := true;
      }
    }
  }
}
