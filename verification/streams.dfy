/**
 * Byte streams carried as sequences of words: the bytes a sequence of
 * words carries, and the shape of one frame (every word but the last
 * full, the end-of-frame flag on the last word only).
 */
module Streams {
  import opened TxTypes

  /** An 8-byte stream word, the width the segment stitcher is written for. */
  type Word8 = w: Word | Sized(w, 8) witness Word([0, 0, 0, 0, 0, 0, 0, 0], [false, false, false, false, false, false, false, false], false)

  /** A 64-byte stream word, the width of the header builders, the checksum engine and the IP stitcher. */
  type Word64 = w: Word | Sized(w, 64) witness Word(seq(64, i => 0), seq(64, i => false), false)

  /** Every word has at least as many data bytes as keep flags. */
  predicate Keyed(ws: seq<Word>)
  {
    forall k :: 0 <= k < |ws| ==> |ws[k].keep| <= |ws[k].data|
  }

  /** The bytes a sequence of words carries: the valid bytes of each word, in order. */
  function Bytes(ws: seq<Word>): (b: seq<byte>)
    requires Keyed(ws)
  {
    if ws == [] then [] else Valid(ws[0]) + Bytes(ws[1..])
  }

  lemma {:induction false} BytesAppend(a: seq<Word>, b: seq<Word>)
    requires Keyed(a) && Keyed(b)
    ensures Keyed(a + b)
    ensures Bytes(a + b) == Bytes(a) + Bytes(b)
    decreases |a|
  {
    if a != [] {
      assert (a + b)[0] == a[0] && (a + b)[1..] == a[1..] + b;
      BytesAppend(a[1..], b);
    } else {
      assert a + b == b;
    }
  }

  /** Bytes of a word in front of others. */
  lemma BytesCons(w: Word, ws: seq<Word>)
    requires |w.keep| <= |w.data| && Keyed(ws)
    ensures Keyed([w] + ws) && Bytes([w] + ws) == Valid(w) + Bytes(ws)
  {
    HeadTail([w], ws);
  }

  /** Bytes of a single word. */
  lemma BytesOne(w: Word)
    requires |w.keep| <= |w.data|
    ensures Keyed([w]) && Bytes([w]) == Valid(w)
  {
    assert [w][1..] == [];
  }

  /** A word whose keep mask is the first n flags carries its first n bytes. */
  lemma ValidOfLenToKeep(d: seq<byte>, n: nat, last: bool)
    requires n <= |d|
    ensures Valid(Word(d, LenToKeep(n, |d|), last)) == d[..n]
  {
    KeepToLenOfLenToKeep(n, |d|);
  }

  /** All keep flags of a word set. */
  predicate Full(w: Word)
  {
    forall i :: 0 <= i < |w.keep| ==> w.keep[i]
  }

  /** A full word carries all its bytes. */
  lemma FullCarriesAll(w: Word)
    requires |w.keep| == |w.data| && Full(w)
    ensures KeepToLen(w.keep) == |w.keep| && Valid(w) == w.data
  {
  }

  /** A word that is not full carries fewer bytes than it has flags. */
  lemma NotFullIsShort(w: Word)
    requires !Full(w)
    ensures KeepToLen(w.keep) < |w.keep|
  {
    var i :| 0 <= i < |w.keep| && !w.keep[i];
  }

  /**
   * One frame as the payload store returns it: every word full and not
   * marked last, except the final word, which is marked last and carries
   * between one and all of its bytes as a prefix.
   */
  predicate Frame(ws: seq<Word>)
  {
    && |ws| >= 1
    && (forall k :: 0 <= k < |ws| ==> PrefixKeep(ws[k].keep) && |ws[k].keep| == |ws[k].data|)
    && (forall k :: 0 <= k < |ws| - 1 ==> Full(ws[k]) && !ws[k].last)
    && ws[|ws| - 1].last && KeepToLen(ws[|ws| - 1].keep) >= 1
  }

  /**
   * A frame as a stage writes it: every word but the final one full and
   * not marked last, the final one marked last (possibly carrying nothing).
   */
  predicate Packed(ws: seq<Word>)
  {
    && |ws| >= 1
    && (forall k :: 0 <= k < |ws| - 1 ==> Full(ws[k]) && |ws[k].keep| == |ws[k].data| && !ws[k].last)
    && |ws[|ws| - 1].keep| <= |ws[|ws| - 1].data| && ws[|ws| - 1].last
  }

  lemma FrameKeyed(ws: seq<Word>)
    requires Frame(ws)
    ensures Keyed(ws)
  {
  }

  lemma PackedKeyed(ws: seq<Word>)
    requires Packed(ws)
    ensures Keyed(ws)
  {
  }

  /** A frame's final word on its own is a frame. */
  lemma FrameLast(ws: seq<Word>)
    requires Frame(ws)
    ensures Frame([ws[|ws| - 1]])
  {
  }

  /** A frame's words after the first still form a frame. */
  lemma FrameTail(ws: seq<Word>)
    requires Frame(ws) && |ws| >= 2
    ensures Frame(ws[1..])
  {
  }

  /** A full, unmarked word in front of a packed frame leaves it packed. */
  lemma PackedCons(w: Word, ws: seq<Word>)
    requires Full(w) && |w.keep| == |w.data| && !w.last && Packed(ws)
    ensures Packed([w] + ws)
  {
    var r := [w] + ws;
    forall k | 0 <= k < |r| - 1
      ensures Full(r[k]) && |r[k].keep| == |r[k].data| && !r[k].last
    {
      if k > 0 {
        assert r[k] == ws[k - 1];
      }
    }
  }
}
