/**
 * The slicing done by `printLog`: a message is emitted in slices of at most
 * MAX_LEN characters, every slice after the first is re-prefixed with the
 * left border, and the whole is bracketed by the top and bottom borders.
 */
module Chunker {
  import opened LogConfig

  /** The raw slices `printLog` cuts: full MAX_LEN slices, then the
      remainder, which is empty when the length is a positive multiple of
      MAX_LEN. A message shorter than MAX_LEN is one slice. */
  function Slices(msg: string): (r: seq<string>)
    ensures |r| >= 1
    decreases |msg|
  {
    if |msg| < MAX_LEN then [msg] else [msg[..MAX_LEN]] + Slices(msg[MAX_LEN..])
  }

  /** One slice per full MAX_LEN block, plus the remainder: the
      `countOfSub = len / MAX_LEN` of `printLog`, plus one. */
  lemma {:induction false} SlicesCount(msg: string)
    ensures |Slices(msg)| == |msg| / MAX_LEN + 1
    decreases |msg|
  {
    if |msg| >= MAX_LEN {
      SlicesCount(msg[MAX_LEN..]);
    }
  }

  function WrapPrefix(border: bool): string {
    if border then LEFT_BORDER else ""
  }

  /** The slices as printed: the first as it is, the others after the prefix. */
  function Rewrap(border: bool, slices: seq<string>): (r: seq<string>)
    ensures |r| == |slices|
  {
    seq(|slices|, k requires 0 <= k < |slices| =>
      if k == 0 then slices[0] else WrapPrefix(border) + slices[k])
  }

  /** Every string `printLog` passes to `print`, in order. */
  function Segments(border: bool, msg: string): seq<string> {
    if border then [TOP_BORDER] + Rewrap(border, Slices(msg)) + [BOTTOM_BORDER]
    else Rewrap(border, Slices(msg))
  }

  /** A message that yields several slices starts with a full slice. */
  lemma SliceFirst(rest: string)
    requires |Slices(rest)| >= 2
    ensures |rest| >= MAX_LEN && Slices(rest)[0] == rest[..MAX_LEN]
    ensures Slices(rest)[1..] == Slices(rest[MAX_LEN..])
  {
  }

  /** A message that yields one slice is that slice. */
  lemma SliceOnly(rest: string)
    requires |Slices(rest)| == 1
    ensures |rest| < MAX_LEN && Slices(rest) == [rest]
  {
  }

  lemma RewrapAt(border: bool, slices: seq<string>, k: nat)
    requires k < |slices|
    ensures Rewrap(border, slices)[k] == if k == 0 then slices[0] else WrapPrefix(border) + slices[k]
  {
  }

  /** The slices after the first, each behind the prefix. */
  function Wrapped(border: bool, ss: seq<string>): seq<string>
    decreases |ss|
  {
    if ss == [] then [] else [WrapPrefix(border) + ss[0]] + Wrapped(border, ss[1..])
  }

  lemma {:induction false} WrappedAt(border: bool, ss: seq<string>)
    ensures |Wrapped(border, ss)| == |ss|
    ensures forall k :: 0 <= k < |ss| ==> Wrapped(border, ss)[k] == WrapPrefix(border) + ss[k]
    decreases |ss|
  {
    if ss != [] {
      WrappedAt(border, ss[1..]);
    }
  }

  /** The printed slices are the first slice and then the wrapped rest. */
  lemma RewrapSplit(border: bool, slices: seq<string>)
    requires |slices| >= 1
    ensures Rewrap(border, slices) == [slices[0]] + Wrapped(border, slices[1..])
  {
    WrappedAt(border, slices[1..]);
    var r, w := Rewrap(border, slices), [slices[0]] + Wrapped(border, slices[1..]);
    forall k | 0 <= k < |slices|
      ensures r[k] == w[k]
    {
      if k > 0 {
        assert w[k] == Wrapped(border, slices[1..])[k - 1];
      }
    }
  }

  /** One turn of the loop of `printLog`: a remainder that still yields
      two or more slices prints its next full block behind the prefix. */
  lemma WrappedStep(border: bool, rest: string)
    requires |Slices(rest)| >= 2
    ensures |rest| >= MAX_LEN
    ensures |Slices(rest[MAX_LEN..])| == |Slices(rest)| - 1
    ensures Wrapped(border, Slices(rest)) ==
      [WrapPrefix(border) + rest[..MAX_LEN]] + Wrapped(border, Slices(rest[MAX_LEN..]))
  {
    SliceFirst(rest);
  }

  /** The last print of `printLog`: a remainder that yields one slice is
      printed whole behind the prefix. */
  lemma WrappedEnd(border: bool, rest: string)
    requires |Slices(rest)| == 1
    ensures Wrapped(border, Slices(rest)) == [WrapPrefix(border) + rest]
  {
    SliceOnly(rest);
    assert [rest][1..] == [];
  }

  lemma SegmentsFramed(border: bool, msg: string)
    ensures Segments(border, msg) ==
      (if border then [TOP_BORDER] else []) + Rewrap(border, Slices(msg)) + (if border then [BOTTOM_BORDER] else [])
  {
    var r := Rewrap(border, Slices(msg));
    if !border {
      assert [] + r + [] == r;
    }
  }

  /** A reader's view: drop the wrap prefix from every segment after the first. */
  function StripWrap(border: bool, segs: seq<string>): (r: seq<string>)
    ensures |r| == |segs|
  {
    seq(|segs|, k requires 0 <= k < |segs| =>
      if k > 0 && border && |segs[k]| >= |LEFT_BORDER| && segs[k][..|LEFT_BORDER|] == LEFT_BORDER
      then segs[k][|LEFT_BORDER|..] else segs[k])
  }

  function Concat(ss: seq<string>): string {
    if ss == [] then "" else ss[0] + Concat(ss[1..])
  }

  /** Slice k covers characters k * MAX_LEN up to the next multiple or the end. */
  lemma {:induction false} SliceAt(msg: string, k: nat)
    requires k < |Slices(msg)|
    ensures k * MAX_LEN <= |msg|
    ensures Slices(msg)[k] ==
      msg[k * MAX_LEN .. if k < |msg| / MAX_LEN then (k + 1) * MAX_LEN else |msg|]
    decreases |msg|
  {
    SlicesCount(msg);
    if |msg| >= MAX_LEN && k > 0 {
      var rest := msg[MAX_LEN..];
      SlicesCount(rest);
      assert |rest| / MAX_LEN == |msg| / MAX_LEN - 1;
      assert Slices(msg)[1..] == Slices(rest);
      SliceAt(rest, k - 1);
      assert Slices(msg)[k] == Slices(rest)[k - 1];
      var lo := (k - 1) * MAX_LEN;
      var hi := if k - 1 < |rest| / MAX_LEN then k * MAX_LEN else |rest|;
      assert lo + MAX_LEN == k * MAX_LEN;
      assert hi + MAX_LEN == if k < |msg| / MAX_LEN then (k + 1) * MAX_LEN else |msg|;
      assert rest[lo..hi] == msg[lo + MAX_LEN..hi + MAX_LEN];
    }
  }

  /** No raw slice is longer than MAX_LEN. */
  lemma {:induction false} SlicesBounded(msg: string)
    ensures forall k :: 0 <= k < |Slices(msg)| ==> |Slices(msg)[k]| <= MAX_LEN
    decreases |msg|
  {
    if |msg| >= MAX_LEN {
      SlicesBounded(msg[MAX_LEN..]);
    }
  }

  /** The raw slices concatenate to the message. */
  lemma {:induction false} SlicesConcat(msg: string)
    ensures Concat(Slices(msg)) == msg
    decreases |msg|
  {
    if |msg| >= MAX_LEN {
      SlicesConcat(msg[MAX_LEN..]);
      assert Slices(msg)[1..] == Slices(msg[MAX_LEN..]);
      assert msg == msg[..MAX_LEN] + msg[MAX_LEN..];
    }
  }

  /** Stripping undoes the re-prefixing. */
  lemma StripRewrap(border: bool, slices: seq<string>)
    ensures StripWrap(border, Rewrap(border, slices)) == slices
  {
    var r := Rewrap(border, slices);
    forall k | 0 <= k < |slices|
      ensures StripWrap(border, r)[k] == slices[k]
    {
      if k > 0 && border {
        assert WrapPrefix(border) == LEFT_BORDER;
        assert r[k] == WrapPrefix(border) + slices[k];
        assert r[k][..|LEFT_BORDER|] == LEFT_BORDER;
        assert r[k][|LEFT_BORDER|..] == slices[k];
        assert StripWrap(border, r)[k] == r[k][|LEFT_BORDER|..];
      } else if k > 0 {
        assert r[k] == WrapPrefix(border) + slices[k] && WrapPrefix(border) == "";
        assert StripWrap(border, r)[k] == r[k];
      } else {
        assert r[k] == slices[k];
        assert StripWrap(border, r)[k] == r[k];
      }
    }
  }

  /** The printed slices, with the wrap prefix removed from all but the first,
      reproduce the message exactly and in order. */
  lemma ChunkRoundTrip(border: bool, msg: string)
    ensures Concat(StripWrap(border, Rewrap(border, Slices(msg)))) == msg
  {
    StripRewrap(border, Slices(msg));
    SlicesConcat(msg);
  }

  /** A message shorter than MAX_LEN is printed as one unmodified segment. */
  lemma ShortMessageSingle(border: bool, msg: string)
    requires |msg| < MAX_LEN
    ensures Rewrap(border, Slices(msg)) == [msg]
  {
    assert Rewrap(border, [msg])[0] == msg;
  }

  /** A message whose length is a positive multiple of MAX_LEN ends with an
      empty slice, printed as the bare left border with the border on and as
      the empty string with it off. */
  lemma ExactMultipleEndsEmpty(msg: string)
    requires |msg| > 0 && |msg| % MAX_LEN == 0
    ensures Slices(msg)[|Slices(msg)| - 1] == ""
  {
    SlicesCount(msg);
    SliceAt(msg, |msg| / MAX_LEN);
  }

  /** Every printed slice is within MAX_LEN plus the width of the prefix. */
  lemma PrintedBounded(border: bool, msg: string)
    ensures forall k :: 0 <= k < |Rewrap(border, Slices(msg))| ==>
      |Rewrap(border, Slices(msg))[k]| <= MAX_LEN + |LEFT_BORDER|
  {
    SlicesBounded(msg);
    var r := Rewrap(border, Slices(msg));
    forall k | 0 <= k < |r| ensures |r[k]| <= MAX_LEN + |LEFT_BORDER| {
      assert r[k] == if k == 0 then Slices(msg)[0] else WrapPrefix(border) + Slices(msg)[k];
    }
  }

  /** With the border on the first emission is the top border and the last the
      bottom border; with it off the segments are the printed slices only. */
  lemma SegmentsBracketed(border: bool, msg: string)
    ensures var s := Segments(border, msg);
      if border then |s| >= 3 && s[0] == TOP_BORDER && s[|s| - 1] == BOTTOM_BORDER
        && s[1..|s| - 1] == Rewrap(border, Slices(msg))
      else s == Rewrap(border, Slices(msg))
  {
    var r := Rewrap(border, Slices(msg));
    assert |r| >= 1;
    if border {
      var s := [TOP_BORDER] + r + [BOTTOM_BORDER];
      assert s[1..|s| - 1] == r;
    }
  }
}
