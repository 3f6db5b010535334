// Reading a prompt back into its turns. The chat encoders put a marker id
// (a special token) in front of each piece of encoded text; as long as the
// tokenizer never yields a marker for ordinary text, cutting the ids before
// every marker gives back exactly the pieces that were appended.
module Framing {
  import opened Wrappers

  /** No id of `xs` is a marker. */
  predicate MarkFree(xs: seq<int>, marks: set<int>)
  {
    forall i :: 0 <= i < |xs| ==> xs[i] !in marks
  }

  /** A marker followed by marker-free ids. */
  predicate IsSegment(seg: seq<int>, marks: set<int>)
  {
    |seg| > 0 && seg[0] in marks && MarkFree(seg[1..], marks)
  }

  function Concat(segs: seq<seq<int>>): seq<int>
  {
    if segs == [] then [] else Concat(segs[..|segs| - 1]) + segs[|segs| - 1]
  }

  lemma {:induction false} ConcatCons(first: seq<int>, segs: seq<seq<int>>)
    ensures Concat([first] + segs) == first + Concat(segs)
    decreases |segs|
  {
    if segs != [] {
      var init := segs[..|segs| - 1];
      assert ([first] + segs)[..|segs|] == [first] + init;
      ConcatCons(first, init);
    }
  }

  lemma {:induction false} ConcatAppend(xs: seq<seq<int>>, ys: seq<seq<int>>)
    ensures Concat(xs + ys) == Concat(xs) + Concat(ys)
    decreases |ys|
  {
    if ys == [] {
      assert xs + ys == xs;
    } else {
      var init := ys[..|ys| - 1];
      assert (xs + ys)[..|xs + ys| - 1] == xs + init;
      ConcatAppend(xs, init);
    }
  }

  /** The index of the last marker in `ids`. */
  function LastMark(ids: seq<int>, marks: set<int>): (r: Option<nat>)
    ensures r.Some? ==> r.value < |ids| && ids[r.value] in marks && MarkFree(ids[r.value + 1..], marks)
    ensures r.None? ==> MarkFree(ids, marks)
  {
    if ids == [] then None
    else if ids[|ids| - 1] in marks then Some(|ids| - 1)
    else
      var r := LastMark(ids[..|ids| - 1], marks);
      assert r.Some? ==> ids[r.value + 1..] == ids[..|ids| - 1][r.value + 1..] + [ids[|ids| - 1]];
      r
  }

  /** `ids` cut before every marker; a marker-free start is a piece of its own. */
  function Segments(ids: seq<int>, marks: set<int>): seq<seq<int>>
    decreases |ids|
  {
    match LastMark(ids, marks)
    case None => if ids == [] then [] else [ids]
    case Some(j) => Segments(ids[..j], marks) + [ids[j..]]
  }

  lemma {:induction false} LastMarkOfSegment(prefix: seq<int>, seg: seq<int>, marks: set<int>)
    requires IsSegment(seg, marks)
    ensures LastMark(prefix + seg, marks) == Some(|prefix|)
    decreases |seg|
  {
    var ids := prefix + seg;
    if |seg| > 1 {
      var shorter := seg[..|seg| - 1];
      var tail := seg[1..];
      assert seg[|seg| - 1] == tail[|tail| - 1];
      assert ids[|ids| - 1] !in marks;
      assert shorter[1..] == tail[..|tail| - 1];
      assert IsSegment(shorter, marks);
      LastMarkOfSegment(prefix, shorter, marks);
      assert ids[..|ids| - 1] == prefix + shorter;
    }
  }

  /** A segment appended after any ids is cut off as the last piece. */
  lemma SegmentsSnoc(before: seq<int>, last: seq<int>, marks: set<int>)
    requires IsSegment(last, marks)
    ensures Segments(before + last, marks) == Segments(before, marks) + [last]
  {
    LastMarkOfSegment(before, last, marks);
    assert (before + last)[..|before|] == before;
    assert (before + last)[|before|..] == last;
  }

  /** Cutting at the markers gives back the segments, after a marker-free start. */
  lemma {:induction false} SegmentsOfConcat(start: seq<int>, segs: seq<seq<int>>, marks: set<int>)
    requires MarkFree(start, marks)
    requires forall k :: 0 <= k < |segs| ==> IsSegment(segs[k], marks)
    ensures Segments(start + Concat(segs), marks) == (if start == [] then [] else [start]) + segs
    decreases |segs|
  {
    if segs == [] {
      assert start + Concat(segs) == start;
    } else {
      var init, last := segs[..|segs| - 1], segs[|segs| - 1];
      var before := start + Concat(init);
      SplitLast(start, segs, init, last, if start == [] then [] else [start]);
      SegmentsSnoc(before, last, marks);
      SegmentsOfConcat(start, init, marks);
    }
  }

  /** Where each segment of `Concat(segs)` begins, counting from `base`. */
  function Offsets(base: int, segs: seq<seq<int>>): (s: seq<int>)
    ensures |s| == |segs|
    ensures forall k :: 0 <= k < |segs| ==> base <= s[k] && s[k] + |segs[k]| <= base + |Concat(segs)|
  {
    if segs == [] then []
    else Offsets(base, segs[..|segs| - 1]) + [base + |Concat(segs[..|segs| - 1])|]
  }

  /**
   * After a start, the segments lie one after the other up to the end of
   * the ids, each at its offset.
   */
  lemma {:induction false} SegmentAt(start: seq<int>, segs: seq<seq<int>>, k: int)
    requires 0 <= k < |segs|
    ensures var s, ids := Offsets(|start|, segs), start + Concat(segs);
      && ids[s[k]..s[k] + |segs[k]|] == segs[k]
      && (k == 0 ==> s[k] == |start|)
      && (k > 0 ==> s[k] == s[k - 1] + |segs[k - 1]|)
      && (k == |segs| - 1 ==> s[k] + |segs[k]| == |ids|)
    decreases |segs|
  {
    var init, last := segs[..|segs| - 1], segs[|segs| - 1];
    var before := start + Concat(init);
    assert start + Concat(segs) == before + last;
    var s, si := Offsets(|start|, segs), Offsets(|start|, init);
    if k < |init| {
      SegmentAt(start, init, k);
      SliceOfPrefix(before, last, s[k], s[k] + |segs[k]|);
      if k == |init| - 1 {
        assert s[k + 1] == |before|;
      }
    } else {
      SliceOfSuffix(before, last);
      if k > 0 {
        SegmentAt(start, init, k - 1);
      }
    }
  }

  /**
   * When the start holds no special id and each segment holds one, first,
   * the special ids of the whole stand exactly at the segments' offsets.
   */
  lemma {:induction false} SpecialAtOffsets(start: seq<int>, segs: seq<seq<int>>, special: set<int>, i: int)
    requires MarkFree(start, special)
    requires forall k :: 0 <= k < |segs| ==> IsSegment(segs[k], special)
    requires 0 <= i < |start + Concat(segs)|
    ensures (start + Concat(segs))[i] in special <==> i in Offsets(|start|, segs)
    decreases |segs|
  {
    if segs == [] {
      assert start + Concat(segs) == start;
    } else {
      var init, last := segs[..|segs| - 1], segs[|segs| - 1];
      var before := start + Concat(init);
      assert start + Concat(segs) == before + last;
      assert Offsets(|start|, segs) == Offsets(|start|, init) + [|before|];
      if i < |before| {
        SpecialAtOffsets(start, init, special, i);
      } else {
        assert forall k :: 0 <= k < |init| ==> |init[k]| > 0;
        assert i !in Offsets(|start|, init);
        if i > |before| {
          assert last[i - |before|] == last[1..][i - |before| - 1];
        }
      }
    }
  }

  /** A slice inside the first part of a concatenation. */
  lemma SliceOfPrefix(xs: seq<int>, ys: seq<int>, lo: int, hi: int)
    requires 0 <= lo <= hi <= |xs|
    ensures (xs + ys)[lo..hi] == xs[lo..hi]
  {
  }

  /** The second part of a concatenation, as a slice. */
  lemma SliceOfSuffix(xs: seq<int>, ys: seq<int>)
    ensures (xs + ys)[|xs|..|xs| + |ys|] == ys
  {
  }

  lemma SplitLast(start: seq<int>, segs: seq<seq<int>>, init: seq<seq<int>>, last: seq<int>, pre: seq<seq<int>>)
    requires segs != [] && init == segs[..|segs| - 1] && last == segs[|segs| - 1]
    ensures start + Concat(segs) == (start + Concat(init)) + last
    ensures pre + segs == (pre + init) + [last]
  {
    assert segs == init + [last];
  }
}
