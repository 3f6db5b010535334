// The custom CPU kernels: row-wise matrix scale, dynamic-NTK rotary embedding
// and mixed-NTK rotary embedding. A tensor of extents ne0..ne3 is seen as
// ne1*ne2*ne3 rows of ne0 elements; the row (i3, i2, i1) has the flat index
// (i3*ne2 + i2)*ne1 + i1. The source tensor is a read-only sequence of rows,
// the destination an array that the kernels update in place.
module Kernels {
  import opened Floats
  import opened Partition
  import Ntk

  datatype GgmlType = F32 | F16 | OtherType

  /** Done, or stopped by GGML_ASSERT before writing anything. */
  datatype Status = Done | Aborted

  datatype Shape = Shape(ne0: nat, ne1: nat, ne2: nat, ne3: nat)
  {
    /** ggml_nrows. */
    function Rows(): nat { ne1 * ne2 * ne3 }

    function Flat(i3: nat, i2: nat, i1: nat): nat { (i3 * ne2 + i2) * ne1 + i1 }

    /** Coordinates i1 and i2 of a flat row. */
    function I1(r: nat): nat requires ne1 > 0 { r % ne1 }
    function I2(r: nat): nat requires ne1 > 0 && ne2 > 0 { (r / ne1) % ne2 }
  }

  /** The kernel and the side tensor it reads (scales, positions, frequencies). */
  datatype Kernel =
    | MatScale(scales: seq<real>)
    | DynamicRope(nDims: int, seqLength: int, freqBase: real, pos: seq<int>)
    | MixRope(nDims: int, invFreq: seq<real>, pos: seq<int>)

  /** What the type dispatch and the GGML_ASSERTs let through. */
  predicate Accepts(k: Kernel, typ: GgmlType, sh: Shape)
  {
    match k
    case MatScale(_) => typ == F32
    case DynamicRope(n, _, _, _) => typ != OtherType && n <= sh.ne0 && n % 2 == 0
    case MixRope(n, _, _) => typ != OtherType && n <= sh.ne0 && n % 2 == 0
  }

  /**
   * What the loops rely on without checking: every index they read exists,
   * the rotary kernels see rows of even length (their element pairs never
   * run past a row) and the dynamic kernel divides by a non-zero length.
   */
  predicate Fits(k: Kernel, sh: Shape)
  {
    match k
    case MatScale(scales) => |scales| >= sh.ne1
    case DynamicRope(_, seqLength, _, pos) => sh.ne0 % 2 == 0 && |pos| >= sh.ne2 && seqLength != 0
    case MixRope(_, invFreq, pos) => sh.ne0 % 2 == 0 && |pos| >= sh.ne2 && |invFreq| >= sh.ne0 / 2
  }

  // ----- element values -------------------------------------------------

  /** First component of a pair rotated by theta. */
  function Rot0(fl: FloatLib, x0: real, x1: real, theta: real): real
  {
    x0 * fl.cos(theta) - x1 * fl.sin(theta)
  }

  /** Second component of a pair rotated by theta. */
  function Rot1(fl: FloatLib, x0: real, x1: real, theta: real): real
  {
    x0 * fl.sin(theta) + x1 * fl.cos(theta)
  }

  /** x multiplied into 1.0 e times, as the running `inv_freq *= inv_freq_scale`. */
  function Power(x: real, e: nat): real
  {
    if e == 0 then 1.0 else Power(x, e - 1) * x
  }

  /** inv_freq_scale of the dynamic kernel for position p. */
  function DynamicFreqScale(fl: FloatLib, nDims: int, seqLength: int, freqBase: real, p: int): real
    requires seqLength != 0
  {
    var alpha := Ntk.NtkAlpha(p, seqLength) as real;
    var base := freqBase * fl.pow(alpha, fl.div(nDims as real, nDims as real - 2.0));
    fl.pow(base, fl.div(-2.0, nDims as real))
  }

  /** The angle of step `step` at position p. */
  function Theta(scale: real, p: int, step: nat): real
  {
    p as real * Power(scale, step)
  }

  /** Result of the fp32 dynamic kernel at element j of a row. */
  function DynamicElemF32(fl: FloatLib, n: int, scale: real, p: int, row: seq<real>, j: nat): real
    requires j < |row| && n <= |row| && n % 2 == 0
  {
    if 0 < n && j < n / 2 then Rot0(fl, row[j], row[j + n / 2], Theta(scale, p, j))
    else if 0 < n && j < n then Rot1(fl, row[j - n / 2], row[j], Theta(scale, p, j - n / 2))
    else row[j]
  }

  /**
   * Result of the fp16 dynamic kernel at element j, as the code is written:
   * step s rotates elements s and s+1 and stores them at s and s+1, so the
   * later step overwrites s+1, element n/2 keeps the second component of the
   * last step and elements n/2+1 .. n-1 are never written.
   */
  function DynamicElemF16(fl: FloatLib, n: int, scale: real, p: int, row: seq<real>, j: nat, oldv: real): real
    requires j < |row| && n <= |row| && n % 2 == 0
  {
    if 0 < n && j < n / 2 then fl.toHalf(Rot0(fl, row[j], row[j + 1], Theta(scale, p, j)))
    else if 0 < n && j == n / 2 then fl.toHalf(Rot1(fl, row[j - 1], row[j], Theta(scale, p, j - 1)))
    else if 0 < n && j < n then oldv
    else row[j]
  }

  /** Store in the destination's type: fp16 rounds, fp32 keeps the value. */
  function Store(fl: FloatLib, typ: GgmlType, v: real): real
  {
    if typ == F16 then fl.toHalf(v) else v
  }

  /** The angle of pair m at position p. */
  function MixTheta(invFreq: seq<real>, p: int, m: nat): real
    requires m < |invFreq|
  {
    p as real * invFreq[m]
  }

  /** Result of the mixed kernel at element j: adjacent pairs, angle p*invFreq[j/2]. */
  function MixElem(fl: FloatLib, typ: GgmlType, invFreq: seq<real>, p: int, row: seq<real>, j: nat): real
    requires j < |row| && |row| % 2 == 0 && |invFreq| >= |row| / 2
  {
    var m := j / 2;
    var theta := MixTheta(invFreq, p, m);
    Store(fl, typ, if j % 2 == 0 then Rot0(fl, row[2 * m], row[2 * m + 1], theta)
                   else Rot1(fl, row[2 * m], row[2 * m + 1], theta))
  }

  /** The value a kernel leaves at element j of flat row r. */
  function ElemOut(k: Kernel, typ: GgmlType, fl: FloatLib, sh: Shape, r: nat, row: seq<real>, j: nat, oldv: real): real
    requires Accepts(k, typ, sh) && Fits(k, sh)
    requires r < sh.Rows() && |row| == sh.ne0 && j < sh.ne0
  {
    assert sh.ne1 > 0 && sh.ne2 > 0;
    match k
    case MatScale(scales) => row[j] * scales[sh.I1(r)]
    case DynamicRope(n, seqLength, freqBase, pos) =>
      var p := pos[sh.I2(r)];
      var scale := DynamicFreqScale(fl, n, seqLength, freqBase, p);
      if typ == F32 then DynamicElemF32(fl, n, scale, p, row, j)
      else DynamicElemF16(fl, n, scale, p, row, j, oldv)
    case MixRope(_, invFreq, pos) => MixElem(fl, typ, invFreq, pos[sh.I2(r)], row, j)
  }

  // ----- one row ----------------------------------------------------------

  /** The inner loop of mat_scale_f32 for one row. */
  method ScaleRow(dst: array2<real>, r: nat, row: seq<real>, scale: real)
    requires r < dst.Length0 && |row| == dst.Length1
    modifies dst
    ensures forall r', j :: 0 <= r' < dst.Length0 && 0 <= j < dst.Length1 ==>
              dst[r', j] == if r' == r then row[j] * scale else old(dst[r', j])
  {
    for i0 := 0 to |row|
      invariant forall r', j :: 0 <= r' < dst.Length0 && 0 <= j < dst.Length1 ==>
                  dst[r', j] == if r' == r && j < i0 then row[j] * scale else old(dst[r', j])
    {
      dst[r, i0] := row[i0] * scale;
    }
  }

  /** Element j of the fp32 dynamic row has been written once the loop is at `ic`. */
  predicate DynamicWritten(n: int, ic: int, j: int)
  {
    if 0 < n && 0 <= j < n then 2 * (if j < n / 2 then j else j - n / 2) < ic else j < ic
  }

  /** Row r of dst holds `cur`, every other row its value in `orig`. */
  ghost predicate RowHolds(dst: array2<real>, r: nat, cur: seq<real>, orig: seq<seq<real>>)
    reads dst
  {
    && |cur| == dst.Length1 && |orig| == dst.Length0
    && (forall r' :: 0 <= r' < dst.Length0 ==> |orig[r']| == dst.Length1)
    && forall r', j :: 0 <= r' < dst.Length0 && 0 <= j < dst.Length1 ==>
         dst[r', j] == if r' == r then cur[j] else orig[r'][j]
  }

  /** The two stores of one pass of a rotary loop: element a, then element b of row r. */
  method WritePair(dst: array2<real>, r: nat, a: nat, va: real, b: nat, vb: real, ghost cur: seq<real>, ghost orig: seq<seq<real>>)
    requires r < dst.Length0 && a < dst.Length1 && b < dst.Length1 && a != b
    requires RowHolds(dst, r, cur, orig)
    modifies dst
    ensures RowHolds(dst, r, cur[a := va][b := vb], orig)
  {
    dst[r, a] := va;
    dst[r, b] := vb;
  }

  /**
   * Element j of a dynamic row with the fp32 kernel's half-offset pairing,
   * the rotated elements stored in the destination type.
   */
  function DynamicElemStored(fl: FloatLib, typ: GgmlType, n: int, scale: real, p: int, row: seq<real>, j: nat): real
    requires j < |row| && n <= |row| && n % 2 == 0
  {
    if j < n then Store(fl, typ, DynamicElemF32(fl, n, scale, p, row, j)) else DynamicElemF32(fl, n, scale, p, row, j)
  }

  /** That row once the loop is at `ic`, from the row `row0` it started with. */
  function DynamicProgress(fl: FloatLib, typ: GgmlType, n: int, scale: real, p: int, row: seq<real>, row0: seq<real>, ic: int): (s: seq<real>)
    requires n <= |row| && n % 2 == 0 && |row0| == |row|
    ensures |s| == |row|
    ensures forall j :: 0 <= j < |row| ==>
      s[j] == if DynamicWritten(n, ic, j) then DynamicElemStored(fl, typ, n, scale, p, row, j) else row0[j]
  {
    seq(|row|, j requires 0 <= j < |row| =>
      if DynamicWritten(n, ic, j) then DynamicElemStored(fl, typ, n, scale, p, row, j) else row0[j])
  }

  /** Which elements one pass of the half-offset loop adds to those written. */
  lemma WrittenStep(n: int, ic: int, len: int, j: int, a: int, b: int)
    requires 0 <= ic < len && ic % 2 == 0 && n <= len && n % 2 == 0 && len % 2 == 0 && 0 <= j < len
    requires a == (if ic < n then ic / 2 else ic) && b == (if ic < n then ic / 2 + n / 2 else ic + 1)
    ensures 0 <= a < len && 0 <= b < len && a != b
    ensures DynamicWritten(n, ic + 2, j) <==> DynamicWritten(n, ic, j) || j == a || j == b
    ensures DynamicWritten(n, ic + 2, a) && DynamicWritten(n, ic + 2, b)
  {
  }

  /** The pair that step i0 of the fp32 loop rotates. */
  lemma DynamicPairF32(fl: FloatLib, n: int, scale: real, p: int, row: seq<real>, i0: nat)
    requires 0 < n <= |row| && n % 2 == 0 && i0 < n / 2
    ensures DynamicElemF32(fl, n, scale, p, row, i0) == Rot0(fl, row[i0], row[i0 + n / 2], Theta(scale, p, i0))
    ensures DynamicElemF32(fl, n, scale, p, row, i0 + n / 2) == Rot1(fl, row[i0], row[i0 + n / 2], Theta(scale, p, i0))
  {
  }

  /** One pass of the loop writes element a as va and b as vb, and nothing else. */
  lemma DynamicStep(fl: FloatLib, typ: GgmlType, n: int, scale: real, p: int, row: seq<real>, row0: seq<real>, ic: nat,
                    a: nat, va: real, b: nat, vb: real)
    requires ic < |row| && |row| % 2 == 0 && ic % 2 == 0 && n <= |row| && n % 2 == 0 && |row0| == |row|
    requires a == (if ic < n then ic / 2 else ic) && b == (if ic < n then ic / 2 + n / 2 else ic + 1)
    requires va == (if ic < n then Store(fl, typ, Rot0(fl, row[a], row[b], Theta(scale, p, a))) else row[a])
    requires vb == (if ic < n then Store(fl, typ, Rot1(fl, row[a], row[b], Theta(scale, p, a))) else row[b])
    ensures a < |row| && b < |row|
    ensures DynamicProgress(fl, typ, n, scale, p, row, row0, ic + 2) ==
      DynamicProgress(fl, typ, n, scale, p, row, row0, ic)[a := va][b := vb]
  {
    var cur := DynamicProgress(fl, typ, n, scale, p, row, row0, ic);
    var nxt := DynamicProgress(fl, typ, n, scale, p, row, row0, ic + 2);
    WrittenStep(n, ic, |row|, 0, a, b);
    if ic < n {
      DynamicPairF32(fl, n, scale, p, row, a);
    }
    var upd := cur[a := va][b := vb];
    forall j | 0 <= j < |row|
      ensures nxt[j] == upd[j]
    {
      WrittenStep(n, ic, |row|, j, a, b);
    }
    assert nxt == upd;
  }

  /** At the end of the loop every element is written. */
  lemma DynamicDone(fl: FloatLib, typ: GgmlType, n: int, scale: real, p: int, row: seq<real>, row0: seq<real>)
    requires n <= |row| && n % 2 == 0 && |row0| == |row|
    ensures forall j :: 0 <= j < |row| ==>
      DynamicProgress(fl, typ, n, scale, p, row, row0, |row|)[j] == DynamicElemStored(fl, typ, n, scale, p, row, j)
  {
  }

  /** One pass of the loop: the pair of step ic / 2, or a copy of two elements from n_dims on. */
  method DynamicPass(fl: FloatLib, typ: GgmlType, dst: array2<real>, r: nat, row: seq<real>, n: int, scale: real, p: int,
                     ic: nat, invFreq: real, ghost row0: seq<real>, ghost orig: seq<seq<real>>, ghost cur: seq<real>)
    returns (ghost next: seq<real>)
    requires r < dst.Length0 && |row| == dst.Length1 && |row0| == |row|
    requires ic < |row| && |row| % 2 == 0 && ic % 2 == 0 && n <= |row| && n % 2 == 0
    requires invFreq == Power(scale, ic / 2)
    requires cur == DynamicProgress(fl, typ, n, scale, p, row, row0, ic) && RowHolds(dst, r, cur, orig)
    modifies dst
    ensures next == DynamicProgress(fl, typ, n, scale, p, row, row0, ic + 2) && RowHolds(dst, r, next, orig)
  {
    if ic < n {
      var theta := p as real * invFreq;
      var i0 := ic / 2;
      var x0 := row[i0];
      var x1 := row[i0 + n / 2];
      assert theta == Theta(scale, p, i0);
      var v0, v1 := Store(fl, typ, Rot0(fl, x0, x1, theta)), Store(fl, typ, Rot1(fl, x0, x1, theta));
      DynamicStep(fl, typ, n, scale, p, row, row0, ic, i0, v0, i0 + n / 2, v1);
      WritePair(dst, r, i0, v0, i0 + n / 2, v1, cur, orig);
      next := cur[i0 := v0][i0 + n / 2 := v1];
    } else {
      DynamicStep(fl, typ, n, scale, p, row, row0, ic, ic, row[ic], ic + 1, row[ic + 1]);
      WritePair(dst, r, ic, row[ic], ic + 1, row[ic + 1], cur, orig);
      next := cur[ic := row[ic]][ic + 1 := row[ic + 1]];
    }
  }

  /**
   * The loop of ntk_dynamic_rope_f32 for one row, storing in the type `typ`:
   * with F32 it is that loop as written, with F16 the fp16 loop as evidently
   * intended.
   */
  method DynamicRopeRow(fl: FloatLib, typ: GgmlType, dst: array2<real>, r: nat, row: seq<real>, n: int, scale: real, p: int)
    requires r < dst.Length0 && |row| == dst.Length1
    requires |row| % 2 == 0 && n <= |row| && n % 2 == 0
    modifies dst
    ensures forall r', j :: 0 <= r' < dst.Length0 && 0 <= j < dst.Length1 ==>
              dst[r', j] == if r' == r then DynamicElemStored(fl, typ, n, scale, p, row, j) else old(dst[r', j])
  {
    ghost var orig := Snapshot(dst);
    ghost var row0 := orig[r];
    ghost var cur := row0;
    var invFreq := 1.0;
    var ic := 0;
    while ic < |row|
      invariant 0 <= ic <= |row| && ic % 2 == 0
      invariant invFreq == Power(scale, ic / 2)
      invariant cur == DynamicProgress(fl, typ, n, scale, p, row, row0, ic)
      invariant RowHolds(dst, r, cur, orig)
    {
      cur := DynamicPass(fl, typ, dst, r, row, n, scale, p, ic, invFreq, row0, orig, cur);
      assert (ic + 2) / 2 == ic / 2 + 1;
      ic := ic + 2;
      invFreq := invFreq * scale;
    }
    DynamicDone(fl, typ, n, scale, p, row, row0);
  }

  /** The inner loop of ntk_dynamic_rope_f32 for one row. */
  method DynamicRopeRowF32(fl: FloatLib, dst: array2<real>, r: nat, row: seq<real>, n: int, scale: real, p: int)
    requires r < dst.Length0 && |row| == dst.Length1
    requires |row| % 2 == 0 && n <= |row| && n % 2 == 0
    modifies dst
    ensures forall r', j :: 0 <= r' < dst.Length0 && 0 <= j < dst.Length1 ==>
              dst[r', j] == if r' == r then DynamicElemF32(fl, n, scale, p, row, j) else old(dst[r', j])
  {
    DynamicRopeRow(fl, F32, dst, r, row, n, scale, p);
  }

  // The fp16 loop as written: step s rotates elements s and s+1.

  /** Element j of the fp16 dynamic row once the loop is at `ic`. */
  function DynamicF16At(fl: FloatLib, n: int, scale: real, p: int, row: seq<real>, j: nat, oldv: real, ic: int): real
    requires j < |row| && n <= |row| && n % 2 == 0
  {
    var s := if ic < n then ic / 2 else n / 2;
    if 0 < n && j < n then
      if j < s then fl.toHalf(Rot0(fl, row[j], row[j + 1], Theta(scale, p, j)))
      else if j == s && s > 0 then fl.toHalf(Rot1(fl, row[j - 1], row[j], Theta(scale, p, j - 1)))
      else oldv
    else if j < ic then row[j] else oldv
  }

  /** The fp16 row once the loop is at `ic`, from the row `row0` it started with. */
  function DynamicF16Progress(fl: FloatLib, n: int, scale: real, p: int, row: seq<real>, row0: seq<real>, ic: int): (s: seq<real>)
    requires n <= |row| && n % 2 == 0 && |row0| == |row|
    ensures |s| == |row|
    ensures forall j :: 0 <= j < |row| ==> s[j] == DynamicF16At(fl, n, scale, p, row, j, row0[j], ic)
  {
    seq(|row|, j requires 0 <= j < |row| => DynamicF16At(fl, n, scale, p, row, j, row0[j], ic))
  }

  /** One pass of the fp16 loop writes element a as va and b as vb, and nothing else. */
  lemma DynamicF16Step(fl: FloatLib, n: int, scale: real, p: int, row: seq<real>, row0: seq<real>, ic: nat,
                       a: nat, va: real, b: nat, vb: real)
    requires ic < |row| && |row| % 2 == 0 && ic % 2 == 0 && n <= |row| && n % 2 == 0 && |row0| == |row|
    requires a == (if ic < n then ic / 2 else ic) && b == a + 1
    requires va == (if ic < n then fl.toHalf(Rot0(fl, row[a], row[b], Theta(scale, p, a))) else row[a])
    requires vb == (if ic < n then fl.toHalf(Rot1(fl, row[a], row[b], Theta(scale, p, a))) else row[b])
    ensures b < |row|
    ensures DynamicF16Progress(fl, n, scale, p, row, row0, ic + 2) ==
      DynamicF16Progress(fl, n, scale, p, row, row0, ic)[a := va][b := vb]
  {
    var cur := DynamicF16Progress(fl, n, scale, p, row, row0, ic);
    var nxt := DynamicF16Progress(fl, n, scale, p, row, row0, ic + 2);
    var upd := cur[a := va][b := vb];
    forall j | 0 <= j < |row|
      ensures nxt[j] == upd[j]
    {
    }
    assert nxt == upd;
  }

  /** At the end of the fp16 loop each element is what the code as written leaves there. */
  lemma DynamicF16Done(fl: FloatLib, n: int, scale: real, p: int, row: seq<real>, row0: seq<real>)
    requires n <= |row| && n % 2 == 0 && |row0| == |row|
    ensures forall j :: 0 <= j < |row| ==>
      DynamicF16Progress(fl, n, scale, p, row, row0, |row|)[j] == DynamicElemF16(fl, n, scale, p, row, j, row0[j])
  {
  }

  /** One pass of the fp16 loop as written. */
  method DynamicF16Pass(fl: FloatLib, dst: array2<real>, r: nat, row: seq<real>, n: int, scale: real, p: int,
                        ic: nat, invFreq: real, ghost row0: seq<real>, ghost orig: seq<seq<real>>, ghost cur: seq<real>)
    returns (ghost next: seq<real>)
    requires r < dst.Length0 && |row| == dst.Length1 && |row0| == |row|
    requires ic < |row| && |row| % 2 == 0 && ic % 2 == 0 && n <= |row| && n % 2 == 0
    requires invFreq == Power(scale, ic / 2)
    requires cur == DynamicF16Progress(fl, n, scale, p, row, row0, ic) && RowHolds(dst, r, cur, orig)
    modifies dst
    ensures next == DynamicF16Progress(fl, n, scale, p, row, row0, ic + 2) && RowHolds(dst, r, next, orig)
  {
    if ic < n {
      var theta := p as real * invFreq;
      var i0 := ic / 2;
      var x0 := row[i0];
      var x1 := row[i0 + 1];
      assert theta == Theta(scale, p, i0);
      var v0, v1 := fl.toHalf(Rot0(fl, x0, x1, theta)), fl.toHalf(Rot1(fl, x0, x1, theta));
      DynamicF16Step(fl, n, scale, p, row, row0, ic, i0, v0, i0 + 1, v1);
      WritePair(dst, r, i0, v0, i0 + 1, v1, cur, orig);
      next := cur[i0 := v0][i0 + 1 := v1];
    } else {
      DynamicF16Step(fl, n, scale, p, row, row0, ic, ic, row[ic], ic + 1, row[ic + 1]);
      WritePair(dst, r, ic, row[ic], ic + 1, row[ic + 1], cur, orig);
      next := cur[ic := row[ic]][ic + 1 := row[ic + 1]];
    }
  }

  /** The inner loop of ntk_dynamic_rope_f16 for one row, as written. */
  method DynamicRopeRowF16(fl: FloatLib, dst: array2<real>, r: nat, row: seq<real>, n: int, scale: real, p: int)
    requires r < dst.Length0 && |row| == dst.Length1
    requires |row| % 2 == 0 && n <= |row| && n % 2 == 0
    modifies dst
    ensures forall r', j :: 0 <= r' < dst.Length0 && 0 <= j < dst.Length1 ==>
              dst[r', j] == if r' == r then DynamicElemF16(fl, n, scale, p, row, j, old(dst[r', j])) else old(dst[r', j])
  {
    ghost var orig := Snapshot(dst);
    ghost var row0 := orig[r];
    ghost var cur := row0;
    var invFreq := 1.0;
    var ic := 0;
    while ic < |row|
      invariant 0 <= ic <= |row| && ic % 2 == 0
      invariant invFreq == Power(scale, ic / 2)
      invariant cur == DynamicF16Progress(fl, n, scale, p, row, row0, ic)
      invariant RowHolds(dst, r, cur, orig)
    {
      cur := DynamicF16Pass(fl, dst, r, row, n, scale, p, ic, invFreq, row0, orig, cur);
      assert (ic + 2) / 2 == ic / 2 + 1;
      ic := ic + 2;
      invFreq := invFreq * scale;
    }
    DynamicF16Done(fl, n, scale, p, row, row0);
  }

  // The mixed loop: adjacent pairs.

  /** The two elements of the pair starting at the even index i0. */
  lemma MixElemPair(fl: FloatLib, typ: GgmlType, invFreq: seq<real>, p: int, row: seq<real>, i0: nat)
    requires i0 % 2 == 0 && i0 < |row| && |row| % 2 == 0 && |invFreq| >= |row| / 2
    ensures i0 + 1 < |row|
    ensures MixElem(fl, typ, invFreq, p, row, i0) == Store(fl, typ, Rot0(fl, row[i0], row[i0 + 1], MixTheta(invFreq, p, i0 / 2)))
    ensures MixElem(fl, typ, invFreq, p, row, i0 + 1) == Store(fl, typ, Rot1(fl, row[i0], row[i0 + 1], MixTheta(invFreq, p, i0 / 2)))
  {
    var m := (i0 + 1) / 2;
    assert m == i0 / 2 && 2 * m == i0 && (i0 + 1) % 2 == 1;
    assert row[2 * m] == row[i0] && row[2 * m + 1] == row[i0 + 1];
  }

  /** The mixed row once the loop is at `i0`, from the row `row0` it started with. */
  function MixProgress(fl: FloatLib, typ: GgmlType, invFreq: seq<real>, p: int, row: seq<real>, row0: seq<real>, i0: int): (s: seq<real>)
    requires |row| % 2 == 0 && |invFreq| >= |row| / 2 && |row0| == |row|
    ensures |s| == |row|
    ensures forall j :: 0 <= j < |row| ==> s[j] == if j < i0 then MixElem(fl, typ, invFreq, p, row, j) else row0[j]
  {
    seq(|row|, j requires 0 <= j < |row| => if j < i0 then MixElem(fl, typ, invFreq, p, row, j) else row0[j])
  }

  /** One pass of the mixed loop writes the pair at i0 and nothing else. */
  lemma MixStep(fl: FloatLib, typ: GgmlType, invFreq: seq<real>, p: int, row: seq<real>, row0: seq<real>, i0: nat)
    requires i0 % 2 == 0 && i0 < |row| && |row| % 2 == 0 && |invFreq| >= |row| / 2 && |row0| == |row|
    ensures i0 + 1 < |row|
    ensures MixProgress(fl, typ, invFreq, p, row, row0, i0 + 2) ==
      MixProgress(fl, typ, invFreq, p, row, row0, i0)
        [i0 := Store(fl, typ, Rot0(fl, row[i0], row[i0 + 1], MixTheta(invFreq, p, i0 / 2)))]
        [i0 + 1 := Store(fl, typ, Rot1(fl, row[i0], row[i0 + 1], MixTheta(invFreq, p, i0 / 2)))]
  {
    MixElemPair(fl, typ, invFreq, p, row, i0);
    var nxt := MixProgress(fl, typ, invFreq, p, row, row0, i0 + 2);
    var upd := MixProgress(fl, typ, invFreq, p, row, row0, i0)[i0 := MixElem(fl, typ, invFreq, p, row, i0)]
                 [i0 + 1 := MixElem(fl, typ, invFreq, p, row, i0 + 1)];
    forall j | 0 <= j < |row|
      ensures nxt[j] == upd[j]
    {
    }
    assert nxt == upd;
  }

  /** The inner loop of ntk_mix_rope_f32 / _f16 for one row. */
  method MixRopeRow(fl: FloatLib, typ: GgmlType, dst: array2<real>, r: nat, row: seq<real>, invFreq: seq<real>, p: int)
    requires r < dst.Length0 && |row| == dst.Length1
    requires |row| % 2 == 0 && |invFreq| >= |row| / 2
    modifies dst
    ensures forall r', j :: 0 <= r' < dst.Length0 && 0 <= j < dst.Length1 ==>
              dst[r', j] == if r' == r then MixElem(fl, typ, invFreq, p, row, j) else old(dst[r', j])
  {
    ghost var orig := Snapshot(dst);
    ghost var row0 := orig[r];
    ghost var cur := row0;
    var i0 := 0;
    while i0 < |row|
      invariant 0 <= i0 <= |row| && i0 % 2 == 0
      invariant cur == MixProgress(fl, typ, invFreq, p, row, row0, i0)
      invariant RowHolds(dst, r, cur, orig)
    {
      var theta := p as real * invFreq[i0 / 2];
      var x0 := row[i0];
      var x1 := row[i0 + 1];
      MixStep(fl, typ, invFreq, p, row, row0, i0);
      var v0, v1 := Store(fl, typ, Rot0(fl, x0, x1, theta)), Store(fl, typ, Rot1(fl, x0, x1, theta));
      WritePair(dst, r, i0, v0, i0 + 1, v1, cur, orig);
      cur := cur[i0 := v0][i0 + 1 := v1];
      i0 := i0 + 2;
    }
  }

  // ----- the worker skeleton ----------------------------------------------

  /** The quotient and remainder of q*d + i by d, for i < d. */
  lemma DivModOf(q: nat, d: nat, i: nat)
    requires i < d
    ensures (q * d + i) / d == q && (q * d + i) % d == i
  {
    DivUnique(q * d + i, d, q);
  }

  /** Flat indices decompose back into their coordinates and stay below the row count. */
  lemma FlatCoords(sh: Shape, i3: nat, i2: nat, i1: nat)
    requires i3 < sh.ne3 && i2 < sh.ne2 && i1 < sh.ne1
    ensures sh.Flat(i3, i2, i1) < sh.Rows()
    ensures sh.I1(sh.Flat(i3, i2, i1)) == i1 && sh.I2(sh.Flat(i3, i2, i1)) == i2
  {
    var q := i3 * sh.ne2 + i2;
    DivModOf(q, sh.ne1, i1);
    DivModOf(i3, sh.ne2, i2);
    FlatBound(sh, i3, i2, i1);
  }

  lemma FlatBound(sh: Shape, i3: nat, i2: nat, i1: nat)
    requires i3 < sh.ne3 && i2 < sh.ne2 && i1 < sh.ne1
    ensures sh.Flat(i3, i2, i1) < sh.Rows()
  {
    var q := i3 * sh.ne2 + i2;
    MulLe(sh.ne2, i3 + 1, sh.ne3);
    assert q + 1 <= sh.ne2 * sh.ne3;
    MulLe(sh.ne1, q + 1, sh.ne2 * sh.ne3);
    assert sh.Flat(i3, i2, i1) < sh.ne1 * (q + 1);
    assert sh.Rows() == sh.ne1 * (sh.ne2 * sh.ne3);
  }

  /** Consecutive blocks of rows are adjacent in flat order. */
  lemma FlatNext(sh: Shape, i3: nat, i2: nat)
    ensures sh.Flat(i3, i2, sh.ne1) == sh.Flat(i3, i2 + 1, 0)
    ensures sh.Flat(i3, sh.ne2, 0) == sh.Flat(i3 + 1, 0, 0)
    ensures sh.Flat(sh.ne3, 0, 0) == sh.Rows()
  {
    assert (i3 * sh.ne2 + i2 + 1) * sh.ne1 == (i3 * sh.ne2 + i2) * sh.ne1 + sh.ne1;
    assert (i3 * sh.ne2 + sh.ne2) * sh.ne1 == ((i3 + 1) * sh.ne2) * sh.ne1;
    assert (sh.ne3 * sh.ne2) * sh.ne1 == sh.ne1 * sh.ne2 * sh.ne3;
  }

  /** Source rows and destination array agree with the shape. */
  predicate WellShaped(sh: Shape, src: seq<seq<real>>, dst: array2<real>)
  {
    |src| == sh.Rows() && dst.Length0 == sh.Rows() && dst.Length1 == sh.ne0
    && forall r :: 0 <= r < |src| ==> |src[r]| == sh.ne0
  }

  /** The kernel body for one row, selected by kernel and element type. */
  method ApplyRow(k: Kernel, typ: GgmlType, fl: FloatLib, sh: Shape, dst: array2<real>, r: nat, i1: nat, i2: nat, row: seq<real>)
    requires Accepts(k, typ, sh) && Fits(k, sh)
    requires r < sh.Rows() && sh.ne1 > 0 && sh.ne2 > 0 && i1 == sh.I1(r) && i2 == sh.I2(r)
    requires dst.Length0 == sh.Rows() && dst.Length1 == sh.ne0 && |row| == sh.ne0
    modifies dst
    ensures forall r', j :: 0 <= r' < dst.Length0 && 0 <= j < dst.Length1 ==>
              dst[r', j] == if r' == r then ElemOut(k, typ, fl, sh, r, row, j, old(dst[r', j])) else old(dst[r', j])
  {
    match k
    case MatScale(scales) =>
      ScaleRow(dst, r, row, scales[i1]);
    case DynamicRope(n, seqLength, freqBase, pos) =>
      var p := pos[i2];
      var scale := DynamicFreqScale(fl, n, seqLength, freqBase, p);
      if typ == F32 {
        DynamicRopeRowF32(fl, dst, r, row, n, scale, p);
      } else {
        DynamicRopeRowF16(fl, dst, r, row, n, scale, p);
      }
    case MixRope(_, invFreq, pos) =>
      MixRopeRow(fl, typ, dst, r, row, invFreq, pos[i2]);
  }

  /** The contents of a destination array, row by row. */
  ghost function Snapshot(a: array2<real>): (s: seq<seq<real>>)
    reads a
    ensures |s| == a.Length0
    ensures forall r :: 0 <= r < a.Length0 ==> |s[r]| == a.Length1
    ensures forall r, j :: 0 <= r < a.Length0 && 0 <= j < a.Length1 ==> s[r][j] == a[r, j]
  {
    seq(a.Length0, r requires 0 <= r < a.Length0 reads a =>
      seq(a.Length1, j requires 0 <= j < a.Length1 reads a => a[r, j]))
  }

  /** Rows below g that worker ith owns hold the kernel's output, all others their original value. */
  ghost predicate DoneBelow(k: Kernel, typ: GgmlType, fl: FloatLib, sh: Shape, src: seq<seq<real>>, dst: array2<real>,
                            orig: seq<seq<real>>, ith: nat, nth: nat, g: nat)
    requires Accepts(k, typ, sh) && Fits(k, sh) && WellShaped(sh, src, dst) && nth >= 1
    requires |orig| == dst.Length0 && forall r :: 0 <= r < |orig| ==> |orig[r]| == dst.Length1
    reads dst
  {
    forall r, j :: 0 <= r < dst.Length0 && 0 <= j < dst.Length1 ==>
      dst[r, j] == if r < g && Owns(sh.Rows(), nth, ith, r) then ElemOut(k, typ, fl, sh, r, src[r], j, orig[r][j]) else orig[r][j]
  }

  /**
   * One worker of a kernel: walks every (i3, i2, i1) with the row counter
   * `ir`, skipping rows before its range and leaving the innermost loop past
   * it, and applies the kernel body to the rows it owns.
   */
  method Worker(k: Kernel, typ: GgmlType, fl: FloatLib, sh: Shape, src: seq<seq<real>>, dst: array2<real>, ith: nat, nth: nat)
    requires nth >= 1 && Accepts(k, typ, sh) && Fits(k, sh) && WellShaped(sh, src, dst)
    modifies dst
    ensures forall r, j :: 0 <= r < dst.Length0 && 0 <= j < dst.Length1 ==>
              dst[r, j] == if Owns(sh.Rows(), nth, ith, r) then ElemOut(k, typ, fl, sh, r, src[r], j, old(dst[r, j])) else old(dst[r, j])
  {
    ghost var orig := Snapshot(dst);
    var nr := sh.Rows();
    var dr := (nr + nth - 1) / nth;
    var ir0 := dr * ith;
    var ir1 := if ir0 + dr < nr then ir0 + dr else nr;
    assert ir0 == RangeStart(nr, nth, ith) && ir1 == RangeEnd(nr, nth, ith);
    var ir := 0;
    for i3 := 0 to sh.ne3
      invariant ir == sh.Flat(i3, 0, 0) || ir1 < ir <= sh.Flat(i3, 0, 0)
      invariant DoneBelow(k, typ, fl, sh, src, dst, orig, ith, nth, sh.Flat(i3, 0, 0))
    {
      for i2 := 0 to sh.ne2
        invariant ir == sh.Flat(i3, i2, 0) || ir1 < ir <= sh.Flat(i3, i2, 0)
        invariant DoneBelow(k, typ, fl, sh, src, dst, orig, ith, nth, sh.Flat(i3, i2, 0))
      {
        ir := WorkerRows(k, typ, fl, sh, src, dst, ith, nth, i3, i2, ir0, ir1, ir, orig);
        FlatNext(sh, i3, i2);
      }
      FlatNext(sh, i3, sh.ne2);
    }
    FlatNext(sh, sh.ne3, 0);
  }

  /** The innermost loop of the worker, over i1, with its `continue` and `break`. */
  method WorkerRows(k: Kernel, typ: GgmlType, fl: FloatLib, sh: Shape, src: seq<seq<real>>, dst: array2<real>, ith: nat, nth: nat,
                    i3: nat, i2: nat, ir0: nat, ir1: nat, ir: nat, ghost orig: seq<seq<real>>)
    returns (irOut: nat)
    requires nth >= 1 && Accepts(k, typ, sh) && Fits(k, sh) && WellShaped(sh, src, dst)
    requires i3 < sh.ne3 && i2 < sh.ne2
    requires ir0 == RangeStart(sh.Rows(), nth, ith) && ir1 == RangeEnd(sh.Rows(), nth, ith)
    requires |orig| == dst.Length0 && forall r :: 0 <= r < |orig| ==> |orig[r]| == dst.Length1
    requires ir == sh.Flat(i3, i2, 0) || ir1 < ir <= sh.Flat(i3, i2, 0)
    requires DoneBelow(k, typ, fl, sh, src, dst, orig, ith, nth, sh.Flat(i3, i2, 0))
    modifies dst
    ensures irOut == sh.Flat(i3, i2, sh.ne1) || ir1 < irOut <= sh.Flat(i3, i2, sh.ne1)
    ensures DoneBelow(k, typ, fl, sh, src, dst, orig, ith, nth, sh.Flat(i3, i2, sh.ne1))
  {
    irOut := ir;
    for i1 := 0 to sh.ne1
      invariant irOut == sh.Flat(i3, i2, i1) || ir1 < irOut <= sh.Flat(i3, i2, i1)
      invariant DoneBelow(k, typ, fl, sh, src, dst, orig, ith, nth, sh.Flat(i3, i2, i1))
    {
      FlatCoords(sh, i3, i2, i1);
      irOut := irOut + 1;
      if irOut - 1 < ir0 {
        continue;
      }
      if irOut > ir1 {
        break;
      }
      ApplyRow(k, typ, fl, sh, dst, irOut - 1, i1, i2, src[irOut - 1]);
    }
  }

  /** The rows lo, lo+1, ..., hi-1 in increasing order. */
  function Interval(lo: nat, hi: nat): (s: seq<nat>)
    ensures |s| == if lo < hi then hi - lo else 0
    ensures forall m :: 0 <= m < |s| ==> s[m] == lo + m
    decreases hi
  {
    if hi <= lo then [] else Interval(lo, hi - 1) + [hi - 1]
  }

  /**
   * The walk of the worker skeleton alone: the flat rows for which worker ith
   * reaches the kernel body, in visiting order. Although `break` leaves only
   * the innermost loop, they are exactly the rows of its range.
   */
  method VisitedRows(sh: Shape, ith: nat, nth: nat) returns (rows: seq<nat>)
    requires nth >= 1
    ensures rows == Interval(RangeStart(sh.Rows(), nth, ith), RangeEnd(sh.Rows(), nth, ith))
    ensures forall r: nat :: r in rows <==> Owns(sh.Rows(), nth, ith, r)
  {
    var nr := sh.Rows();
    var dr := (nr + nth - 1) / nth;
    var ir0 := dr * ith;
    var ir1 := if ir0 + dr < nr then ir0 + dr else nr;
    assert ir0 == RangeStart(nr, nth, ith) && ir1 == RangeEnd(nr, nth, ith);
    var ir := 0;
    rows := [];
    for i3 := 0 to sh.ne3
      invariant ir == sh.Flat(i3, 0, 0) || ir1 < ir <= sh.Flat(i3, 0, 0)
      invariant rows == Interval(ir0, if sh.Flat(i3, 0, 0) < ir1 then sh.Flat(i3, 0, 0) else ir1)
    {
      for i2 := 0 to sh.ne2
        invariant ir == sh.Flat(i3, i2, 0) || ir1 < ir <= sh.Flat(i3, i2, 0)
        invariant rows == Interval(ir0, if sh.Flat(i3, i2, 0) < ir1 then sh.Flat(i3, i2, 0) else ir1)
      {
        ir, rows := VisitRowBlock(sh, i3, i2, ir0, ir1, ir, rows);
        FlatNext(sh, i3, i2);
      }
      FlatNext(sh, i3, sh.ne2);
    }
    FlatNext(sh, sh.ne3, 0);
    forall r: nat ensures r in rows <==> Owns(nr, nth, ith, r) {
      if Owns(nr, nth, ith, r) {
        assert rows[r - ir0] == r;
      }
    }
  }

  /** The innermost loop of the walk, over i1. */
  method VisitRowBlock(sh: Shape, i3: nat, i2: nat, ir0: nat, ir1: nat, ir: nat, rows: seq<nat>) returns (irOut: nat, rowsOut: seq<nat>)
    requires ir == sh.Flat(i3, i2, 0) || ir1 < ir <= sh.Flat(i3, i2, 0)
    requires rows == Interval(ir0, if sh.Flat(i3, i2, 0) < ir1 then sh.Flat(i3, i2, 0) else ir1)
    ensures irOut == sh.Flat(i3, i2, sh.ne1) || ir1 < irOut <= sh.Flat(i3, i2, sh.ne1)
    ensures rowsOut == Interval(ir0, if sh.Flat(i3, i2, sh.ne1) < ir1 then sh.Flat(i3, i2, sh.ne1) else ir1)
  {
    irOut, rowsOut := ir, rows;
    for i1 := 0 to sh.ne1
      invariant irOut == sh.Flat(i3, i2, i1) || ir1 < irOut <= sh.Flat(i3, i2, i1)
      invariant rowsOut == Interval(ir0, if sh.Flat(i3, i2, i1) < ir1 then sh.Flat(i3, i2, i1) else ir1)
    {
      irOut := irOut + 1;
      if irOut - 1 < ir0 {
        continue;
      }
      if irOut > ir1 {
        break;
      }
      assert Interval(ir0, irOut) == Interval(ir0, irOut - 1) + [irOut - 1];
      rowsOut := rowsOut + [irOut - 1];
    }
  }

  /** All workers 0..nth-1, one after another: every row gets the kernel's output. */
  method RunAllWorkers(k: Kernel, typ: GgmlType, fl: FloatLib, sh: Shape, src: seq<seq<real>>, dst: array2<real>, nth: nat)
    requires nth >= 1 && Accepts(k, typ, sh) && Fits(k, sh) && WellShaped(sh, src, dst)
    modifies dst
    ensures forall r, j :: 0 <= r < dst.Length0 && 0 <= j < dst.Length1 ==>
              dst[r, j] == ElemOut(k, typ, fl, sh, r, src[r], j, old(dst[r, j]))
  {
    var nr := sh.Rows();
    for ith := 0 to nth
      invariant forall r, j :: 0 <= r < dst.Length0 && 0 <= j < dst.Length1 ==>
                  dst[r, j] == if Owner(nr, nth, r) < ith then ElemOut(k, typ, fl, sh, r, src[r], j, old(dst[r, j])) else old(dst[r, j])
    {
      forall r | 0 <= r < nr
        ensures Owns(nr, nth, ith, r) <==> Owner(nr, nth, r) == ith
      {
        OwnerOwns(nr, nth, r);
      }
      Worker(k, typ, fl, sh, src, dst, ith, nth);
    }
    forall r | 0 <= r < nr
      ensures Owner(nr, nth, r) < nth
    {
      OwnerOwns(nr, nth, r);
    }
  }

  // ----- type dispatch ----------------------------------------------------

  /** ggml_compute_forward_mat_scale: fp32 only; any other type stops at GGML_ASSERT. */
  method ComputeMatScale(typ: GgmlType, scales: seq<real>, fl: FloatLib, sh: Shape, src: seq<seq<real>>, dst: array2<real>, ith: nat, nth: nat)
    returns (st: Status)
    requires nth >= 1 && Fits(MatScale(scales), sh) && WellShaped(sh, src, dst)
    modifies dst
    ensures st == Aborted <==> typ != F32
    ensures st == Aborted ==> forall r, j :: 0 <= r < dst.Length0 && 0 <= j < dst.Length1 ==> dst[r, j] == old(dst[r, j])
    ensures st == Done ==> forall r, j :: 0 <= r < dst.Length0 && 0 <= j < dst.Length1 ==>
              dst[r, j] == if Owns(sh.Rows(), nth, ith, r) then src[r][j] * scales[sh.I1(r)] else old(dst[r, j])
  {
    match typ
    case F32 =>
      Worker(MatScale(scales), typ, fl, sh, src, dst, ith, nth);
      st := Done;
    case _ =>
      st := Aborted;
  }

  /** ggml_compute_forward_ntk_dynamic_rope: fp16 or fp32, then the two GGML_ASSERTs on n_dims. */
  method ComputeDynamicRope(typ: GgmlType, fl: FloatLib, nDims: int, seqLength: int, freqBase: real, pos: seq<int>,
                            sh: Shape, src: seq<seq<real>>, dst: array2<real>, ith: nat, nth: nat)
    returns (st: Status)
    requires nth >= 1 && Fits(DynamicRope(nDims, seqLength, freqBase, pos), sh) && WellShaped(sh, src, dst)
    modifies dst
    ensures st == Aborted <==> typ == OtherType || nDims > sh.ne0 || nDims % 2 != 0
    ensures st == Aborted ==> forall r, j :: 0 <= r < dst.Length0 && 0 <= j < dst.Length1 ==> dst[r, j] == old(dst[r, j])
    ensures st == Done ==> forall r, j :: 0 <= r < dst.Length0 && 0 <= j < dst.Length1 ==>
              dst[r, j] == if Owns(sh.Rows(), nth, ith, r)
                           then ElemOut(DynamicRope(nDims, seqLength, freqBase, pos), typ, fl, sh, r, src[r], j, old(dst[r, j]))
                           else old(dst[r, j])
  {
    if typ == OtherType {
      return Aborted;
    }
    if !(nDims <= sh.ne0) || nDims % 2 != 0 {
      return Aborted;
    }
    Worker(DynamicRope(nDims, seqLength, freqBase, pos), typ, fl, sh, src, dst, ith, nth);
    st := Done;
  }

  /** ggml_compute_forward_ntk_mix_rope: fp16 or fp32, then the two GGML_ASSERTs on n_dims. */
  method ComputeMixRope(typ: GgmlType, fl: FloatLib, nDims: int, invFreq: seq<real>, pos: seq<int>,
                        sh: Shape, src: seq<seq<real>>, dst: array2<real>, ith: nat, nth: nat)
    returns (st: Status)
    requires nth >= 1 && Fits(MixRope(nDims, invFreq, pos), sh) && WellShaped(sh, src, dst)
    modifies dst
    ensures st == Aborted <==> typ == OtherType || nDims > sh.ne0 || nDims % 2 != 0
    ensures st == Aborted ==> forall r, j :: 0 <= r < dst.Length0 && 0 <= j < dst.Length1 ==> dst[r, j] == old(dst[r, j])
    ensures st == Done ==> forall r, j :: 0 <= r < dst.Length0 && 0 <= j < dst.Length1 ==>
              dst[r, j] == if Owns(sh.Rows(), nth, ith, r)
                           then ElemOut(MixRope(nDims, invFreq, pos), typ, fl, sh, r, src[r], j, old(dst[r, j]))
                           else old(dst[r, j])
  {
    if typ == OtherType {
      return Aborted;
    }
    if !(nDims <= sh.ne0) || nDims % 2 != 0 {
      return Aborted;
    }
    Worker(MixRope(nDims, invFreq, pos), typ, fl, sh, src, dst, ith, nth);
    st := Done;
  }
}
