// Properties of the kernels' element functions: what each rotary variant
// pairs, what a rotation preserves, what stays untouched, and the fp16
// dynamic variant's departure from the fp32 one.
module RopeProperties {
  import opened Floats
  import opened Kernels

  /** cos and sin of an angle lie on the unit circle. */
  predicate UnitAt(fl: FloatLib, t: real)
  {
    fl.cos(t) * fl.cos(t) + fl.sin(t) * fl.sin(t) == 1.0
  }

  /** A rotation keeps the squared length of the pair. */
  lemma RotationNorm(fl: FloatLib, x0: real, x1: real, t: real)
    requires UnitAt(fl, t)
    ensures Rot0(fl, x0, x1, t) * Rot0(fl, x0, x1, t) + Rot1(fl, x0, x1, t) * Rot1(fl, x0, x1, t)
            == x0 * x0 + x1 * x1
  {
    var c, s := fl.cos(t), fl.sin(t);
    calc {
      Rot0(fl, x0, x1, t) * Rot0(fl, x0, x1, t) + Rot1(fl, x0, x1, t) * Rot1(fl, x0, x1, t);
      (x0 * c - x1 * s) * (x0 * c - x1 * s) + (x0 * s + x1 * c) * (x0 * s + x1 * c);
      x0 * x0 * (c * c + s * s) + x1 * x1 * (c * c + s * s);
      x0 * x0 + x1 * x1;
    }
  }

  /**
   * fp32 dynamic NTK pairs element j with element j + n/2 (not j + 1): for
   * j < n/2 both are the rotation of that pair by the angle of step j, so
   * their squared length is kept.
   */
  lemma DynamicF32Pairs(fl: FloatLib, n: int, scale: real, p: int, row: seq<real>, j: nat)
    requires 0 < n <= |row| && n % 2 == 0 && j < n / 2
    requires UnitAt(fl, Theta(scale, p, j))
    ensures var out0 := DynamicElemF32(fl, n, scale, p, row, j);
            var out1 := DynamicElemF32(fl, n, scale, p, row, j + n / 2);
            out0 == Rot0(fl, row[j], row[j + n / 2], Theta(scale, p, j))
            && out1 == Rot1(fl, row[j], row[j + n / 2], Theta(scale, p, j))
            && out0 * out0 + out1 * out1 == row[j] * row[j] + row[j + n / 2] * row[j + n / 2]
  {
    RotationNorm(fl, row[j], row[j + n / 2], Theta(scale, p, j));
  }

  /** Mixed NTK pairs adjacent elements 2m and 2m+1 and keeps their squared length. */
  lemma MixPairs(fl: FloatLib, invFreq: seq<real>, p: int, row: seq<real>, m: nat)
    requires |row| % 2 == 0 && |invFreq| >= |row| / 2 && 2 * m < |row|
    requires UnitAt(fl, MixTheta(invFreq, p, m))
    ensures var out0 := MixElem(fl, F32, invFreq, p, row, 2 * m);
            var out1 := MixElem(fl, F32, invFreq, p, row, 2 * m + 1);
            out0 * out0 + out1 * out1 == row[2 * m] * row[2 * m] + row[2 * m + 1] * row[2 * m + 1]
  {
    MixElemPair(fl, F32, invFreq, p, row, 2 * m);
    RotationNorm(fl, row[2 * m], row[2 * m + 1], MixTheta(invFreq, p, m));
  }

  /** Elements from n_dims on are copied unchanged by both dynamic variants. */
  lemma DynamicTailCopied(fl: FloatLib, n: int, scale: real, p: int, row: seq<real>, j: nat, oldv: real)
    requires j < |row| && n <= |row| && n % 2 == 0 && n <= j
    ensures DynamicElemF32(fl, n, scale, p, row, j) == row[j]
    ensures DynamicElemF16(fl, n, scale, p, row, j, oldv) == row[j]
  {
  }

  /** At position 0 every angle is 0, and a rotation by 0 is the identity. */
  lemma DynamicF32AtPositionZero(fl: FloatLib, n: int, scale: real, row: seq<real>, j: nat)
    requires j < |row| && n <= |row| && n % 2 == 0
    requires fl.cos(0.0) == 1.0 && fl.sin(0.0) == 0.0
    ensures DynamicElemF32(fl, n, scale, 0, row, j) == row[j]
  {
    if 0 < n && j < n {
      var step := if j < n / 2 then j else j - n / 2;
      assert Theta(scale, 0, step) == 0.0;
    }
  }

  lemma MixAtPositionZero(fl: FloatLib, invFreq: seq<real>, row: seq<real>, j: nat)
    requires j < |row| && |row| % 2 == 0 && |invFreq| >= |row| / 2
    requires fl.cos(0.0) == 1.0 && fl.sin(0.0) == 0.0
    ensures MixElem(fl, F32, invFreq, 0, row, j) == row[j]
  {
    assert MixTheta(invFreq, 0, j / 2) == 0.0;
    assert j % 2 == 0 ==> 2 * (j / 2) == j;
    assert j % 2 == 1 ==> 2 * (j / 2) + 1 == j;
  }

  /** Scaling by all-ones scales copies the source. */
  lemma MatScaleOnes(fl: FloatLib, sh: Shape, scales: seq<real>, r: nat, row: seq<real>, j: nat, oldv: real)
    requires Fits(MatScale(scales), sh) && r < sh.Rows() && |row| == sh.ne0 && j < sh.ne0
    requires forall i :: 0 <= i < |scales| ==> scales[i] == 1.0
    ensures ElemOut(MatScale(scales), F32, fl, sh, r, row, j, oldv) == row[j]
  {
    assert sh.ne1 > 0;
  }

  /**
   * Every kernel except the fp16 dynamic one writes every element: its
   * output does not depend on what the destination held before.
   */
  lemma OutputIgnoresOld(k: Kernel, typ: GgmlType, fl: FloatLib, sh: Shape, r: nat, row: seq<real>, j: nat, v: real, v': real)
    requires Accepts(k, typ, sh) && Fits(k, sh) && r < sh.Rows() && |row| == sh.ne0 && j < sh.ne0
    requires !(k.DynamicRope? && typ == F16)
    ensures ElemOut(k, typ, fl, sh, r, row, j, v) == ElemOut(k, typ, fl, sh, r, row, j, v')
  {
  }

  /**
   * fp16 dynamic NTK as written: for n >= 4 the elements n/2+1 .. n-1 keep
   * whatever the destination held.
   */
  lemma DynamicF16Unwritten(fl: FloatLib, n: int, scale: real, p: int, row: seq<real>, j: nat, oldv: real)
    requires j < |row| && n <= |row| && n % 2 == 0 && n / 2 < j < n
    ensures DynamicElemF16(fl, n, scale, p, row, j, oldv) == oldv
  {
  }

  /** The trivial float library: angles of 0 everywhere, exact fp16. */
  function IdentityLib(): FloatLib
  {
    FloatLib(_ => 1.0, _ => 0.0, (_, _) => 1.0, _ => 1.0, _ => 0.0, (_, _) => 1.0, x => x)
  }

  /**
   * A concrete input on which the fp16 dynamic kernel as written and the
   * fp32 one disagree: with n_dims = 4, row [1, 2, 3, 4], a destination of
   * zeros and rotations by 0, fp16 leaves [1, 2, 3, 0] where fp32 gives
   * [1, 2, 3, 4].
   */
  lemma DynamicF16Counterexample()
    ensures var fl := IdentityLib();
            var row := [1.0, 2.0, 3.0, 4.0];
            (forall j :: 0 <= j < 4 ==> DynamicElemF32(fl, 4, 1.0, 0, row, j) == row[j])
            && DynamicElemF16(fl, 4, 1.0, 0, row, 0, 0.0) == 1.0
            && DynamicElemF16(fl, 4, 1.0, 0, row, 1, 0.0) == 2.0
            && DynamicElemF16(fl, 4, 1.0, 0, row, 2, 0.0) == 3.0
            && DynamicElemF16(fl, 4, 1.0, 0, row, 3, 0.0) == 0.0
  {
    var fl := IdentityLib();
    var row := [1.0, 2.0, 3.0, 4.0];
    forall j | 0 <= j < 4 ensures DynamicElemF32(fl, 4, 1.0, 0, row, j) == row[j] {
      DynamicF32AtPositionZero(fl, 4, 1.0, row, j);
    }
    assert Theta(1.0, 0, 0) == 0.0 && Theta(1.0, 0, 1) == 0.0;
  }

  /**
   * The fp16 dynamic row as evidently intended: the half-offset pairing of
   * the fp32 kernel, with the rotated values rounded to fp16.
   */
  method DynamicRopeRowF16Corrected(fl: FloatLib, dst: array2<real>, r: nat, row: seq<real>, n: int, scale: real, p: int)
    requires r < dst.Length0 && |row| == dst.Length1
    requires |row| % 2 == 0 && n <= |row| && n % 2 == 0
    modifies dst
    ensures forall r', j :: 0 <= r' < dst.Length0 && 0 <= j < dst.Length1 ==>
              dst[r', j] == if r' != r then old(dst[r', j])
                            else if j < n then fl.toHalf(DynamicElemF32(fl, n, scale, p, row, j))
                            else DynamicElemF32(fl, n, scale, p, row, j)
  {
    DynamicRopeRow(fl, F16, dst, r, row, n, scale, p);
  }
}
