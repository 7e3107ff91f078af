/** The per-sample test of the output renderer: a sample of RxBuffer is an
    edge when its magnitude is strictly above EDGE_CUTOFF. The program computes
    the magnitude as `(val < 0) ? -val : val` on a 32-bit C int; that
    expression is modelled here as written and beside it as intended. */
module EdgeThreshold {

  const INT32_MIN: int := -0x8000_0000
  const INT32_MAX: int := 0x7fff_ffff
  const TWO_TO_32: int := 0x1_0000_0000

  /** An element of RxBuffer (C `int`, 32 bits on the target). */
  type Int32 = x: int | INT32_MIN <= x <= INT32_MAX

  const EDGE_CUTOFF: int := 100

  /** The mathematical absolute value, the reference for both readings below. */
  function Magnitude(v: int): nat
  {
    if v < 0 then -v else v
  }

  /** Reduction into 32-bit two's complement: the value a 32-bit register
      holds after an arithmetic result that does not fit. */
  function Wrap32(x: int): (r: Int32)
    ensures (x - r) % TWO_TO_32 == 0
    ensures INT32_MIN <= x <= INT32_MAX ==> r == x
  {
    var m := (x - INT32_MIN) % TWO_TO_32;
    assert x - INT32_MIN == (x - INT32_MIN) / TWO_TO_32 * TWO_TO_32 + m;
    m + INT32_MIN
  }

  /** `abs_val` as the program computes it: the negation is done in 32 bits,
      so the one sample whose negation does not fit, INT32_MIN, wraps to itself. */
  function AbsAsWritten(v: Int32): (r: Int32)
    ensures (r - Magnitude(v)) % TWO_TO_32 == 0
    ensures v != INT32_MIN ==> r == Magnitude(v)
    ensures v == INT32_MIN ==> r == INT32_MIN
  {
    if v < 0 then Wrap32(-(v as int)) else v
  }

  /** `abs_val > 100` on the value the program computes: every sample above
      100 or below -100 except INT32_MIN. */
  predicate ActiveAsWritten(v: Int32): (r: bool)
    ensures r <==> v > EDGE_CUTOFF || (v < -EDGE_CUTOFF && v != INT32_MIN)
  {
    AbsAsWritten(v) > EDGE_CUTOFF
  }

  /** The threshold as intended, on the true magnitude: strict, so that 100
      and -100 are not edges, and symmetric in the sign of the sample. */
  function Active(v: Int32): (r: bool)
    ensures r <==> v > EDGE_CUTOFF || v < -EDGE_CUTOFF
  {
    Magnitude(v) > EDGE_CUTOFF
  }

  /** Away from INT32_MIN the computed abs_val is non-negative, is the sample
      or its negation, and equals the true magnitude; so the computed test
      agrees with the intended one. */
  lemma AbsAsWrittenAgrees(v: Int32)
    requires v != INT32_MIN
    ensures AbsAsWritten(v) >= 0
    ensures AbsAsWritten(v) == v || AbsAsWritten(v) == -v
    ensures AbsAsWritten(v) == Magnitude(v)
    ensures ActiveAsWritten(v) == Active(v)
  {
    if v < 0 {
      assert INT32_MIN <= -v <= INT32_MAX;
    }
  }

  /** At INT32_MIN the computed abs_val is negative, so the sample renders
      blank although its magnitude, 2^31, is far above the cutoff. */
  lemma IntMinMisclassified()
    ensures AbsAsWritten(INT32_MIN) == INT32_MIN < 0
    ensures !ActiveAsWritten(INT32_MIN) && Active(INT32_MIN)
  {
    var r := Wrap32(-INT32_MIN);
    assert (-INT32_MIN - r) % TWO_TO_32 == 0;
  }

  /** The two readings differ on exactly one sample value. */
  lemma AsWrittenDiffersOnlyAtIntMin(v: Int32)
    ensures ActiveAsWritten(v) != Active(v) <==> v == INT32_MIN
  {
    if v == INT32_MIN {
      IntMinMisclassified();
    } else {
      AbsAsWrittenAgrees(v);
    }
  }
}
