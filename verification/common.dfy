/** Shared vocabulary of the model: optional and fallible results, the C
    conversions the kernels apply to their inputs, and sums of samples. */
module Common {

  datatype Option<+T> = None | Some(value: T)

  /** A Python function either returns a value or raises; `Err` carries the
      name of the exception. */
  datatype Result<+T> = Ok(value: T) | Err(error: string)

  const TWO_POW_31: int := 0x8000_0000
  const TWO_POW_32: int := 0x1_0000_0000

  /** The C conversion `(int)d` of a double whose value fits in an int:
      truncation toward zero (not Dafny's floor). */
  function TruncToInt(d: real): (t: int)
    ensures 0.0 <= d ==> 0 <= t && t as real <= d < t as real + 1.0
    ensures d < 0.0 ==> t <= 0 && t as real - 1.0 < d <= t as real
  {
    if 0.0 <= d then d.Floor else -((-d).Floor)
  }

  /** The C conversion `(int)u` of a 64-bit unsigned value on a two's
      complement machine: the low 32 bits, read as a signed number. */
  function Int32Wrap(u: nat): (r: int)
    ensures -TWO_POW_31 <= r < TWO_POW_31
    ensures (u - r) % TWO_POW_32 == 0
    ensures u < TWO_POW_31 ==> r == u
  {
    var low := u % TWO_POW_32;
    if low < TWO_POW_31 then low else low - TWO_POW_32
  }

  /** Left-to-right sum, the order in which the C loops accumulate. */
  function Sum(s: seq<real>): real
  {
    if |s| == 0 then 0.0 else Sum(s[..|s| - 1]) + s[|s| - 1]
  }

  lemma {:induction false} SumOfZeros(s: seq<real>)
    requires forall k :: 0 <= k < |s| ==> s[k] == 0.0
    ensures Sum(s) == 0.0
  {
    if |s| > 0 {
      SumOfZeros(s[..|s| - 1]);
    }
  }

  /** Subtracting a constant from every term subtracts it |s| times from the sum. */
  lemma {:induction false} SumShift(s: seq<real>, t: seq<real>, m: real)
    requires |t| == |s|
    requires forall k :: 0 <= k < |s| ==> t[k] == s[k] - m
    ensures Sum(t) == Sum(s) - (|s| as real) * m
  {
    if |s| > 0 {
      var n := |s| - 1;
      SumShift(s[..n], t[..n], m);
      assert (n as real + 1.0) * m == (n as real) * m + m;
    }
  }

  /** Dividing every term by a constant divides the sum by it. */
  lemma {:induction false} SumScale(s: seq<real>, t: seq<real>, d: real)
    requires d != 0.0
    requires |t| == |s|
    requires forall k :: 0 <= k < |s| ==> t[k] == s[k] / d
    ensures Sum(t) == Sum(s) / d
  {
    if |s| > 0 {
      var n := |s| - 1;
      SumScale(s[..n], t[..n], d);
      DivAdd(Sum(s[..n]), s[n], d);
    }
  }

  /** Summing a sequence term by term against another whose terms differ
      by a fixed offset and scale: Sum((s[k] - m) / d) == (Sum(s) - |s| m) / d. */
  lemma SumShiftScale(s: seq<real>, t: seq<real>, m: real, d: real)
    requires d != 0.0
    requires |t| == |s|
    requires forall k :: 0 <= k < |s| ==> t[k] == (s[k] - m) / d
    ensures Sum(t) == (Sum(s) - (|s| as real) * m) / d
  {
    var u := seq(|s|, k requires 0 <= k < |s| => s[k] - m);
    SumShift(s, u, m);
    assert forall k :: 0 <= k < |s| ==> t[k] == u[k] / d;
    SumScale(u, t, d);
  }

  lemma DivAdd(a: real, b: real, d: real)
    requires d != 0.0
    ensures a / d + b / d == (a + b) / d
  {
  }

  // Index arithmetic used by the flat buffers of the kernels.

  lemma RowMajorBound(a: nat, b: nat, rows: nat, width: nat)
    requires a < rows && b < width
    ensures a * width + b < rows * width
    ensures a * width + width <= rows * width
  {
    assert (a + 1) * width <= rows * width by {
      assert a + 1 <= rows;
    }
  }

  /** A row-major position determines its row and column. */
  lemma RowMajorUnique(a: nat, b: nat, a': nat, b': nat, width: nat)
    requires b < width && b' < width
    requires a * width + b == a' * width + b'
    ensures a == a' && b == b'
  {
    if a < a' {
      assert (a + 1) * width == a * width + width;
      MulRightMono(a + 1, a', width);
    } else if a' < a {
      assert (a' + 1) * width == a' * width + width;
      MulRightMono(a' + 1, a, width);
    }
  }

  /** The same for two nested levels of rows. */
  lemma NestedRowMajorUnique(a: nat, b: nat, c: nat, a': nat, b': nat, c': nat, w1: nat, w2: nat)
    requires b < w1 && b' < w1 && c < w2 && c' < w2
    requires (a * w1 + b) * w2 + c == (a' * w1 + b') * w2 + c'
    ensures a == a' && b == b' && c == c'
  {
    RowMajorUnique(a * w1 + b, c, a' * w1 + b', c', w2);
    RowMajorUnique(a, b, a', b', w1);
  }

  /** The same for three nested levels of rows. */
  lemma MixedRadixUnique(a: nat, b: nat, c: nat, d: nat, a': nat, b': nat, c': nat, d': nat,
                         w1: nat, w2: nat, w3: nat)
    requires b < w1 && b' < w1 && c < w2 && c' < w2 && d < w3 && d' < w3
    requires ((a * w1 + b) * w2 + c) * w3 + d == ((a' * w1 + b') * w2 + c') * w3 + d'
    ensures a == a' && b == b' && c == c' && d == d'
  {
    NestedRowMajorUnique(a * w1 + b, c, d, a' * w1 + b', c', d', w2, w3);
    RowMajorUnique(a, b, a', b', w1);
  }

  /** Splitting a position below `rows * width` into row and column. */
  lemma DivModBound(q: nat, rows: nat, width: nat)
    requires q < rows * width
    ensures width > 0 && q / width < rows && q % width < width
    ensures q == (q / width) * width + q % width
  {
    if q / width >= rows {
      MulRightMono(rows, q / width, width);
    }
  }

  lemma MulAssoc(a: int, b: int, c: int, d: int)
    ensures a * (b * (c * d)) == a * b * c * d
  {
  }

  lemma MulRightMono(a: nat, b: nat, c: nat)
    requires a <= b
    ensures a * c <= b * c
  {
  }
}
