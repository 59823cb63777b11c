/**
 * The `<` comparison kernel of the expression engine: the scalar cases
 * (`eval_primitive` on integers, `eval_binary` on byte strings) and the
 * column cases for primitive and boolean columns in their three shapes
 * (vector/vector, vector/constant, constant/vector).
 *
 * A column is a sequence of its values; a boolean column is a `seq<bool>`.
 * The shared kernels the file calls but does not define (`compare_op`,
 * `compare_op_scalar` and the `>` kernel's `vector_const`) are taken to be
 * elementwise maps that keep the length; `CompareOp`, `CompareOpScalar` and
 * `BooleanGtVectorConst` state exactly that assumption.
 */
module ComparisonLt {
  import opened Primitives

  // ---------------------------------------------------------------------
  // Integer types and Rust's `as` between them
  // ---------------------------------------------------------------------

  datatype IntType = Int8 | Int16 | Int32 | Int64 | UInt8 | UInt16 | UInt32 | UInt64 {
    predicate Signed() {
      this in {Int8, Int16, Int32, Int64}
    }

    /** 2 to the power of the type's width. */
    function Modulus(): int {
      match this
      case Int8 | UInt8 => 0x100
      case Int16 | UInt16 => 0x1_0000
      case Int32 | UInt32 => 0x1_0000_0000
      case Int64 | UInt64 => 0x1_0000_0000_0000_0000
    }

    function Min(): int {
      if Signed() then -(Modulus() / 2) else 0
    }

    function Max(): int {
      if Signed() then Modulus() / 2 - 1 else Modulus() - 1
    }

    predicate Holds(x: int) {
      Min() <= x <= Max()
    }
  }

  /**
   * Rust's `x as t` for integer types: keep the low bits of `x`'s two's
   * complement form and read them as a value of `t`.
   */
  function AsCast(x: int, t: IntType): (y: int)
    ensures t.Holds(y)
    ensures y % t.Modulus() == x % t.Modulus()
  {
    var m := t.Modulus();
    var low := x % m;
    assert 0 <= low < m && low % m == low;
    if t.Signed() && low >= m / 2 then
      assert (low - m) % m == low;
      low - m
    else
      low
  }

  /** A cast to a type that holds the value leaves it unchanged. */
  lemma AsCastKeepsHeldValue(x: int, t: IntType)
    ensures t.Holds(x) ==> AsCast(x, t) == x
  {
  }

  /**
   * `ComparisonLtImpl::eval_primitive` on integers: both sides are cast to
   * the common type `m` and compared there. When `m` holds both values the
   * result is `l < r`.
   */
  function EvalPrimitive(l: int, lt: IntType, r: int, rt: IntType, m: IntType): (less: bool)
    requires lt.Holds(l) && rt.Holds(r)
    ensures m.Holds(l) && m.Holds(r) ==> (less <==> l < r)
  {
    AsCastKeepsHeldValue(l, m);
    AsCastKeepsHeldValue(r, m);
    AsCast(l, m) < AsCast(r, m)
  }

  /** `m` can represent every value of `t`. */
  predicate Widens(t: IntType, m: IntType) {
    m.Min() <= t.Min() && t.Max() <= m.Max()
  }

  /** When the common type widens both operand types, `eval_primitive` is `l < r` for all values. */
  lemma EvalPrimitiveUnderSupertype(l: int, lt: IntType, r: int, rt: IntType, m: IntType)
    requires lt.Holds(l) && rt.Holds(r)
    requires Widens(lt, m) && Widens(rt, m)
    ensures EvalPrimitive(l, lt, r, rt, m) == (l < r)
  {
  }

  /** Without that condition the cast can change the answer: `1 < 256` read in `u8` is `1 < 0`. */
  lemma EvalPrimitiveNeedsCommonType()
    ensures UInt8.Holds(1) && UInt16.Holds(256)
    ensures !EvalPrimitive(1, UInt8, 256, UInt16, UInt8)
  {
  }

  // ---------------------------------------------------------------------
  // Byte strings: `eval_binary`
  // ---------------------------------------------------------------------

  /**
   * `ComparisonLtImpl::eval_binary`: Rust's `<` on byte slices, compared
   * byte by byte, a shorter slice being smaller when all its bytes match.
   */
  function EvalBinary(l: seq<u8>, r: seq<u8>): (less: bool)
    ensures less ==> l != r && |r| > 0
  {
    if |l| == 0 then |r| > 0
    else if |r| == 0 then false
    else if l[0] != r[0] then l[0] < r[0]
    else EvalBinary(l[1..], r[1..])
  }

  /**
   * Lexicographic order stated outright: `l` is a proper prefix of `r`, or
   * the two agree up to some position where `l` has the smaller byte.
   */
  ghost predicate LexLess(l: seq<u8>, r: seq<u8>) {
    || (|l| < |r| && l == r[..|l|])
    || exists k :: 0 <= k < |l| && k < |r| && l[..k] == r[..k] && l[k] < r[k]
  }

  /** A common first byte keeps lexicographic order. */
  lemma LexLessConsIntro(a: u8, l: seq<u8>, r: seq<u8>)
    requires LexLess(l, r)
    ensures LexLess([a] + l, [a] + r)
  {
    var al, ar := [a] + l, [a] + r;
    if |l| < |r| && l == r[..|l|] {
      assert al == ar[..|al|];
    } else {
      var k :| 0 <= k < |l| && k < |r| && l[..k] == r[..k] && l[k] < r[k];
      assert al[..k + 1] == [a] + l[..k] && ar[..k + 1] == [a] + r[..k];
      assert al[k + 1] == l[k] && ar[k + 1] == r[k];
    }
  }

  /** Dropping a common first byte keeps lexicographic order. */
  lemma LexLessConsElim(a: u8, l: seq<u8>, r: seq<u8>)
    requires LexLess([a] + l, [a] + r)
    ensures LexLess(l, r)
  {
    var al, ar := [a] + l, [a] + r;
    if |al| < |ar| && al == ar[..|al|] {
      forall j | 0 <= j < |l| ensures l[j] == r[j] {
        assert l[j] == al[j + 1] == ar[..|al|][j + 1] == ar[j + 1];
      }
      assert l == r[..|l|];
    } else {
      var k :| 0 <= k < |al| && k < |ar| && al[..k] == ar[..k] && al[k] < ar[k];
      assert k > 0;
      forall j | 0 <= j < k - 1 ensures l[j] == r[j] {
        assert l[j] == al[..k][j + 1] && r[j] == ar[..k][j + 1];
      }
      assert l[..k - 1] == r[..k - 1];
      assert l[k - 1] == al[k] && r[k - 1] == ar[k];
    }
  }

  /** `eval_binary` is exactly lexicographic byte order. */
  lemma {:induction false} EvalBinaryIsLexicographic(l: seq<u8>, r: seq<u8>)
    ensures EvalBinary(l, r) <==> LexLess(l, r)
    decreases |l|
  {
    if |l| == 0 {
      assert |r| > 0 ==> l == r[..0];
    } else if |r| == 0 {
    } else if l[0] != r[0] {
      if l[0] < r[0] {
        assert l[..0] == r[..0];
      } else {
        // A common prefix of positive length would start with a common byte.
        forall k | 0 < k <= |l| && k <= |r|
          ensures l[..k][0] == l[0] && r[..k][0] == r[0]
        {
        }
      }
    } else {
      EvalBinaryIsLexicographic(l[1..], r[1..]);
      assert l == [l[0]] + l[1..] && r == [l[0]] + r[1..];
      if LexLess(l[1..], r[1..]) {
        LexLessConsIntro(l[0], l[1..], r[1..]);
      }
      if LexLess(l, r) {
        LexLessConsElim(l[0], l[1..], r[1..]);
      }
    }
  }

  lemma {:induction false} EvalBinaryIrreflexive(s: seq<u8>)
    ensures !EvalBinary(s, s)
    decreases |s|
  {
    if |s| > 0 {
      EvalBinaryIrreflexive(s[1..]);
    }
  }

  lemma {:induction false} EvalBinaryAsymmetric(a: seq<u8>, b: seq<u8>)
    requires EvalBinary(a, b)
    ensures !EvalBinary(b, a)
    decreases |a|
  {
    if |a| > 0 && |b| > 0 && a[0] == b[0] {
      EvalBinaryAsymmetric(a[1..], b[1..]);
    }
  }

  lemma {:induction false} EvalBinaryTransitive(a: seq<u8>, b: seq<u8>, c: seq<u8>)
    requires EvalBinary(a, b) && EvalBinary(b, c)
    ensures EvalBinary(a, c)
    decreases |a|
  {
    if |a| > 0 && a[0] == b[0] && b[0] == c[0] {
      EvalBinaryTransitive(a[1..], b[1..], c[1..]);
    }
  }

  /** Any two different byte strings are ordered one way or the other. */
  lemma {:induction false} EvalBinaryConnected(a: seq<u8>, b: seq<u8>)
    requires a != b
    ensures EvalBinary(a, b) || EvalBinary(b, a)
    decreases |a|
  {
    if |a| > 0 && |b| > 0 && a[0] == b[0] {
      assert a == [a[0]] + a[1..] && b == [b[0]] + b[1..];
      EvalBinaryConnected(a[1..], b[1..]);
    }
  }

  /** A proper prefix is less than any extension of it. */
  lemma {:induction false} EvalBinaryProperPrefix(p: seq<u8>, s: seq<u8>)
    requires |p| < |s| && p == s[..|p|]
    ensures EvalBinary(p, s)
    decreases |p|
  {
    if |p| > 0 {
      assert p[0] == s[0];
      assert p[1..] == s[1..][..|p| - 1];
      EvalBinaryProperPrefix(p[1..], s[1..]);
    }
  }

  // ---------------------------------------------------------------------
  // Shared column kernels (outside the modelled file; assumed elementwise)
  // ---------------------------------------------------------------------

  /** `compare_op`: applies `op` at each index of two equal-length columns. */
  function CompareOp<T>(lhs: seq<T>, rhs: seq<T>, op: (T, T) -> bool): (out: seq<bool>)
    requires |lhs| == |rhs|
    ensures |out| == |lhs|
    ensures forall i :: 0 <= i < |out| ==> out[i] == op(lhs[i], rhs[i])
  {
    seq(|lhs|, i requires 0 <= i < |lhs| => op(lhs[i], rhs[i]))
  }

  /** `compare_op_scalar`: applies `op` to each element of a column and one scalar. */
  function CompareOpScalar<T>(lhs: seq<T>, rhs: T, op: (T, T) -> bool): (out: seq<bool>)
    ensures |out| == |lhs|
    ensures forall i :: 0 <= i < |out| ==> out[i] == op(lhs[i], rhs)
  {
    seq(|lhs|, i requires 0 <= i < |lhs| => op(lhs[i], rhs))
  }

  /** `Bitmap::new_zeroed`: a column of `n` false values. */
  function NewZeroed(n: nat): (out: seq<bool>)
    ensures |out| == n && forall i :: 0 <= i < n ==> !out[i]
  {
    seq(n, _ => false)
  }

  /** The column `c, c, ..., c` of length `n`. */
  function Repeat<T>(c: T, n: nat): (out: seq<T>)
    ensures |out| == n && forall i :: 0 <= i < n ==> out[i] == c
  {
    seq(n, _ => c)
  }

  // ---------------------------------------------------------------------
  // Primitive columns: `PrimitiveSimdLt`
  // ---------------------------------------------------------------------

  /** `PrimitiveSimdLt::vector_vector`. */
  function PrimitiveVectorVector(lhs: seq<int>, rhs: seq<int>): (out: seq<bool>)
    requires |lhs| == |rhs|
    ensures |out| == |lhs|
    ensures forall i :: 0 <= i < |out| ==> out[i] == (lhs[i] < rhs[i])
  {
    CompareOp(lhs, rhs, (a: int, b: int) => a < b)
  }

  /** `PrimitiveSimdLt::vector_const`. */
  function PrimitiveVectorConst(lhs: seq<int>, rhs: int): (out: seq<bool>)
    ensures |out| == |lhs|
    ensures forall i :: 0 <= i < |out| ==> out[i] == (lhs[i] < rhs)
  {
    CompareOpScalar(lhs, rhs, (a: int, b: int) => a < b)
  }

  /** `PrimitiveSimdLt::const_vector`: swaps the operands and asks `>`. */
  function PrimitiveConstVector(lhs: int, rhs: seq<int>): (out: seq<bool>)
    ensures |out| == |rhs|
    ensures forall i :: 0 <= i < |out| ==> out[i] == (lhs < rhs[i])
  {
    CompareOpScalar(rhs, lhs, (a: int, b: int) => a > b)
  }

  /** The two constant shapes agree with vector/vector on a column of the constant. */
  lemma PrimitiveShapesAgree(c: int, col: seq<int>)
    ensures PrimitiveVectorConst(col, c) == PrimitiveVectorVector(col, Repeat(c, |col|))
    ensures PrimitiveConstVector(c, col) == PrimitiveVectorVector(Repeat(c, |col|), col)
  {
  }

  // ---------------------------------------------------------------------
  // Boolean columns: `BooleanSimdLt`
  // ---------------------------------------------------------------------

  /** Rust orders `bool` as `false < true`, i.e. as the numbers 0 and 1. */
  function BoolRank(b: bool): nat {
    if b then 1 else 0
  }

  predicate BoolLt(a: bool, b: bool) {
    BoolRank(a) < BoolRank(b)
  }

  /** The `>` kernel's `vector_const` (`BooleanSimdGt`): `a > c` at each index. */
  function BooleanGtVectorConst(lhs: seq<bool>, rhs: bool): (out: seq<bool>)
    ensures |out| == |lhs|
    ensures forall i :: 0 <= i < |out| ==> out[i] == BoolLt(rhs, lhs[i])
  {
    CompareOpScalar(lhs, rhs, (a: bool, b: bool) => a && !b)
  }

  /** `BooleanSimdLt::vector_vector`: `!a & b` is `a < b`. */
  function BooleanVectorVector(lhs: seq<bool>, rhs: seq<bool>): (out: seq<bool>)
    requires |lhs| == |rhs|
    ensures |out| == |lhs|
    ensures forall i :: 0 <= i < |out| ==> out[i] == BoolLt(lhs[i], rhs[i])
    ensures forall i :: 0 <= i < |out| ==> out[i] == (!lhs[i] && rhs[i])
  {
    CompareOp(lhs, rhs, (a: bool, b: bool) => !a && b)
  }

  /**
   * `BooleanSimdLt::vector_const`: against `true` the negated column,
   * against `false` a zeroed column (nothing is below `false`).
   */
  function BooleanVectorConst(lhs: seq<bool>, rhs: bool): (out: seq<bool>)
    ensures |out| == |lhs|
    ensures forall i :: 0 <= i < |out| ==> out[i] == BoolLt(lhs[i], rhs)
    ensures rhs ==> forall i :: 0 <= i < |out| ==> out[i] == !lhs[i]
    ensures !rhs ==> forall i :: 0 <= i < |out| ==> !out[i]
  {
    if rhs then CompareOpScalar(lhs, rhs, (a: bool, _: bool) => !a)
    else NewZeroed(|lhs|)
  }

  /** `BooleanSimdLt::const_vector`: `c < b` computed as `b > c` by the `>` kernel. */
  function BooleanConstVector(lhs: bool, rhs: seq<bool>): (out: seq<bool>)
    ensures |out| == |rhs|
    ensures forall i :: 0 <= i < |out| ==> out[i] == BoolLt(lhs, rhs[i])
  {
    BooleanGtVectorConst(rhs, lhs)
  }

  /** `false < true` is a strict total order on `bool`. */
  lemma BoolLtStrictOrder(a: bool, b: bool, c: bool)
    ensures !BoolLt(a, a)
    ensures BoolLt(a, b) ==> !BoolLt(b, a)
    ensures BoolLt(a, b) && BoolLt(b, c) ==> BoolLt(a, c)
    ensures a != b ==> BoolLt(a, b) || BoolLt(b, a)
  {
  }

  /** The two constant shapes agree with vector/vector on a column of the constant. */
  lemma BooleanShapesAgree(c: bool, col: seq<bool>)
    ensures BooleanVectorConst(col, c) == BooleanVectorVector(col, Repeat(c, |col|))
    ensures BooleanConstVector(c, col) == BooleanVectorVector(Repeat(c, |col|), col)
  {
  }
}
