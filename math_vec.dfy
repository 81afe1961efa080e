/**
 * `util::math::Vec<T, Count>` over an integer element type: a fixed-size array with
 * element-wise arithmetic against a scalar or another vector of the same size.
 *
 * The four private helpers `add`, `sub`, `mul` and `div` differ only in the operator
 * applied to each element, so one `Op` parameter selects it. Division is C++ integer
 * division, which truncates toward zero.
 */
module MathVec {

  datatype Op = Add | Sub | Mul | Div

  function Abs(x: int): nat
  {
    if x < 0 then -x else x
  }

  /** C++ `/` on integers: the quotient of the magnitudes, negated when the signs differ. */
  function Quot(a: int, b: int): int
    requires b != 0
  {
    var q := Abs(a) / Abs(b);
    if (a < 0) == (b < 0) then q else -q
  }

  /** `elem op= value` for one element. */
  function Apply(op: Op, a: int, b: int): int
    requires op == Div ==> b != 0
  {
    match op
    case Add => a + b
    case Sub => a - b
    case Mul => a * b
    case Div => Quot(a, b)
  }

  /** The divisors are non-zero when the operation is a division (integer division by zero is undefined). */
  predicate Divisible(op: Op, w: seq<int>)
  {
    op == Div ==> forall k :: 0 <= k < |w| ==> w[k] != 0
  }

  /** The vector form: component `k` combined with component `k` of the other vector. */
  function Zip(op: Op, v: seq<int>, w: seq<int>): (r: seq<int>)
    requires |v| == |w| && Divisible(op, w)
    ensures |r| == |v|
  {
    seq(|v|, k requires 0 <= k < |v| => Apply(op, v[k], w[k]))
  }

  /** The scalar form: every component combined with the same value. */
  function Broadcast(op: Op, v: seq<int>, value: int): (r: seq<int>)
    requires op == Div ==> value != 0
    ensures |r| == |v|
  {
    seq(|v|, k requires 0 <= k < |v| => Apply(op, v[k], value))
  }

  /** The truncating quotient leaves a remainder smaller than the divisor and with the dividend's sign. */
  lemma QuotTruncates(a: int, b: int)
    requires b != 0
    ensures var r := a - Quot(a, b) * b;
      Abs(r) < Abs(b) && (r == 0 || (r < 0) == (a < 0))
    ensures Abs(Quot(a, b)) * Abs(b) <= Abs(a)
  {
    var q, m, d := Abs(a) / Abs(b), Abs(a) % Abs(b), Abs(b);
    assert Abs(a) == q * d + m && 0 <= m < d;
    SignCase(Quot(a, b), b, q, d, a < 0);
  }

  /** The sign rule for `x * b` when `x` is `q` or `-q` and `b` is `d` or `-d`. */
  lemma SignCase(x: int, b: int, q: int, d: int, negative: bool)
    requires q >= 0 && d == Abs(b) && x == (if negative == (b < 0) then q else -q)
    ensures x * b == (if negative then -(q * d) else q * d) && Abs(x) == q
  {
    SignedProducts(q, d);
    if b >= 0 {
      assert b == d;
    } else {
      assert b == -d;
    }
  }

  lemma SignedProducts(x: int, y: int)
    ensures (-x) * y == -(x * y) && x * (-y) == -(x * y) && (-x) * (-y) == x * y
  {
  }

  lemma NegateFactor(x: int, y: int)
    ensures (-x) * y == -(x * y) && x * (-y) == -(x * y)
  {
  }

  /** Dividing an exact multiple gives the factor back, whatever the signs. */
  lemma QuotOfProduct(a: int, b: int)
    requires b != 0
    ensures Quot(a * b, b) == a
  {
    var p := a * b;
    assert Abs(p) == Abs(a) * Abs(b) by {
      if a < 0 && b < 0 { assert p == (-a) * (-b); }
      else if a < 0 { assert -p == (-a) * b; }
      else if b < 0 { assert -p == a * (-b); }
    }
    assert Abs(p) / Abs(b) == Abs(a) by {
      MultipleDivides(Abs(a), Abs(b));
    }
    if a != 0 {
      assert (p < 0) == ((a < 0) != (b < 0)) by {
        if a > 0 && b > 0 { MulPositive(a, b); }
        else if a > 0 { MulPositive(a, -b); assert p == -(a * -b); }
        else if b > 0 { MulPositive(-a, b); assert p == -((-a) * b); }
        else { MulPositive(-a, -b); assert p == (-a) * (-b); }
      }
    }
  }

  lemma MulPositive(a: int, b: int)
    requires a > 0 && b > 0
    ensures a * b > 0
  {
  }

  lemma MultipleDivides(a: nat, b: nat)
    requires b > 0
    ensures (a * b) / b == a
  {
    var q := (a * b) / b;
    var m := (a * b) % b;
    assert (a - q) * b == m;
    if a - q >= 1 {
      MulAtLeast(a - q, b);
    } else if a - q <= -1 {
      MulAtLeast(q - a, b);
      NegateFactor(q - a, b);
    }
  }

  lemma MulAtLeast(d: int, b: nat)
    requires d >= 1
    ensures d * b >= b
  {
    assert d * b == (d - 1) * b + b;
  }

  /** Adding and then subtracting the same vector restores the vector. */
  lemma SubUndoesAdd(v: seq<int>, w: seq<int>)
    requires |v| == |w|
    ensures Zip(Sub, Zip(Add, v, w), w) == v
  {
  }

  /** Multiplying and then dividing by the same non-zero vector restores the vector. */
  lemma DivUndoesMul(v: seq<int>, w: seq<int>)
    requires |v| == |w| && Divisible(Div, w)
    ensures Zip(Div, Zip(Mul, v, w), w) == v
  {
    forall k | 0 <= k < |v|
      ensures Zip(Div, Zip(Mul, v, w), w)[k] == v[k]
    {
      QuotOfProduct(v[k], w[k]);
    }
  }

  /** Adding and then subtracting, or multiplying and then dividing by, the same scalar restores the vector. */
  lemma ScalarInverses(v: seq<int>, s: int)
    ensures Broadcast(Sub, Broadcast(Add, v, s), s) == v
    ensures s != 0 ==> Broadcast(Div, Broadcast(Mul, v, s), s) == v
  {
    if s != 0 {
      forall k | 0 <= k < |v|
        ensures Broadcast(Div, Broadcast(Mul, v, s), s)[k] == v[k]
      {
        QuotOfProduct(v[k], s);
      }
    }
  }

  /** The scalar form is the vector form against a vector with every component equal to the scalar. */
  lemma BroadcastIsZipWithConstant(op: Op, v: seq<int>, s: int)
    requires op == Div ==> s != 0
    ensures var c := seq(|v|, _ => s); |c| == |v| && Divisible(op, c) && Broadcast(op, v, s) == Zip(op, v, c)
  {
  }

  /** A vector of `Count` integers, `m_data`; `Count` is `data.Length`. */
  class Vec {
    const data: array<int>

    /** `Vec(Args... args)`: exactly `Count` arguments, stored in order. */
    constructor (args: seq<int>)
      ensures fresh(data) && data[..] == args
    {
      data := new int[|args|](k requires 0 <= k < |args| => args[k]);
    }

    /** `add`, `sub`, `mul` and `div` with a scalar, and so `+=`, `-=`, `*=`, `/=` with a scalar. */
    method ApplyScalar(op: Op, value: int)
      requires op == Div ==> value != 0
      modifies data
      ensures data[..] == Broadcast(op, old(data[..]), value)
    {
      for i := 0 to data.Length
        invariant forall k :: 0 <= k < i ==> data[k] == Apply(op, old(data[k]), value)
        invariant forall k :: i <= k < data.Length ==> data[k] == old(data[k])
      {
        data[i] := Apply(op, data[i], value);
      }
    }

    /**
     * `add`, `sub`, `mul` and `div` with a vector, and so `+=`, `-=`, `*=`, `/=` with a vector.
     * `other` may be this very vector: each element is read before it is written.
     */
    method ApplyVector(op: Op, other: Vec)
      requires other.data.Length == data.Length && Divisible(op, other.data[..])
      modifies data
      ensures data[..] == Zip(op, old(data[..]), old(other.data[..]))
    {
      for i := 0 to data.Length
        invariant forall k :: 0 <= k < i ==> data[k] == Apply(op, old(data[k]), old(other.data[k]))
        invariant forall k :: i <= k < data.Length ==> data[k] == old(data[k])
        invariant forall k :: i <= k < data.Length ==> other.data[k] == old(other.data[k])
      {
        data[i] := Apply(op, data[i], other.data[i]);
      }
    }

    /** The by-value copy a binary operator takes of its left operand. */
    method Copy() returns (r: Vec)
      ensures fresh(r) && fresh(r.data) && r.data[..] == data[..]
    {
      r := new Vec(data[..]);
    }

    /** `lhs op rhs` for two vectors: a new vector; neither operand changes. */
    method Binary(op: Op, rhs: Vec) returns (r: Vec)
      requires rhs.data.Length == data.Length && Divisible(op, rhs.data[..])
      ensures fresh(r) && fresh(r.data)
      ensures r.data[..] == Zip(op, data[..], rhs.data[..])
    {
      r := Copy();
      r.ApplyVector(op, rhs);
    }

    /** `lhs op value` for a vector and a scalar: a new vector; the operand does not change. */
    method BinaryScalar(op: Op, value: int) returns (r: Vec)
      requires op == Div ==> value != 0
      ensures fresh(r) && fresh(r.data)
      ensures r.data[..] == Broadcast(op, data[..], value)
    {
      r := Copy();
      r.ApplyScalar(op, value);
    }

    /** `pop`: a value-initialised vector of `Count - 1` components into which the first `Count - 1` are copied. */
    method Pop() returns (r: Vec)
      requires data.Length >= 1
      ensures fresh(r) && fresh(r.data)
      ensures r.data[..] == data[..data.Length - 1]
    {
      var n := data.Length - 1;
      r := new Vec(seq(n, _ => 0));
      for i := 0 to n
        invariant forall k :: 0 <= k < i ==> r.data[k] == data[k]
      {
        r.data[i] := data[i];
      }
    }

    /** `set(args...)`: exactly `Count` arguments replace every component, in order. */
    method Set(args: seq<int>)
      requires |args| == data.Length
      modifies data
      ensures data[..] == args
    {
      forall k | 0 <= k < data.Length {
        data[k] := args[k];
      }
    }

    /** The component aliases: `x`, `y`, `z`, `w` need at least 1, 2, 3, 4 components. */
    function X(): int
      reads this, data
      requires 1 <= data.Length
    {
      data[0]
    }

    function Y(): int
      reads this, data
      requires 2 <= data.Length
    {
      data[1]
    }

    function Z(): int
      reads this, data
      requires 3 <= data.Length
    {
      data[2]
    }

    function W(): int
      reads this, data
      requires 4 <= data.Length
    {
      data[3]
    }

    /** The colour aliases `r`, `g`, `b` and `a` forward to `x`, `y`, `z` and `w`. */
    function R(): int
      reads this, data
      requires 1 <= data.Length
    {
      X()
    }

    function G(): int
      reads this, data
      requires 2 <= data.Length
    {
      Y()
    }

    function B(): int
      reads this, data
      requires 3 <= data.Length
    {
      Z()
    }

    function A(): int
      reads this, data
      requires 4 <= data.Length
    {
      W()
    }
  }

  /** The aliases name components 0 to 3 in order, and the colour aliases agree with the spatial ones. */
  lemma AliasesAgree(v: Vec)
    requires 4 <= v.data.Length
    ensures [v.X(), v.Y(), v.Z(), v.W()] == v.data[..4]
    ensures v.R() == v.X() && v.G() == v.Y() && v.B() == v.Z() && v.A() == v.W()
  {
  }
}
