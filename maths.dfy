/** Value types shared by the scene and the renderer: vectors and colours over
    the reals, and the fixed-width integers the source stores. */
module Maths {

  /** An `unsigned char`, used for material indices. */
  newtype byte = x: int | 0 <= x < 256

  /** A packed 32-bit surface pixel. */
  newtype Pixel = x: int | 0 <= x < 0x1_0000_0000

  datatype Vector3 = Vector3(x: real, y: real, z: real)

  const Zero: Vector3 := Vector3(0.0, 0.0, 0.0)

  function Plus(a: Vector3, b: Vector3): Vector3 {
    Vector3(a.x + b.x, a.y + b.y, a.z + b.z)
  }

  function Times(a: Vector3, s: real): Vector3 {
    Vector3(a.x * s, a.y * s, a.z * s)
  }

  function Dot(a: Vector3, b: Vector3): real {
    a.x * b.x + a.y * b.y + a.z * b.z
  }

  datatype ColorRGB = ColorRGB(r: real, g: real, b: real)

  const Black: ColorRGB := ColorRGB(0.0, 0.0, 0.0)

  function Add(a: ColorRGB, b: ColorRGB): ColorRGB {
    ColorRGB(a.r + b.r, a.g + b.g, a.b + b.b)
  }

  lemma AddAssociates(a: ColorRGB, b: ColorRGB, c: ColorRGB)
    ensures Add(Add(a, b), c) == Add(a, Add(b, c))
  {
  }

  /** `f(x0) + f(x1) + ...`, summed first to last from black. */
  function Sum<T>(f: T -> ColorRGB, xs: seq<T>): ColorRGB
    decreases |xs|
  {
    if xs == [] then Black else Add(Sum(f, xs[..|xs| - 1]), f(xs[|xs| - 1]))
  }

  /** The elements of `xs` that `keep` accepts, in order. */
  function Filter<T>(keep: T -> bool, xs: seq<T>): seq<T>
    decreases |xs|
  {
    if xs == [] then [] else Filter(keep, xs[..|xs| - 1]) + if keep(xs[|xs| - 1]) then [xs[|xs| - 1]] else []
  }

  /** An element is kept iff it is in `xs` and `keep` accepts it. */
  lemma {:induction false} FilterMembers<T>(keep: T -> bool, xs: seq<T>, y: T)
    ensures y in Filter(keep, xs) <==> y in xs && keep(y)
    decreases |xs|
  {
    if xs != [] {
      var n := |xs| - 1;
      FilterMembers(keep, xs[..n], y);
      assert y in xs <==> y in xs[..n] || y == xs[n] by {
        assert xs == xs[..n] + [xs[n]];
      }
    }
  }

  /** Summing `f` where it is black off `keep` and `g` on it is summing `g`
      over the elements `keep` accepts. */
  lemma {:induction false} SumFilter<T>(f: T -> ColorRGB, g: T -> ColorRGB, keep: T -> bool, xs: seq<T>)
    requires forall x :: f(x) == if keep(x) then g(x) else Black
    ensures Sum(f, xs) == Sum(g, Filter(keep, xs))
    decreases |xs|
  {
    if xs != [] {
      var n := |xs| - 1;
      var pre, x := xs[..n], xs[n];
      SumFilter(f, g, keep, pre);
      var kept := Filter(keep, pre);
      assert Sum(f, xs) == Add(Sum(f, pre), f(x));
      if keep(x) {
        assert Filter(keep, xs) == kept + [x];
        assert (kept + [x])[..|kept + [x]| - 1] == kept;
        assert Sum(g, kept + [x]) == Add(Sum(g, kept), g(x));
      } else {
        assert Filter(keep, xs) == kept + [] == kept;
        assert f(x) == Black;
      }
    }
  }

  /** Summing two lists in turn is adding their sums. */
  lemma {:induction false} SumAppend<T>(f: T -> ColorRGB, xs: seq<T>, ys: seq<T>)
    ensures Sum(f, xs + ys) == Add(Sum(f, xs), Sum(f, ys))
    decreases |ys|
  {
    if ys == [] {
      assert xs + ys == xs;
    } else {
      var n := |ys| - 1;
      assert (xs + ys)[..|xs + ys| - 1] == xs + ys[..n];
      assert (xs + ys)[|xs + ys| - 1] == ys[n];
      SumAppend(f, xs, ys[..n]);
      AddAssociates(Sum(f, xs), Sum(f, ys[..n]), f(ys[n]));
    }
  }

  /** Component-wise product, the `*` of two colours. */
  function Mul(a: ColorRGB, b: ColorRGB): ColorRGB {
    ColorRGB(a.r * b.r, a.g * b.g, a.b * b.b)
  }

  function Scale(a: ColorRGB, s: real): ColorRGB {
    ColorRGB(a.r * s, a.g * s, a.b * s)
  }

  function Grey(v: real): ColorRGB {
    ColorRGB(v, v, v)
  }

  /** `std::max(x, 0.0f)`: the clamped cosine term. */
  function ClampToZero(x: real): (r: real)
    ensures r >= 0.0 && r >= x
    ensures r == x || r == 0.0
  {
    if x > 0.0 then x else 0.0
  }

  /** C++ `%` on `int`: the remainder truncates toward zero, so it takes the
      sign of the dividend (Dafny's `%` is Euclidean). */
  function TruncRem(a: int, m: int): (r: int)
    requires m > 0
    ensures a >= 0 ==> 0 <= r < m && r == a % m
    ensures a < 0 ==> -m < r <= 0
  {
    if a >= 0 then a % m else -((-a) % m)
  }
}
