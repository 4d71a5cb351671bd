/** The vector helpers of accel.c over exact real arithmetic: the
    accumulating sum, scaling by a scalar and the dot product. */
module VectorMath {

  /** A 3-axis accelerometer sample (`struct vec3`). */
  datatype Vec3 = Vec3(x: real, y: real, z: real)

  /** The zero vector, what `struct vec3 s = {}` starts from. */
  const Zero := Vec3(0.0, 0.0, 0.0)

  /** Componentwise addition, one `s.x += v->x` round of the sum loop. */
  function Add(u: Vec3, v: Vec3): Vec3
  {
    Vec3(u.x + v.x, u.y + v.y, u.z + v.z)
  }

  /** The sum of a sequence of vectors, accumulated from the first element on. */
  function SumOf(vs: seq<Vec3>): (r: Vec3)
    ensures vs == [] ==> r == Zero
    ensures |vs| == 1 ==> r == vs[0]
    decreases |vs|
  {
    if vs == [] then Zero else Add(SumOf(vs[..|vs| - 1]), vs[|vs| - 1])
  }

  /** `scale`: every component multiplied by a. */
  function Scale(v: Vec3, a: real): (r: Vec3)
    ensures a == 1.0 ==> r == v
    ensures a == 0.0 ==> r == Zero
  {
    Vec3(v.x * a, v.y * a, v.z * a)
  }

  /** `dot`: the sum of the componentwise products. A vector's dot product
      with itself, its squared magnitude, is never negative. */
  function Dot(a: Vec3, b: Vec3): (r: real)
    ensures a == b ==> r >= 0.0
  {
    a.x * b.x + a.y * b.y + a.z * b.z
  }

  /** The loop of `sum`: accumulates the first n vectors of v into s. */
  method Sum(v: array<Vec3>, n: nat) returns (s: Vec3)
    requires n <= v.Length
    ensures s == SumOf(v[..n])
    ensures n == 0 ==> s == Zero
  {
    s := Zero;
    var i := 0;
    while i < n
      invariant 0 <= i <= n
      invariant s == SumOf(v[..i])
    {
      assert v[..i + 1][..i] == v[..i];
      s := Vec3(s.x + v[i].x, s.y + v[i].y, s.z + v[i].z);
      i := i + 1;
    }
  }

  /** Summing is additive over concatenation. */
  lemma {:induction false} SumAppend(a: seq<Vec3>, b: seq<Vec3>)
    ensures SumOf(a + b) == Add(SumOf(a), SumOf(b))
    decreases |b|
  {
    if b == [] {
      assert a + b == a;
    } else {
      var b' := b[..|b| - 1];
      assert (a + b)[..|a + b| - 1] == a + b';
      SumAppend(a, b');
    }
  }

  /** Summing is invariant under the order of accumulation: adding the first
      element last gives the same vector. */
  lemma SumCons(v: Vec3, vs: seq<Vec3>)
    ensures SumOf([v] + vs) == Add(v, SumOf(vs))
  {
    SumAppend([v], vs);
    assert [v][..0] == [];
  }

  /** Scaling distributes over addition. */
  lemma ScaleAdd(u: Vec3, v: Vec3, a: real)
    ensures Scale(Add(u, v), a) == Add(Scale(u, a), Scale(v, a))
  {
    assert (u.x + v.x) * a == u.x * a + v.x * a;
    assert (u.y + v.y) * a == u.y * a + v.y * a;
    assert (u.z + v.z) * a == u.z * a + v.z * a;
  }

  /** Summing commutes with scaling every element by the same factor. */
  lemma {:induction false} SumScale(vs: seq<Vec3>, a: real)
    ensures SumOf(seq(|vs|, i requires 0 <= i < |vs| => Scale(vs[i], a))) == Scale(SumOf(vs), a)
    decreases |vs|
  {
    var scaled := seq(|vs|, i requires 0 <= i < |vs| => Scale(vs[i], a));
    if vs != [] {
      var init := vs[..|vs| - 1];
      var scaledInit := seq(|init|, i requires 0 <= i < |init| => Scale(init[i], a));
      SumScale(init, a);
      assert scaled[..|scaled| - 1] == scaledInit;
      assert SumOf(scaled) == Add(SumOf(scaledInit), Scale(vs[|vs| - 1], a));
      ScaleAdd(SumOf(init), vs[|vs| - 1], a);
    }
  }

  /** Scaling is additive in the factor. */
  lemma ScaleAddFactor(v: Vec3, a: real, c: real)
    ensures Scale(v, a + c) == Add(Scale(v, a), Scale(v, c))
  {
  }

  /** Scaling twice is scaling once by the product of the factors. */
  lemma ScaleScale(v: Vec3, a: real, c: real)
    ensures Scale(Scale(v, a), c) == Scale(v, a * c)
  {
  }

  lemma DotScaleLeft(v: Vec3, w: Vec3, a: real)
    ensures Dot(Scale(v, a), w) == a * Dot(v, w)
  {
  }

  lemma DotScaleRight(v: Vec3, w: Vec3, a: real)
    ensures Dot(v, Scale(w, a)) == a * Dot(v, w)
  {
  }

  lemma DotAddLeft(u: Vec3, v: Vec3, w: Vec3)
    ensures Dot(Add(u, v), w) == Dot(u, w) + Dot(v, w)
  {
  }

  lemma DotAddRight(u: Vec3, v: Vec3, w: Vec3)
    ensures Dot(u, Add(v, w)) == Dot(u, v) + Dot(u, w)
  {
  }

  lemma DotSymmetric(v: Vec3, w: Vec3)
    ensures Dot(v, w) == Dot(w, v)
  {
  }
}
