/** The numeric part of `main` in accel.c that needs no square root:
    the projection of every sample onto the gravity direction, and what
    the whole chain (sum, projection, bandpass, step counting) does on a
    recording of identical samples. */
module Pipeline {
  import opened VectorMath
  import Filter
  import StepCounter

  /** The vertical signal: each sample's component along g, in recording order. */
  function Project(data: seq<Vec3>, g: Vec3): (vert: seq<real>)
    ensures |vert| == |data|
    ensures forall i :: 0 <= i < |data| ==> vert[i] == Dot(data[i], g)
  {
    seq(|data|, i requires 0 <= i < |data| => Dot(data[i], g))
  }

  /** The projection loop of `main`: vert[i] := dot(data[i], g) for i < dataLen. */
  method ProjectOnto(data: array<Vec3>, dataLen: nat, g: Vec3, vert: array<real>)
    requires dataLen <= data.Length && dataLen <= vert.Length
    modifies vert
    ensures vert[..dataLen] == Project(data[..dataLen], g)
    ensures forall i :: 0 <= i < dataLen ==> vert[i] == Dot(data[i], g)
    ensures vert[dataLen..] == old(vert[dataLen..])
  {
    for i := 0 to dataLen
      invariant forall k :: 0 <= k < i ==> vert[k] == Dot(data[k], g)
      invariant forall k :: dataLen <= k < vert.Length ==> vert[k] == old(vert[k])
    {
      vert[i] := Dot(data[i], g);
    }
  }

  /** The sum of a scalar signal, accumulated from the first sample on. */
  function Total(xs: seq<real>): real
    decreases |xs|
  {
    if xs == [] then 0.0 else Total(xs[..|xs| - 1]) + xs[|xs| - 1]
  }

  /** Projecting preserves length and order across concatenation. */
  lemma ProjectAppend(a: seq<Vec3>, b: seq<Vec3>, g: Vec3)
    ensures Project(a + b, g) == Project(a, g) + Project(b, g)
  {
    var lhs, rhs := Project(a + b, g), Project(a, g) + Project(b, g);
    forall k | 0 <= k < |lhs|
      ensures lhs[k] == rhs[k]
    {
      if k < |a| {
        assert (a + b)[k] == a[k];
      } else {
        assert (a + b)[k] == b[k - |a|];
      }
    }
  }

  /** The projected signal sums to the projection of the summed samples:
      projection commutes with the gravity sum. */
  lemma {:induction false} ProjectTotal(data: seq<Vec3>, g: Vec3)
    ensures Total(Project(data, g)) == Dot(SumOf(data), g)
    decreases |data|
  {
    if data != [] {
      var n := |data| - 1;
      var init := data[..n];
      ProjectTotal(init, g);
      assert Project(data, g)[..n] == Project(init, g);
      DotAddLeft(SumOf(init), data[n], g);
    }
  }

  /** With g = scale(s, a), as `main` builds it with a = 1/|s|, each
      vertical sample is a times the sample's dot product with s. */
  lemma ProjectScaled(data: seq<Vec3>, s: Vec3, a: real)
    ensures forall i :: 0 <= i < |data| ==> Project(data, Scale(s, a))[i] == a * Dot(data[i], s)
  {
    forall i | 0 <= i < |data|
      ensures Project(data, Scale(s, a))[i] == a * Dot(data[i], s)
    {
      DotScaleRight(data[i], s, a);
    }
  }

  /** The sum of n copies of v is v scaled by n. */
  lemma {:induction false} SumOfCopies(n: nat, v: Vec3)
    ensures SumOf(seq(n, _ => v)) == Scale(v, n as real)
  {
    if n > 0 {
      SumOfCopies(n - 1, v);
      assert seq(n, _ => v)[..n - 1] == seq(n - 1, _ => v);
    }
  }

  /** n > 0 identical samples (1, 0, 0) sum to (n, 0, 0); with m == n, their
      magnitude, the gravity direction scale(s, 1/m) is (1, 0, 0) and every
      sample projects onto it as 1.0. */
  lemma ConstantProjection(n: nat, m: real)
    requires n > 0 && m == n as real
    ensures var data := seq(n, _ => Vec3(1.0, 0.0, 0.0));
            var g := Scale(SumOf(data), 1.0 / m);
            && SumOf(data) == Vec3(n as real, 0.0, 0.0)
            && g == Vec3(1.0, 0.0, 0.0)
            && Project(data, g) == seq(n, _ => 1.0)
  {
    var data := seq(n, _ => Vec3(1.0, 0.0, 0.0));
    SumOfUnits(n);
    UnitDirection(m);
    var vert := Project(data, Vec3(1.0, 0.0, 0.0));
    forall i | 0 <= i < n
      ensures vert[i] == 1.0
    {
      assert data[i] == Vec3(1.0, 0.0, 0.0);
    }
  }

  /** n samples (1, 0, 0) sum to (n, 0, 0). */
  lemma SumOfUnits(n: nat)
    ensures SumOf(seq(n, _ => Vec3(1.0, 0.0, 0.0))) == Vec3(n as real, 0.0, 0.0)
  {
    SumOfCopies(n, Vec3(1.0, 0.0, 0.0));
  }

  /** Normalising (m, 0, 0) by its magnitude m > 0 gives (1, 0, 0). */
  lemma UnitDirection(m: real)
    requires m > 0.0
    ensures Scale(Vec3(m, 0.0, 0.0), 1.0 / m) == Vec3(1.0, 0.0, 0.0)
  {
  }

  /** The dot product of (k, 0, 0) with itself is k * k. */
  lemma DotOnAxis(k: real)
    ensures Dot(Vec3(k, 0.0, 0.0), Vec3(k, 0.0, 0.0)) == k * k
  {
  }

  /** A silent signal never crosses the thresholds `main` derives from a
      non-negative rms (hi = rms * 0.5, lo = -hi), so no step is counted. */
  lemma SilenceCountsNothing(xs: seq<real>, rms: real)
    requires rms >= 0.0
    requires forall i :: 0 <= i < |xs| ==> xs[i] == 0.0
    ensures StepCounter.Steps(xs, rms * 0.5, -(rms * 0.5)) == 0
  {
    StepCounter.NoHighNoSteps(xs, rms * 0.5, -(rms * 0.5));
  }

  /** A recording of n > 0 identical samples (1, 0, 0), taken through
      `main` with m == n: the summed vector is (n, 0, 0) and m is its
      magnitude (m * m is its dot product with itself), the gravity
      direction scale(s, 1/m) is (1, 0, 0), the vertical signal is
      constantly 1.0, the bandpass started from its preset turns it into
      all zeros, and with the thresholds `main` derives from any
      non-negative rms no step is counted. */
  lemma ConstantRecording(n: nat, m: real, rms: real)
    requires n > 0 && m == n as real
    requires rms >= 0.0
    ensures var data := seq(n, _ => Vec3(1.0, 0.0, 0.0));
            var s := SumOf(data);
            var vert := Project(data, Scale(s, 1.0 / m));
            var filtered := Filter.Run(Filter.BandpassOrder, Filter.BandpassA, Filter.BandpassB, Filter.BandpassZ0, vert).ys;
            && s == Vec3(n as real, 0.0, 0.0)
            && m * m == Dot(s, s)
            && vert == seq(n, _ => 1.0)
            && filtered == seq(n, _ => 0.0)
            && StepCounter.Steps(filtered, rms * 0.5, -(rms * 0.5)) == 0
  {
    SumOfUnits(n);
    DotOnAxis(m);
    ConstantProjection(n, m);
    Filter.ConstantOneFiltersToZero(seq(n, _ => 1.0));
    SilenceCountsNothing(seq(n, _ => 0.0), rms);
  }
}
