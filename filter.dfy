/** The transposed direct form II filter of accel.c (`tdf2`) and the
    fixed 1-3 Hz Butterworth bandpass driver (`filter`), over exact real
    arithmetic. Coefficients are parameters; the bandpass tables are one
    instance of them. */
module Filter {

  /** Output sample and new state of one filter step. */
  datatype StepResult = StepResult(y: real, z: seq<real>)

  /** Outputs of a run over a whole input, and the state it leaves. */
  datatype RunResult = RunResult(ys: seq<real>, z: seq<real>)

  /** What `tdf2` reads: b[0..ord], a[1..ord] and z[0..ord-1]. */
  predicate WellFormed(ord: nat, a: seq<real>, b: seq<real>, z: seq<real>)
  {
    ord < |a| && ord < |b| && ord <= |z|
  }

  /** The value `tdf2` stores in a state cell: the input through the
      feed-forward tap bi, plus the next cell's old value, minus the output
      through the feedback tap ai. */
  function Cell(bi: real, ai: real, x: real, next: real, y: real): real
  {
    bi * x + next - ai * y
  }

  /** One filter step, stated on the old state as a whole: the output is
      b[0]*x + z[0]; cell i < ord-1 becomes b[i+1]*x + z[i+1] - a[i+1]*y,
      read from the OLD state; cell ord-1 becomes b[ord]*x - a[ord]*y; the
      cells from ord on are kept. Order 0 is a plain gain. */
  function Step(ord: nat, a: seq<real>, b: seq<real>, z: seq<real>, x: real): (r: StepResult)
    requires WellFormed(ord, a, b, z)
    ensures |r.z| == |z|
  {
    if ord == 0 then StepResult(b[0] * x, z)
    else
      var y := b[0] * x + z[0];
      StepResult(y, seq(|z|, i requires 0 <= i < |z| =>
                          if i < ord - 1 then Cell(b[i + 1], a[i + 1], x, z[i + 1], y)
                          else if i == ord - 1 then Cell(b[ord], a[ord], x, 0.0, y)
                          else z[i]))
  }

  /** Steps through xs in order, carrying the state from one sample to the next. */
  function Run(ord: nat, a: seq<real>, b: seq<real>, z0: seq<real>, xs: seq<real>): (r: RunResult)
    requires WellFormed(ord, a, b, z0)
    ensures |r.ys| == |xs| && |r.z| == |z0|
    decreases |xs|
  {
    if xs == [] then RunResult([], z0)
    else
      var prev := Run(ord, a, b, z0, xs[..|xs| - 1]);
      var s := Step(ord, a, b, prev.z, xs[|xs| - 1]);
      RunResult(prev.ys + [s.y], s.z)
  }

  /** `tdf2`: one step, updating z in place in ascending index order. The
      coefficient tables are read-only (`const double *`), so they are
      passed as values. */
  method Tdf2(ord: nat, a: seq<real>, b: seq<real>, z: array<real>, x: real) returns (y: real)
    requires WellFormed(ord, a, b, z[..])
    modifies z
    ensures StepResult(y, z[..]) == Step(ord, a, b, old(z[..]), x)
  {
    if ord == 0 {
      return b[0] * x;
    }
    ghost var z0 := z[..];
    y := b[0] * x + z[0];
    for i := 1 to ord
      invariant forall k :: 0 <= k < i - 1 ==> z[k] == Cell(b[k + 1], a[k + 1], x, z0[k + 1], y)
      invariant forall k :: i - 1 <= k < z.Length ==> z[k] == z0[k]
    {
      z[i - 1] := Cell(b[i], a[i], x, z[i], y);
    }
    z[ord - 1] := Cell(b[ord], a[ord], x, 0.0, y);
    StepMatchesCells(ord, a, b, z0, x, y, z[..]);
  }

  /** A state whose cells hold the values that `tdf2` writes is the state of Step. */
  lemma StepMatchesCells(ord: nat, a: seq<real>, b: seq<real>, z0: seq<real>, x: real, y: real, z: seq<real>)
    requires WellFormed(ord, a, b, z0) && 0 < ord && |z| == |z0|
    requires y == b[0] * x + z0[0]
    requires forall k :: 0 <= k < ord - 1 ==> z[k] == Cell(b[k + 1], a[k + 1], x, z0[k + 1], y)
    requires z[ord - 1] == Cell(b[ord], a[ord], x, 0.0, y)
    requires forall k :: ord <= k < |z| ==> z[k] == z0[k]
    ensures Step(ord, a, b, z0, x) == StepResult(y, z)
  {
    var s := Step(ord, a, b, z0, x);
    forall k | 0 <= k < |z|
      ensures z[k] == s.z[k]
    {
    }
  }

  /** Feed-forward coefficients of the 1-3 Hz bandpass at 20 Hz. */
  const BandpassB: seq<real> := [0.00482434, 0.0, -0.01929737, 0.0, 0.02894606, 0.0, -0.01929737, 0.0, 0.00482434]

  /** Feedback coefficients of the same filter, a[0] == 1. */
  const BandpassA: seq<real> := [1.0, -5.41823139, 13.5293587, -20.31926512, 20.07119886, -13.34437166, 5.83210677, -1.53473005, 0.18737949]

  /** The preset state `filter` starts every run from. */
  const BandpassZ0: seq<real> := [-0.00482434, -0.00482434, 0.01447303, 0.01447303, -0.01447303, -0.01447303, 0.00482434, 0.00482434]

  const BandpassOrder: nat := 8

  /** The loop of `filter` for any coefficients: feeds x[..size] through
      tdf2 one sample at a time, carrying the state in z, and writes each
      output to y. x and y may be the same array, since each input is read
      before its output is written. */
  method RunFilter(ord: nat, a: seq<real>, b: seq<real>, z: array<real>, x: array<real>, size: nat, y: array<real>)
    requires WellFormed(ord, a, b, z[..])
    requires size <= x.Length && size <= y.Length
    requires z != x && z != y
    modifies z, y
    ensures Run(ord, a, b, old(z[..]), old(x[..size])) == RunResult(y[..size], z[..])
    ensures y[size..] == old(y[size..])
    ensures x != y ==> x[..] == old(x[..])
  {
    ghost var z0 := z[..];
    ghost var xs := x[..size];
    ghost var ys: seq<real> := [];
    for i := 0 to size
      invariant forall k :: i <= k < size ==> x[k] == xs[k]
      invariant |z[..]| == |z0|
      invariant Run(ord, a, b, z0, xs[..i]) == RunResult(ys, z[..])
      invariant y[..i] == ys
      invariant forall k :: size <= k < y.Length ==> y[k] == old(y[k])
      invariant x != y ==> x[..] == old(x[..])
    {
      var out := Tdf2(ord, a, b, z, x[i]);
      y[i] := out;
      RunLast(ord, a, b, z0, xs[..i + 1]);
      assert xs[..i + 1][..i] == xs[..i];
      ys := ys + [out];
    }
    assert xs[..size] == xs;
  }

  /** `filter`: runs the order-8 bandpass over x[..size] from the preset
      state and writes the outputs to y[..size]. */
  method Filter(x: array<real>, size: nat, y: array<real>)
    requires size <= x.Length && size <= y.Length
    modifies y
    ensures y[..size] == Run(BandpassOrder, BandpassA, BandpassB, BandpassZ0, old(x[..size])).ys
    ensures y[size..] == old(y[size..])
    ensures x != y ==> x[..] == old(x[..])
  {
    var z := new real[8] (i requires 0 <= i < 8 => BandpassZ0[i]);
    assert z[..] == BandpassZ0;
    RunFilter(BandpassOrder, BandpassA, BandpassB, z, x, size, y);
  }

  // ----- properties of the specification -----

  /** A non-empty run is the run on all but the last input followed by one step. */
  lemma RunLast(ord: nat, a: seq<real>, b: seq<real>, z0: seq<real>, xs: seq<real>)
    requires WellFormed(ord, a, b, z0) && xs != []
    ensures var n := |xs| - 1;
            var p := Run(ord, a, b, z0, xs[..n]);
            var s := Step(ord, a, b, p.z, xs[n]);
            Run(ord, a, b, z0, xs) == RunResult(p.ys + [s.y], s.z)
  {
  }

  /** Output i of a run is the step on input i from the state left by inputs 0..i-1. */
  lemma {:induction false} RunOutputAt(ord: nat, a: seq<real>, b: seq<real>, z0: seq<real>, xs: seq<real>, i: nat)
    requires WellFormed(ord, a, b, z0)
    requires i < |xs|
    ensures Run(ord, a, b, z0, xs).ys[i] == Step(ord, a, b, Run(ord, a, b, z0, xs[..i]).z, xs[i]).y
  {
    RunPrefix(ord, a, b, z0, xs, i + 1);
    assert xs[..i + 1][..i] == xs[..i];
  }

  /** A run is causal: its first k outputs are the outputs of the run on the first k inputs. */
  lemma {:induction false} RunPrefix(ord: nat, a: seq<real>, b: seq<real>, z0: seq<real>, xs: seq<real>, k: nat)
    requires WellFormed(ord, a, b, z0)
    requires k <= |xs|
    ensures Run(ord, a, b, z0, xs).ys[..k] == Run(ord, a, b, z0, xs[..k]).ys
    decreases |xs|
  {
    if k == |xs| {
      assert xs[..k] == xs;
    } else {
      var init := xs[..|xs| - 1];
      RunPrefix(ord, a, b, z0, init, k);
      assert init[..k] == xs[..k];
      assert Run(ord, a, b, z0, xs).ys[..k] == Run(ord, a, b, z0, init).ys[..k];
    }
  }

  /** Running over two consecutive pieces is running over their concatenation. */
  lemma {:induction false} RunAppend(ord: nat, a: seq<real>, b: seq<real>, z0: seq<real>, xs: seq<real>, ws: seq<real>)
    requires WellFormed(ord, a, b, z0)
    ensures var first := Run(ord, a, b, z0, xs);
            var second := Run(ord, a, b, first.z, ws);
            Run(ord, a, b, z0, xs + ws) == RunResult(first.ys + second.ys, second.z)
    decreases |ws|
  {
    if ws == [] {
      assert xs + ws == xs;
    } else {
      var ws' := ws[..|ws| - 1];
      RunAppend(ord, a, b, z0, xs, ws');
      assert (xs + ws)[..|xs + ws| - 1] == xs + ws';
    }
  }

  /** Order 0 is stateless: every output is b[0] times its input and the state is kept. */
  lemma {:induction false} RunOrderZero(a: seq<real>, b: seq<real>, z0: seq<real>, xs: seq<real>)
    requires WellFormed(0, a, b, z0)
    ensures Run(0, a, b, z0, xs).z == z0
    ensures forall i :: 0 <= i < |xs| ==> Run(0, a, b, z0, xs).ys[i] == b[0] * xs[i]
    decreases |xs|
  {
    if xs != [] {
      RunOrderZero(a, b, z0, xs[..|xs| - 1]);
    }
  }

  /** A run never changes the state cells from ord on. */
  lemma {:induction false} RunKeepsTail(ord: nat, a: seq<real>, b: seq<real>, z0: seq<real>, xs: seq<real>)
    requires WellFormed(ord, a, b, z0)
    ensures Run(ord, a, b, z0, xs).z[ord..] == z0[ord..]
    decreases |xs|
  {
    if xs != [] {
      RunKeepsTail(ord, a, b, z0, xs[..|xs| - 1]);
    }
  }

  // ----- linearity -----

  /** Pointwise sum of two equally long sequences. */
  function Plus(u: seq<real>, v: seq<real>): (w: seq<real>)
    requires |u| == |v|
    ensures |w| == |u|
  {
    seq(|u|, i requires 0 <= i < |u| => u[i] + v[i])
  }

  lemma PlusPrefix(u: seq<real>, v: seq<real>, n: nat)
    requires |u| == |v| && n <= |u|
    ensures Plus(u, v)[..n] == Plus(u[..n], v[..n])
  {
    forall k | 0 <= k < n
      ensures Plus(u, v)[..n][k] == Plus(u[..n], v[..n])[k]
    {
      assert u[..n][k] == u[k] && v[..n][k] == v[k];
    }
  }

  lemma PlusSnoc(u: seq<real>, v: seq<real>, p: real, q: real)
    requires |u| == |v|
    ensures Plus(u + [p], v + [q]) == Plus(u, v) + [p + q]
  {
    var lhs, rhs := Plus(u + [p], v + [q]), Plus(u, v) + [p + q];
    forall k | 0 <= k < |lhs|
      ensures lhs[k] == rhs[k]
    {
      if k < |u| {
        assert (u + [p])[k] == u[k] && (v + [q])[k] == v[k];
      }
    }
  }

  /** What one step does, in the terms of `tdf2`: order 0 is a plain gain
      that keeps the state; otherwise the output is b[0]*x + z[0], each
      z[i-1] for 1 <= i < ord becomes b[i]*x + z[i] - a[i]*y with z[i]
      taken from the state BEFORE the step, z[ord-1] becomes
      b[ord]*x - a[ord]*y, and the cells from ord on are kept. */
  lemma StepCells(ord: nat, a: seq<real>, b: seq<real>, z: seq<real>, x: real)
    requires WellFormed(ord, a, b, z)
    ensures var s := Step(ord, a, b, z, x);
            && (ord == 0 ==> s == StepResult(b[0] * x, z))
            && (ord > 0 ==> s.y == b[0] * x + z[0])
            && (forall i :: 1 <= i < ord ==> s.z[i - 1] == b[i] * x + z[i] - a[i] * s.y)
            && (ord > 0 ==> s.z[ord - 1] == b[ord] * x - a[ord] * s.y)
            && (forall i :: ord <= i < |z| ==> s.z[i] == z[i])
  {
    if ord > 0 {
      forall i | 0 <= i < |z| {
        StepStateAt(ord, a, b, z, x, i);
      }
    }
  }

  /** Cell i of the state after one step of order ord > 0. */
  lemma StepStateAt(ord: nat, a: seq<real>, b: seq<real>, z: seq<real>, x: real, i: nat)
    requires WellFormed(ord, a, b, z) && 0 < ord && i < |z|
    ensures var s := Step(ord, a, b, z, x);
            s.z[i] == if i < ord - 1 then Cell(b[i + 1], a[i + 1], x, z[i + 1], s.y)
                      else if i == ord - 1 then Cell(b[ord], a[ord], x, 0.0, s.y)
                      else z[i]
  {
  }

  /** One cell update is linear in its input, carried state and output together. */
  lemma CellAdditive(bi: real, ai: real, x1: real, x2: real, n1: real, n2: real, y1: real, y2: real)
    ensures Cell(bi, ai, x1 + x2, n1 + n2, y1 + y2) == Cell(bi, ai, x1, n1, y1) + Cell(bi, ai, x2, n2, y2)
  {
    assert bi * (x1 + x2) == bi * x1 + bi * x2;
    assert ai * (y1 + y2) == ai * y1 + ai * y2;
  }

  /** One step is additive in (state, input) jointly. */
  lemma StepAdditive(ord: nat, a: seq<real>, b: seq<real>, z1: seq<real>, z2: seq<real>, z: seq<real>, x1: real, x2: real, x: real)
    requires WellFormed(ord, a, b, z1) && |z2| == |z1|
    requires z == Plus(z1, z2) && x == x1 + x2
    ensures var s1 := Step(ord, a, b, z1, x1);
            var s2 := Step(ord, a, b, z2, x2);
            Step(ord, a, b, z, x) == StepResult(s1.y + s2.y, Plus(s1.z, s2.z))
  {
    var s1 := Step(ord, a, b, z1, x1);
    var s2 := Step(ord, a, b, z2, x2);
    var s := Step(ord, a, b, z, x);
    assert b[0] * x == b[0] * x1 + b[0] * x2;
    if ord > 0 {
      assert z[0] == z1[0] + z2[0];
      assert s.y == s1.y + s2.y;
      forall i | 0 <= i < |z1|
        ensures s.z[i] == s1.z[i] + s2.z[i]
      {
        StepStateAt(ord, a, b, z, x, i);
        StepStateAt(ord, a, b, z1, x1, i);
        StepStateAt(ord, a, b, z2, x2, i);
        if i < ord - 1 {
          assert z[i + 1] == z1[i + 1] + z2[i + 1];
          CellAdditive(b[i + 1], a[i + 1], x1, x2, z1[i + 1], z2[i + 1], s1.y, s2.y);
        } else if i == ord - 1 {
          CellAdditive(b[ord], a[ord], x1, x2, 0.0, 0.0, s1.y, s2.y);
        } else {
          assert z[i] == z1[i] + z2[i];
        }
      }
    }
  }

  /** Superposition: the run on summed inputs from summed states is the sum of the two runs. */
  lemma {:induction false} RunAdditive(ord: nat, a: seq<real>, b: seq<real>, z1: seq<real>, z2: seq<real>, xs1: seq<real>, xs2: seq<real>)
    requires WellFormed(ord, a, b, z1) && |z2| == |z1| && |xs1| == |xs2|
    ensures var r1 := Run(ord, a, b, z1, xs1);
            var r2 := Run(ord, a, b, z2, xs2);
            Run(ord, a, b, Plus(z1, z2), Plus(xs1, xs2)) == RunResult(Plus(r1.ys, r2.ys), Plus(r1.z, r2.z))
    decreases |xs1|
  {
    var xs := Plus(xs1, xs2);
    if xs1 == [] {
      assert xs == [] && Plus(z1, z2) == Plus(z1, z2);
    } else {
      var n := |xs1| - 1;
      RunAdditive(ord, a, b, z1, z2, xs1[..n], xs2[..n]);
      PlusPrefix(xs1, xs2, n);
      var p1 := Run(ord, a, b, z1, xs1[..n]);
      var p2 := Run(ord, a, b, z2, xs2[..n]);
      RunLast(ord, a, b, Plus(z1, z2), xs);
      RunLast(ord, a, b, z1, xs1);
      RunLast(ord, a, b, z2, xs2);
      SnocAdditive(ord, a, b, p1, p2, Run(ord, a, b, Plus(z1, z2), xs[..n]), xs1[n], xs2[n], xs[n]);
    }
  }

  /** The inductive step of superposition: one more sample on each side. */
  lemma SnocAdditive(ord: nat, a: seq<real>, b: seq<real>, p1: RunResult, p2: RunResult, p: RunResult, x1: real, x2: real, x: real)
    requires WellFormed(ord, a, b, p1.z) && |p2.z| == |p1.z| && |p2.ys| == |p1.ys|
    requires p == RunResult(Plus(p1.ys, p2.ys), Plus(p1.z, p2.z)) && x == x1 + x2
    ensures var s1 := Step(ord, a, b, p1.z, x1);
            var s2 := Step(ord, a, b, p2.z, x2);
            var s := Step(ord, a, b, p.z, x);
            RunResult(p.ys + [s.y], s.z) == RunResult(Plus(p1.ys + [s1.y], p2.ys + [s2.y]), Plus(s1.z, s2.z))
  {
    StepAdditive(ord, a, b, p1.z, p2.z, p.z, x1, x2, x);
    PlusSnoc(p1.ys, p2.ys, Step(ord, a, b, p1.z, x1).y, Step(ord, a, b, p2.z, x2).y);
  }

  // ----- the bandpass instance -----

  /** The preset state is the steady state of the bandpass for a constant
      input of 1.0: one step outputs 0.0 and returns to the preset. */
  lemma PresetIsSteadyState()
    ensures Step(BandpassOrder, BandpassA, BandpassB, BandpassZ0, 1.0) == StepResult(0.0, BandpassZ0)
  {
    var s := Step(BandpassOrder, BandpassA, BandpassB, BandpassZ0, 1.0);
    assert s.y == 0.0;
    assert s.z == BandpassZ0;
  }

  /** From the preset, a constant input of 1.0 is filtered to all zeros and the state stays put. */
  lemma {:induction false} ConstantOneFiltersToZero(xs: seq<real>)
    requires forall i :: 0 <= i < |xs| ==> xs[i] == 1.0
    ensures Run(BandpassOrder, BandpassA, BandpassB, BandpassZ0, xs).z == BandpassZ0
    ensures Run(BandpassOrder, BandpassA, BandpassB, BandpassZ0, xs).ys == seq(|xs|, _ => 0.0)
    decreases |xs|
  {
    if xs != [] {
      ConstantOneFiltersToZero(xs[..|xs| - 1]);
      PresetIsSteadyState();
    }
  }
}
