/** The hysteresis step counter of accel.c (`count_steps`): a two-state
    machine over the filtered signal that counts one step for every sample
    above `hi` that is later followed by a sample below `lo`. */
module StepCounter {

  /** The `enum { UP, DOWN }` of `count_steps`: Up waits for a sample above
      hi, Down waits for a sample below lo. */
  datatype State = Up | Down

  /** Machine state and step count so far. */
  datatype Counter = Counter(state: State, cnt: nat)

  const Start := Counter(Up, 0)

  /** One round of the `switch(state)`. */
  function Next(c: Counter, v: real, hi: real, lo: real): (r: Counter)
    ensures r.cnt == c.cnt + 1 <==> c.state == Down && v < lo
    ensures r.cnt == c.cnt || r.cnt == c.cnt + 1
    ensures r.state != c.state <==> (c.state == Up && v > hi) || (c.state == Down && v < lo)
  {
    match c.state
    case Up => if v > hi then Counter(Down, c.cnt) else c
    case Down => if v < lo then Counter(Up, c.cnt + 1) else c
  }

  /** The machine after consuming xs in order, starting from c. */
  function Run(c: Counter, xs: seq<real>, hi: real, lo: real): (r: Counter)
    ensures c.cnt <= r.cnt <= c.cnt + |xs|
    decreases |xs|
  {
    if xs == [] then c else Next(Run(c, xs[..|xs| - 1], hi, lo), xs[|xs| - 1], hi, lo)
  }

  /** The count `count_steps` returns for xs. */
  function Steps(xs: seq<real>, hi: real, lo: real): (n: nat)
    ensures n <= |xs|
  {
    Run(Start, xs, hi, lo).cnt
  }

  /** `count_steps`: the loop over x[..size]. */
  method CountSteps(x: array<real>, size: nat, hi: real, lo: real) returns (cnt: int)
    requires size <= x.Length
    ensures cnt == Steps(x[..size], hi, lo)
    ensures 0 <= cnt <= size / 2
  {
    var state := Up;
    cnt := 0;
    var i := 0;
    while i < size
      invariant 0 <= i <= size
      invariant state == Run(Start, x[..i], hi, lo).state
      invariant cnt == Run(Start, x[..i], hi, lo).cnt
    {
      assert x[..i + 1][..i] == x[..i];
      var v := x[i];
      match state {
        case Up =>
          if v > hi {
            state := Down;
          }
        case Down =>
          if v < lo {
            state := Up;
            cnt := cnt + 1;
          }
      }
      i := i + 1;
    }
    assert x[..size] == x[..i];
    StepsBound(x[..size], hi, lo);
  }

  // ----- a reference definition: completed cycles found by searching -----

  /** Index of the first sample above t, or |xs| when there is none. */
  function IndexAbove(xs: seq<real>, t: real): (k: nat)
    ensures k <= |xs|
    ensures forall i :: 0 <= i < k ==> xs[i] <= t
    ensures k < |xs| ==> xs[k] > t
  {
    if xs == [] then 0 else if xs[0] > t then 0 else 1 + IndexAbove(xs[1..], t)
  }

  /** Index of the first sample below t, or |xs| when there is none. */
  function IndexBelow(xs: seq<real>, t: real): (k: nat)
    ensures k <= |xs|
    ensures forall i :: 0 <= i < k ==> xs[i] >= t
    ensures k < |xs| ==> xs[k] < t
  {
    if xs == [] then 0 else if xs[0] < t then 0 else 1 + IndexBelow(xs[1..], t)
  }

  /** Completed cycles, counted by searching: find the first sample above
      hi, then continue with what follows it. */
  function Cycles(xs: seq<real>, hi: real, lo: real): nat
    decreases |xs|
  {
    var i := IndexAbove(xs, hi);
    if i == |xs| then 0 else CyclesAfterHigh(xs[i + 1..], hi, lo)
  }

  /** Completed cycles once a high sample has been seen: find the first
      sample below lo; that completes one cycle and counting resumes after
      it. A high sample with no later low sample completes nothing. */
  function CyclesAfterHigh(xs: seq<real>, hi: real, lo: real): nat
    decreases |xs|
  {
    var j := IndexBelow(xs, lo);
    if j == |xs| then 0 else 1 + Cycles(xs[j + 1..], hi, lo)
  }

  // ----- properties of the machine -----

  /** Consuming xs then ys is consuming xs + ys. */
  lemma {:induction false} RunAppend(c: Counter, xs: seq<real>, ys: seq<real>, hi: real, lo: real)
    ensures Run(c, xs + ys, hi, lo) == Run(Run(c, xs, hi, lo), ys, hi, lo)
    decreases |ys|
  {
    if ys == [] {
      assert xs + ys == xs;
    } else {
      var ys' := ys[..|ys| - 1];
      RunAppend(c, xs, ys', hi, lo);
      assert (xs + ys)[..|xs + ys| - 1] == xs + ys';
    }
  }

  /** While waiting for a high sample, samples at or below hi change nothing. */
  lemma {:induction false} UpIgnoresLow(n: nat, xs: seq<real>, hi: real, lo: real)
    requires forall i :: 0 <= i < |xs| ==> xs[i] <= hi
    ensures Run(Counter(Up, n), xs, hi, lo) == Counter(Up, n)
    decreases |xs|
  {
    if xs != [] {
      UpIgnoresLow(n, xs[..|xs| - 1], hi, lo);
    }
  }

  /** While waiting for a low sample, samples at or above lo change nothing. */
  lemma {:induction false} DownIgnoresHigh(n: nat, xs: seq<real>, hi: real, lo: real)
    requires forall i :: 0 <= i < |xs| ==> xs[i] >= lo
    ensures Run(Counter(Down, n), xs, hi, lo) == Counter(Down, n)
    decreases |xs|
  {
    if xs != [] {
      DownIgnoresHigh(n, xs[..|xs| - 1], hi, lo);
    }
  }

  /** The count carried in adds to what the run counts by itself. */
  lemma {:induction false} RunShift(s: State, n: nat, xs: seq<real>, hi: real, lo: real)
    ensures var r := Run(Counter(s, 0), xs, hi, lo);
            Run(Counter(s, n), xs, hi, lo) == Counter(r.state, n + r.cnt)
    decreases |xs|
  {
    if xs != [] {
      RunShift(s, n, xs[..|xs| - 1], hi, lo);
    }
  }

  /** The run over xs is the run over xs[..k] followed by the run over xs[k..]. */
  lemma RunSplit(c: Counter, xs: seq<real>, k: nat, hi: real, lo: real)
    requires k <= |xs|
    ensures Run(c, xs, hi, lo) == Run(Run(c, xs[..k], hi, lo), xs[k..], hi, lo)
  {
    assert xs == xs[..k] + xs[k..];
    RunAppend(c, xs[..k], xs[k..], hi, lo);
  }

  /** Up to and including the first sample above hi, the machine moves from Up to Down. */
  lemma ReachHigh(n: nat, xs: seq<real>, hi: real, lo: real)
    requires IndexAbove(xs, hi) < |xs|
    ensures var i := IndexAbove(xs, hi);
            Run(Counter(Up, n), xs, hi, lo) == Run(Counter(Down, n), xs[i + 1..], hi, lo)
  {
    var i := IndexAbove(xs, hi);
    RunSplit(Counter(Up, n), xs, i + 1, hi, lo);
    assert xs[..i + 1][..i] == xs[..i];
    UpIgnoresLow(n, xs[..i], hi, lo);
  }

  /** Up to and including the first sample below lo, the machine moves from Down to Up and counts one step. */
  lemma ReachLow(n: nat, xs: seq<real>, hi: real, lo: real)
    requires IndexBelow(xs, lo) < |xs|
    ensures var j := IndexBelow(xs, lo);
            Run(Counter(Down, n), xs, hi, lo) == Run(Counter(Up, n + 1), xs[j + 1..], hi, lo)
  {
    var j := IndexBelow(xs, lo);
    RunSplit(Counter(Down, n), xs, j + 1, hi, lo);
    assert xs[..j + 1][..j] == xs[..j];
    DownIgnoresHigh(n, xs[..j], hi, lo);
  }

  /** Waiting for a high sample, the machine counts the completed cycles
      of the reference definition. */
  lemma {:induction false} UpCountsCycles(xs: seq<real>, hi: real, lo: real)
    ensures Run(Counter(Up, 0), xs, hi, lo).cnt == Cycles(xs, hi, lo)
    decreases |xs|
  {
    var i := IndexAbove(xs, hi);
    if i == |xs| {
      UpIgnoresLow(0, xs, hi, lo);
    } else {
      ReachHigh(0, xs, hi, lo);
      DownCountsCycles(xs[i + 1..], hi, lo);
    }
  }

  /** Waiting for a low sample, the machine counts the completed cycles of
      the reference definition that follow a high sample. */
  lemma {:induction false} DownCountsCycles(xs: seq<real>, hi: real, lo: real)
    ensures Run(Counter(Down, 0), xs, hi, lo).cnt == CyclesAfterHigh(xs, hi, lo)
    decreases |xs|
  {
    var j := IndexBelow(xs, lo);
    if j == |xs| {
      DownIgnoresHigh(0, xs, hi, lo);
    } else {
      var tail := xs[j + 1..];
      ReachLow(0, xs, hi, lo);
      RunShift(Up, 1, tail, hi, lo);
      UpCountsCycles(tail, hi, lo);
    }
  }

  /** The machine counts exactly the completed cycles of the reference definition. */
  lemma StepsMatchCycles(xs: seq<real>, hi: real, lo: real)
    ensures Steps(xs, hi, lo) == Cycles(xs, hi, lo)
  {
    UpCountsCycles(xs, hi, lo);
  }

  /** Every completed cycle uses up at least two samples. */
  lemma {:induction false} CyclesBound(xs: seq<real>, hi: real, lo: real)
    ensures 2 * Cycles(xs, hi, lo) <= |xs|
    decreases |xs|
  {
    var i := IndexAbove(xs, hi);
    if i < |xs| {
      assert Cycles(xs, hi, lo) == CyclesAfterHigh(xs[i + 1..], hi, lo);
      AfterHighBound(xs[i + 1..], hi, lo);
    }
  }

  /** After a high sample, every completed cycle uses up at least two
      samples counting that high sample. */
  lemma {:induction false} AfterHighBound(xs: seq<real>, hi: real, lo: real)
    ensures 2 * CyclesAfterHigh(xs, hi, lo) <= |xs| + 1
    decreases |xs|
  {
    var j := IndexBelow(xs, lo);
    if j < |xs| {
      assert CyclesAfterHigh(xs, hi, lo) == 1 + Cycles(xs[j + 1..], hi, lo);
      CyclesBound(xs[j + 1..], hi, lo);
    }
  }

  /** The count never exceeds half the number of samples. */
  lemma StepsBound(xs: seq<real>, hi: real, lo: real)
    ensures Steps(xs, hi, lo) <= |xs| / 2
  {
    StepsMatchCycles(xs, hi, lo);
    CyclesBound(xs, hi, lo);
  }

  /** At least one step is counted exactly when some sample above hi is
      followed, later, by a sample below lo. */
  lemma StepsPositiveIff(xs: seq<real>, hi: real, lo: real)
    ensures Steps(xs, hi, lo) > 0 <==>
            exists i, j :: 0 <= i < j < |xs| && xs[i] > hi && xs[j] < lo
  {
    StepsMatchCycles(xs, hi, lo);
    var i := IndexAbove(xs, hi);
    if i < |xs| {
      var rest := xs[i + 1..];
      var j := IndexBelow(rest, lo);
      if j < |rest| {
        assert xs[i] > hi && xs[i + 1 + j] < lo;
      } else {
        forall i', j' | 0 <= i' < j' < |xs| && xs[i'] > hi
          ensures xs[j'] >= lo
        {
          assert i <= i';
          assert rest[j' - i - 1] == xs[j'];
        }
      }
    }
  }

  /** With no sample strictly above hi, nothing is counted. */
  lemma NoHighNoSteps(xs: seq<real>, hi: real, lo: real)
    requires forall i :: 0 <= i < |xs| ==> xs[i] <= hi
    ensures Steps(xs, hi, lo) == 0
  {
    UpIgnoresLow(0, xs, hi, lo);
  }

  /** With no sample strictly below lo, nothing is counted, however often hi is crossed. */
  lemma NoLowNoSteps(xs: seq<real>, hi: real, lo: real)
    requires forall i :: 0 <= i < |xs| ==> xs[i] >= lo
    ensures Steps(xs, hi, lo) == 0
  {
    StepsPositiveIff(xs, hi, lo);
  }

  /** One excursion above hi and back below lo is one step. */
  lemma OneCycle(hi: real, lo: real)
    requires hi > 0.0 > lo
    ensures Steps([0.0, hi + 1.0, lo - 1.0], hi, lo) == 1
  {
    var xs := [0.0, hi + 1.0, lo - 1.0];
    assert [0.0][..0] == [];
    assert Run(Start, [0.0], hi, lo) == Start;
    assert xs[..2][..1] == [0.0];
    assert Run(Start, xs[..2], hi, lo) == Counter(Down, 0);
  }

  /** A final sample above hi adds nothing when lo <= hi: a high crossing
      alone does not complete a step. */
  lemma TrailingHighAddsNothing(xs: seq<real>, v: real, hi: real, lo: real)
    requires lo <= hi < v
    ensures Steps(xs + [v], hi, lo) == Steps(xs, hi, lo)
  {
    assert (xs + [v])[..|xs|] == xs;
  }
}
