/**
 * Two shapes of loop the scripts share: writing the rows of several parts
 * one part after the other, and doing so until a part raises an error, at
 * which point the rows already written stay and nothing more is written.
 */
module Sequences {

  /** The parts of `xss`, one after the other. */
  function Flatten<T>(xss: seq<seq<T>>): seq<T>
    decreases |xss|
  {
    if xss == [] then [] else Flatten(xss[..|xss| - 1]) + xss[|xss| - 1]
  }

  /** Element `k` of part `i` sits right after the parts before `i`. */
  lemma {:induction false} FlattenAt<T>(xss: seq<seq<T>>, i: nat, k: nat)
    requires i < |xss| && k < |xss[i]|
    ensures |Flatten(xss[..i])| + k < |Flatten(xss)|
    ensures Flatten(xss)[|Flatten(xss[..i])| + k] == xss[i][k]
    decreases |xss|
  {
    var n := |xss|;
    var front := xss[..n - 1];
    if i == n - 1 {
      assert xss[..i] == front;
    } else {
      FlattenAt(front, i, k);
      assert front[..i] == xss[..i];
    }
  }

  /** Two lists of parts whose parts have the same lengths flatten to the
   *  same length. */
  lemma {:induction false} FlattenSameLength<S, T>(xss: seq<seq<S>>, yss: seq<seq<T>>)
    requires |xss| == |yss| && forall i :: 0 <= i < |xss| ==> |xss[i]| == |yss[i]|
    ensures |Flatten(xss)| == |Flatten(yss)|
    decreases |xss|
  {
    if xss != [] {
      FlattenSameLength(xss[..|xss| - 1], yss[..|yss| - 1]);
    }
  }

  /** Flattening one more part appends it. */
  lemma FlattenSnoc<T>(xss: seq<seq<T>>, i: nat)
    requires i < |xss|
    ensures Flatten(xss[..i + 1]) == Flatten(xss[..i]) + xss[i]
  {
    assert xss[..i + 1][..i] == xss[..i];
  }

  /** A property every part's elements have holds of every element of the
   *  flattened sequence. */
  lemma {:induction false} FlattenHolds<T>(xss: seq<seq<T>>, P: T -> bool)
    requires forall i, k :: 0 <= i < |xss| && 0 <= k < |xss[i]| ==> P(xss[i][k])
    ensures forall j :: 0 <= j < |Flatten(xss)| ==> P(Flatten(xss)[j])
    decreases |xss|
  {
    if xss != [] {
      var front := xss[..|xss| - 1];
      FlattenHolds(front, P);
    }
  }

  /** Non-empty parts flatten to at least one element per part. */
  lemma {:induction false} FlattenAtLeast<T>(xss: seq<seq<T>>)
    requires forall i :: 0 <= i < |xss| ==> xss[i] != []
    ensures |Flatten(xss)| >= |xss|
    decreases |xss|
  {
    if xss != [] {
      FlattenAtLeast(xss[..|xss| - 1]);
    }
  }

  /** The rows written by running `step` on each element in turn, and whether
   *  a step raised an error. A step that raises keeps the rows it wrote
   *  before raising; no later step runs. */
  function Run<A, T>(step: A -> (seq<T>, bool), xs: seq<A>): (seq<T>, bool)
    decreases |xs|
  {
    if xs == [] then ([], false)
    else
      var before := Run(step, xs[..|xs| - 1]);
      if before.1 then before
      else
        var last := step(xs[|xs| - 1]);
        (before.0 + last.0, last.1)
  }

  /** A run raises iff one of its steps does. */
  lemma {:induction false} RunRaises<A, T>(step: A -> (seq<T>, bool), xs: seq<A>)
    ensures Run(step, xs).1 <==> exists j :: 0 <= j < |xs| && step(xs[j]).1
    decreases |xs|
  {
    if xs != [] {
      var front := xs[..|xs| - 1];
      RunRaises(step, front);
      assert forall j :: 0 <= j < |front| ==> front[j] == xs[j];
    }
  }

  /** A run in which no step raises writes the rows of every step, in
   *  order. */
  lemma {:induction false} RunWithoutError<A, T>(step: A -> (seq<T>, bool), xs: seq<A>)
    requires forall j :: 0 <= j < |xs| ==> !step(xs[j]).1
    ensures Run(step, xs) == (Flatten(Outputs(step, xs)), false)
    decreases |xs|
  {
    if xs != [] {
      var front := xs[..|xs| - 1];
      RunWithoutError(step, front);
      assert Outputs(step, xs)[..|xs| - 1] == Outputs(step, front);
    }
  }

  /** The rows each step writes, step by step. */
  function Outputs<A, T>(step: A -> (seq<T>, bool), xs: seq<A>): (r: seq<seq<T>>)
    ensures |r| == |xs|
  {
    seq(|xs|, j requires 0 <= j < |xs| => step(xs[j]).0)
  }

  /** When step `j` is the first to raise, the run ends there: it holds the
   *  rows of the steps before `j` and those step `j` wrote, and nothing
   *  from later steps. */
  lemma RunStopsAt<A, T>(step: A -> (seq<T>, bool), xs: seq<A>, j: nat)
    requires j < |xs| && step(xs[j]).1
    requires forall i :: 0 <= i < j ==> !step(xs[i]).1
    ensures Run(step, xs) == (Flatten(Outputs(step, xs[..j])) + step(xs[j]).0, true)
  {
    var front := xs[..j];
    assert forall i :: 0 <= i < |front| ==> front[i] == xs[i];
    RunWithoutError(step, front);
    assert xs[..j + 1][..j] == front;
    RunSticks(step, xs, j + 1);
  }

  /** Once a run has raised, later elements change nothing. */
  lemma {:induction false} RunSticks<A, T>(step: A -> (seq<T>, bool), xs: seq<A>, m: nat)
    requires m <= |xs| && Run(step, xs[..m]).1
    ensures Run(step, xs) == Run(step, xs[..m])
    decreases |xs| - m
  {
    if m < |xs| {
      assert xs[..m + 1][..m] == xs[..m];
      RunSticks(step, xs, m + 1);
    } else {
      assert xs[..m] == xs;
    }
  }

  /** A property of the rows every step writes holds of every row of the
   *  run. */
  lemma {:induction false} RunHolds<A, T>(step: A -> (seq<T>, bool), xs: seq<A>, P: T -> bool)
    requires forall j, k :: 0 <= j < |xs| && 0 <= k < |step(xs[j]).0| ==> P(step(xs[j]).0[k])
    ensures forall k :: 0 <= k < |Run(step, xs).0| ==> P(Run(step, xs).0[k])
    decreases |xs|
  {
    if xs != [] {
      var front := xs[..|xs| - 1];
      RunHolds(step, front, P);
    }
  }

  /** One more step of a run that has not raised. */
  lemma RunSnoc<A, T>(step: A -> (seq<T>, bool), xs: seq<A>, i: nat)
    requires i < |xs| && !Run(step, xs[..i]).1
    ensures Run(step, xs[..i + 1]) == (Run(step, xs[..i]).0 + step(xs[i]).0, step(xs[i]).1)
  {
    assert xs[..i + 1][..i] == xs[..i];
  }
}
