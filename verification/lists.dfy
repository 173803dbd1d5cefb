/**
 * The shape shared by the two accumulation loops of the program: the loop over the
 * anchors of a results page (main.py:47-54) and the loop over the detail pages of a
 * search (main.py:240-277). Each element in turn appends what a step gives for it,
 * here at most one item. The lemmas hold for any step, so they are proved once and
 * without looking inside the steps.
 */
module Lists {

  /** Concatenation of `step(xs[0])`, `step(xs[1])`, … in order. */
  function Gather<T, U>(xs: seq<T>, step: T -> seq<U>): seq<U> {
    if xs == [] then [] else step(xs[0]) + Gather(xs[1..], step)
  }

  /** A step that appends at most one item per element gives at most one item per element. */
  lemma {:induction false} GatherBound<T, U>(xs: seq<T>, step: T -> seq<U>)
    requires forall j :: 0 <= j < |xs| ==> |step(xs[j])| <= 1
    ensures |Gather(xs, step)| <= |xs|
  {
    if xs != [] {
      assert forall j :: 0 <= j < |xs[1..]| ==> xs[1..][j] == xs[j + 1];
      GatherBound(xs[1..], step);
    }
  }

  /** A step that appends exactly one item per element gives one item per element. */
  lemma {:induction false} GatherExact<T, U>(xs: seq<T>, step: T -> seq<U>)
    requires forall j :: 0 <= j < |xs| ==> |step(xs[j])| == 1
    ensures |Gather(xs, step)| == |xs|
  {
    if xs != [] {
      assert forall j :: 0 <= j < |xs[1..]| ==> xs[1..][j] == xs[j + 1];
      GatherExact(xs[1..], step);
    }
  }

  /** A property of every item the step appends holds of every gathered item. */
  lemma {:induction false} GatherAll<T, U>(xs: seq<T>, step: T -> seq<U>, p: U -> bool)
    requires forall j :: 0 <= j < |xs| ==> forall u :: u in step(xs[j]) ==> p(u)
    ensures forall u :: u in Gather(xs, step) ==> p(u)
  {
    if xs != [] {
      assert forall j :: 0 <= j < |xs[1..]| ==> xs[1..][j] == xs[j + 1];
      GatherAll(xs[1..], step, p);
    }
  }

  /** Every gathered item is appended by the step of some element. */
  lemma {:induction false} GatherFrom<T, U>(xs: seq<T>, step: T -> seq<U>, i: nat)
    requires i < |Gather(xs, step)|
    ensures exists j :: 0 <= j < |xs| && Gather(xs, step)[i] in step(xs[j])
  {
    var first, rest := step(xs[0]), Gather(xs[1..], step);
    var u := Gather(xs, step)[i];
    if i < |first| {
      assert u == first[i];
    } else {
      assert u == rest[i - |first|];
      GatherFrom(xs[1..], step, i - |first|);
      var j :| 0 <= j < |xs[1..]| && u in step(xs[1..][j]);
      assert xs[1..][j] == xs[j + 1];
    }
  }

  /** One element gives what its step gives. */
  lemma GatherOne<T, U>(x: T, step: T -> seq<U>)
    ensures Gather([x], step) == step(x)
  {
    assert [x][1..] == [];
    assert Gather([x], step) == step(x) + [];
  }

  /** The items gathered from two runs of elements are those of each, in order. */
  lemma {:induction false} GatherAppend<T, U>(a: seq<T>, b: seq<T>, step: T -> seq<U>)
    ensures Gather(a + b, step) == Gather(a, step) + Gather(b, step)
    decreases |a|
  {
    if a == [] {
      assert a + b == b;
    } else {
      assert (a + b)[0] == a[0];
      assert (a + b)[1..] == a[1..] + b;
      GatherAppend(a[1..], b, step);
    }
  }

  /** After the `j + 1`-th element the list is the list after the `j`-th, then its items. */
  lemma GatherStep<T, U>(xs: seq<T>, j: nat, step: T -> seq<U>)
    requires j < |xs|
    ensures Gather(xs[..j + 1], step) == Gather(xs[..j], step) + step(xs[j])
  {
    assert xs[..j + 1] == xs[..j] + [xs[j]];
    GatherAppend(xs[..j], [xs[j]], step);
    GatherOne(xs[j], step);
  }

  /** Every item the step appends for some element is gathered. */
  lemma GatherKeeps<T, U>(xs: seq<T>, j: nat, step: T -> seq<U>, u: U)
    requires j < |xs| && u in step(xs[j])
    ensures u in Gather(xs, step)
  {
    assert xs == xs[..j + 1] + xs[j + 1..];
    GatherAppend(xs[..j + 1], xs[j + 1..], step);
    GatherStep(xs, j, step);
  }
}
