/** The Python list idioms the resume editor is built from, as functions on
    sequences: a filtering list comprehension, a prefix slice and a forward
    scan for the first element that satisfies a test. */
module Lists {

  /** Regrouping four concatenated sequences. */
  lemma AppendAssoc<T>(x: seq<T>, a: seq<T>, m: seq<T>, b: seq<T>)
    ensures x + (a + m + b) == (x + a + m) + b
  {
  }

  /** Python's `xs[:n]`. */
  function Take<T>(xs: seq<T>, n: nat): (r: seq<T>)
    ensures |r| == if |xs| < n then |xs| else n
    ensures r <= xs
  {
    if |xs| <= n then xs else xs[..n]
  }

  /** The first index `k >= i` whose element satisfies `p`, or `|xs|` when
      there is none: the shape of every `for ... if ...: break` scan. */
  function FirstFrom<T>(xs: seq<T>, i: nat, p: T -> bool): (k: nat)
    requires i <= |xs|
    ensures i <= k <= |xs|
    ensures forall j {:trigger p(xs[j])} :: i <= j < k ==> !p(xs[j])
    ensures k < |xs| ==> p(xs[k])
    decreases |xs| - i
  {
    if i == |xs| || p(xs[i]) then i else FirstFrom(xs, i + 1, p)
  }

  /** A match at `j` bounds the scan from `i` by `j`. */
  lemma FirstFromBound<T>(xs: seq<T>, i: nat, p: T -> bool, j: nat)
    requires i <= j < |xs|
    ensures p(xs[j]) ==> FirstFrom(xs, i, p) <= j
  {
  }

  /** `FirstFrom` is characterised by its contract: an index with no match
      before it and a match at it (or the end) is the one it finds. */
  lemma {:induction false} FirstFromUnique<T>(xs: seq<T>, i: nat, p: T -> bool, k: nat)
    requires i <= k <= |xs|
    requires forall j :: i <= j < k ==> !p(xs[j])
    requires k < |xs| ==> p(xs[k])
    ensures FirstFrom(xs, i, p) == k
    decreases k - i
  {
    if i < k {
      FirstFromUnique(xs, i + 1, p, k);
    }
  }

  /** Python's `[f(x) for x in xs if keep(x)]`, written from the back so that
      a loop which appends one element at a time can be compared with it. */
  function Comprehension<T, U>(xs: seq<T>, f: T -> U, keep: T -> bool): seq<U>
    decreases |xs|
  {
    if xs == [] then []
    else
      var n := |xs| - 1;
      Comprehension(xs[..n], f, keep) + (if keep(xs[n]) then [f(xs[n])] else [])
  }

  /** Extending the input by its next element extends the comprehension by
      that element's image when it is kept, and by nothing otherwise. */
  lemma ComprehensionStep<T, U>(xs: seq<T>, i: nat, f: T -> U, keep: T -> bool)
    requires i < |xs|
    ensures Comprehension(xs[..i + 1], f, keep)
            == Comprehension(xs[..i], f, keep) + (if keep(xs[i]) then [f(xs[i])] else [])
  {
    assert xs[..i + 1][..i] == xs[..i];
  }

  /** The indices of `xs` that `keep` selects, in increasing order. */
  ghost function Picked<T>(xs: seq<T>, keep: T -> bool): seq<nat>
    decreases |xs|
  {
    if xs == [] then []
    else
      var n := |xs| - 1;
      Picked(xs[..n], keep) + (if keep(xs[n]) then [n] else [])
  }

  /** Strictly increasing indices: the order of the source is kept. */
  ghost predicate Increasing(ix: seq<nat>) {
    forall k, m :: 0 <= k < m < |ix| ==> ix[k] < ix[m]
  }

  /** A comprehension keeps exactly the selected elements, maps each one, and
      keeps their order: its k-th element is `f` of the k-th selected element,
      and every selected index is among the picked ones. */
  lemma {:induction false} ComprehensionPicks<T, U>(xs: seq<T>, f: T -> U, keep: T -> bool)
    ensures |Picked(xs, keep)| == |Comprehension(xs, f, keep)|
    ensures Increasing(Picked(xs, keep))
    ensures forall k :: 0 <= k < |Picked(xs, keep)| ==>
              Picked(xs, keep)[k] < |xs|
              && keep(xs[Picked(xs, keep)[k]])
              && Comprehension(xs, f, keep)[k] == f(xs[Picked(xs, keep)[k]])
    ensures forall i :: 0 <= i < |xs| && keep(xs[i]) ==> i in Picked(xs, keep)
    decreases |xs|
  {
    if xs != [] {
      var n := |xs| - 1;
      var init := xs[..n];
      ComprehensionPicks(init, f, keep);
      assert forall j :: 0 <= j < n ==> init[j] == xs[j];
    }
  }

  /** Each element of a comprehension is the image of a kept element. */
  lemma ComprehensionElement<T, U>(xs: seq<T>, f: T -> U, keep: T -> bool, k: nat) returns (i: nat)
    requires k < |Comprehension(xs, f, keep)|
    ensures i < |xs| && keep(xs[i]) && Comprehension(xs, f, keep)[k] == f(xs[i])
  {
    ComprehensionPicks(xs, f, keep);
    i := Picked(xs, keep)[k];
  }

  /** The position in the comprehension of a kept input element. */
  lemma PickedIndex<T, U>(xs: seq<T>, f: T -> U, keep: T -> bool, i: nat) returns (m: nat)
    requires i < |xs| && keep(xs[i])
    ensures m < |Picked(xs, keep)| && Picked(xs, keep)[m] == i
    ensures m < |Comprehension(xs, f, keep)| && Comprehension(xs, f, keep)[m] == f(xs[i])
  {
    ComprehensionPicks(xs, f, keep);
    m :| 0 <= m < |Picked(xs, keep)| && Picked(xs, keep)[m] == i;
  }

  /** The input indices of the results of two comprehensions applied in
      turn: the picked index of each picked intermediate element. */
  ghost function PickedTwice<A, B>(xs: seq<A>, f: A -> B, keep: A -> bool, keep2: B -> bool): seq<nat> {
    var q := Picked(xs, keep);
    var p := Picked(Comprehension(xs, f, keep), keep2);
    seq(|p|, k requires 0 <= k < |p| => if p[k] < |q| then q[p[k]] else 0)
  }

  /** Facts about `PickedTwice`: it is increasing, names an input element for
      each result, and names every input element that passes both tests. */
  lemma PickedTwiceFacts<A, B, C>(xs: seq<A>, f: A -> B, keep: A -> bool, g: B -> C, keep2: B -> bool)
    ensures var ix := PickedTwice(xs, f, keep, keep2);
      && |ix| == |Comprehension(Comprehension(xs, f, keep), g, keep2)|
      && Increasing(ix)
      && (forall k :: 0 <= k < |ix| ==>
            ix[k] < |xs| && Comprehension(Comprehension(xs, f, keep), g, keep2)[k] == g(f(xs[ix[k]])))
  {
    var ys := Comprehension(xs, f, keep);
    var zs := Comprehension(ys, g, keep2);
    ComprehensionPicks(xs, f, keep);
    ComprehensionPicks(ys, g, keep2);
    var q := Picked(xs, keep);
    var p := Picked(ys, keep2);
    var ix := PickedTwice(xs, f, keep, keep2);
    forall k | 0 <= k < |ix|
      ensures ix[k] < |xs| && zs[k] == g(f(xs[ix[k]]))
    {
      assert zs[k] == g(ys[p[k]]);
      assert ys[p[k]] == f(xs[q[p[k]]]);
    }
  }

  /** An input element that passes both tests is named by `PickedTwice`, at
      the position of its result. */
  lemma PickedTwicePosition<A, B>(xs: seq<A>, f: A -> B, keep: A -> bool, keep2: B -> bool, j: nat)
    returns (k: nat)
    requires j < |xs| && keep(xs[j]) && keep2(f(xs[j]))
    ensures k < |PickedTwice(xs, f, keep, keep2)| && PickedTwice(xs, f, keep, keep2)[k] == j
  {
    var ys := Comprehension(xs, f, keep);
    ComprehensionPicks(xs, f, keep);
    var m := PickedIndex(xs, f, keep, j);
    k := PickedIndex(ys, (b: B) => b, keep2, m);
  }

  /** The first `n` results of two comprehensions applied in turn come from
      the input in order: `ix` names the input index of each result, and an
      input element not named, before the last named one when `n` were
      taken, fails one of the two tests. */
  lemma {:induction false} TwoComprehensionsPick<A, B, C>(xs: seq<A>, f: A -> B, keep: A -> bool,
                                                        g: B -> C, keep2: B -> bool, n: nat)
    returns (ix: seq<nat>)
    requires n > 0
    ensures var r := Take(Comprehension(Comprehension(xs, f, keep), g, keep2), n);
      && |ix| == |r| && Increasing(ix)
      && (forall k :: 0 <= k < |ix| ==> ix[k] < |xs| && r[k] == g(f(xs[ix[k]])))
      && (forall j :: 0 <= j < |xs| && j !in ix && (|ix| < n || j < ix[n - 1]) ==>
            !(keep(xs[j]) && keep2(f(xs[j]))))
  {
    var zs := Comprehension(Comprehension(xs, f, keep), g, keep2);
    var r := Take(zs, n);
    var all := PickedTwice(xs, f, keep, keep2);
    PickedTwiceFacts(xs, f, keep, g, keep2);
    ix := all[..|r|];
    forall j | 0 <= j < |xs| && keep(xs[j]) && keep2(f(xs[j]))
      ensures j in ix || (|ix| == n && ix[n - 1] < j)
    {
      var k := PickedTwicePosition(xs, f, keep, keep2, j);
      if k < |r| {
        assert ix[k] == j;
      } else {
        assert all[n - 1] < all[k];
      }
    }
  }

  /** A comprehension that keeps every element maps each one, in order. */
  lemma {:induction false} ComprehensionAll<T, U>(xs: seq<T>, f: T -> U, keep: T -> bool)
    requires forall i :: 0 <= i < |xs| ==> keep(xs[i])
    ensures |Comprehension(xs, f, keep)| == |xs|
    ensures forall i :: 0 <= i < |xs| ==> Comprehension(xs, f, keep)[i] == f(xs[i])
    decreases |xs|
  {
    if xs != [] {
      var n := |xs| - 1;
      ComprehensionAll(xs[..n], f, keep);
    }
  }

  /** A comprehension that keeps every element and changes none is the
      identity. */
  lemma {:induction false} ComprehensionKeepsAll<T>(xs: seq<T>, f: T -> T, keep: T -> bool)
    requires forall i :: 0 <= i < |xs| ==> keep(xs[i]) && f(xs[i]) == xs[i]
    ensures Comprehension(xs, f, keep) == xs
    decreases |xs|
  {
    if xs != [] {
      var n := |xs| - 1;
      ComprehensionKeepsAll(xs[..n], f, keep);
      assert xs[..n] + [xs[n]] == xs;
    }
  }
}
