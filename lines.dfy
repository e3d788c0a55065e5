/**
 * Positions of the lines a format treats specially (headers, data lines).
 * The formats' reference definitions are stated over these positions.
 */
module Lines {

  /** The positions `i` with `p(xs[i])`, in increasing order. */
  function Positions<T>(xs: seq<T>, p: T -> bool): (r: seq<nat>)
    ensures forall k :: 0 <= k < |r| ==> r[k] < |xs| && p(xs[r[k]])
    ensures forall k, m :: 0 <= k < m < |r| ==> r[k] < r[m]
    decreases |xs|
  {
    if xs == [] then []
    else
      var n := |xs| - 1;
      var before := Positions(xs[..n], p);
      assert forall i :: 0 <= i < n ==> xs[..n][i] == xs[i];
      before + (if p(xs[n]) then [n] else [])
  }

  /** Every position whose element satisfies `p` is listed. */
  lemma {:induction false} PositionsComplete<T>(xs: seq<T>, p: T -> bool, i: nat)
    requires i < |xs| && p(xs[i])
    ensures i in Positions(xs, p)
    decreases |xs|
  {
    var n := |xs| - 1;
    if i < n {
      assert xs[..n][i] == xs[i];
      PositionsComplete(xs[..n], p, i);
    }
  }

  /** Nothing satisfying `p`, no positions. */
  lemma {:induction false} PositionsNone<T>(xs: seq<T>, p: T -> bool)
    requires forall i :: 0 <= i < |xs| ==> !p(xs[i])
    ensures Positions(xs, p) == []
    decreases |xs|
  {
    if xs != [] {
      var n := |xs| - 1;
      assert forall i :: 0 <= i < n ==> xs[..n][i] == xs[i];
      PositionsNone(xs[..n], p);
    }
  }

  /** Looking at one more element adds its position exactly when it satisfies `p`. */
  lemma PositionsSnoc<T>(xs: seq<T>, i: nat, p: T -> bool)
    requires i < |xs|
    ensures Positions(xs[..i + 1], p) == Positions(xs[..i], p) + (if p(xs[i]) then [i] else [])
  {
    assert xs[..i + 1][..i] == xs[..i];
  }

  /**
   * `f(before, x)` for every `x` of `xs` that satisfies `p`, in order, where
   * `before` is the part of `xs` in front of `x`.
   */
  function MapPositions<T, U>(xs: seq<T>, p: T -> bool, f: (seq<T>, T) -> U): (r: seq<U>)
    ensures |r| == |Positions(xs, p)|
  {
    var ps := Positions(xs, p);
    seq(|ps|, k requires 0 <= k < |ps| => f(xs[..ps[k]], xs[ps[k]]))
  }

  /** Looking at one more element appends its image exactly when it satisfies `p`. */
  lemma MapPositionsSnoc<T, U>(xs: seq<T>, i: nat, p: T -> bool, f: (seq<T>, T) -> U)
    requires i < |xs|
    ensures MapPositions(xs[..i + 1], p, f) ==
      MapPositions(xs[..i], p, f) + (if p(xs[i]) then [f(xs[..i], xs[i])] else [])
  {
    PositionsSnoc(xs, i, p);
    var before := Positions(xs[..i], p);
    forall k | 0 <= k < |before|
      ensures xs[..i + 1][..before[k]] == xs[..i][..before[k]]
      ensures xs[..i + 1][before[k]] == xs[..i][before[k]]
    {
    }
    assert xs[..i + 1][..i] == xs[..i];
  }

  /** `xs.TakeWhile(x => !stop(x))`: the longest prefix in which no element satisfies `stop`. */
  function TakeUntil<T>(xs: seq<T>, stop: T -> bool): (r: seq<T>)
    ensures |r| <= |xs| && r == xs[..|r|]
    ensures forall i :: 0 <= i < |r| ==> !stop(r[i])
    ensures |r| < |xs| ==> stop(xs[|r|])
  {
    if xs == [] || stop(xs[0]) then []
    else
      var rest := TakeUntil(xs[1..], stop);
      assert [xs[0]] + rest == xs[..|rest| + 1];
      [xs[0]] + rest
  }

  /** Looking at one more element extends the prefix only while no element has stopped it. */
  lemma {:induction false} TakeUntilSnoc<T>(xs: seq<T>, x: T, stop: T -> bool)
    ensures TakeUntil(xs + [x], stop) ==
      if |TakeUntil(xs, stop)| < |xs| || stop(x) then TakeUntil(xs, stop) else xs + [x]
  {
    if xs != [] && !stop(xs[0]) {
      assert (xs + [x])[1..] == xs[1..] + [x];
      TakeUntilSnoc(xs[1..], x, stop);
    }
  }

  /** Dropping a prefix in which nothing satisfies `p` keeps the number of positions. */
  lemma {:induction false} PositionsDropNone<T>(xs: seq<T>, p: T -> bool, m: nat)
    requires m <= |xs| && forall i :: 0 <= i < m ==> !p(xs[i])
    ensures |Positions(xs[m..], p)| == |Positions(xs, p)|
    decreases |xs|
  {
    if |xs| == m {
      PositionsNone(xs, p);
      assert xs[m..] == [];
    } else {
      var n := |xs| - 1;
      assert forall i :: 0 <= i < m ==> xs[..n][i] == xs[i];
      PositionsDropNone(xs[..n], p, m);
      assert xs[m..][..n - m] == xs[..n][m..];
      assert xs[m..][n - m] == xs[n];
    }
  }

  /** The position of the first occurrence of `x` in `xs`. */
  function FirstIndex<T(==)>(xs: seq<T>, x: T): (r: nat)
    requires x in xs
    ensures r < |xs| && xs[r] == x && x !in xs[..r]
  {
    if xs[0] == x then 0
    else
      var r := FirstIndex(xs[1..], x);
      assert xs[..r + 1] == [xs[0]] + xs[1..][..r];
      r + 1
  }

  /**
   * `r` is `xs.Except(ys)`: it holds exactly the elements of `xs` that are not
   * in `ys`, each once, in the order of their first occurrence in `xs`.
   */
  ghost predicate IsExcept(xs: seq<string>, ys: seq<string>, r: seq<string>) {
    (forall x :: x in r <==> x in xs && x !in ys) &&
    (forall i, j :: 0 <= i < j < |r| ==> r[i] != r[j]) &&
    (forall i, j :: 0 <= i < j < |r| ==> r[i] in xs && r[j] in xs && FirstIndex(xs, r[i]) < FirstIndex(xs, r[j]))
  }

  /** Past the first element, every first occurrence is one position further on than in the tail. */
  lemma FirstIndexTail(xs: seq<string>, rest: seq<string>)
    requires xs != [] && forall i :: 0 <= i < |rest| ==> rest[i] in xs[1..] && rest[i] != xs[0]
    ensures forall i :: 0 <= i < |rest| ==> FirstIndex(xs, rest[i]) == FirstIndex(xs[1..], rest[i]) + 1
  {
  }

  /** A first element already excluded adds nothing. */
  lemma ExceptSkip(xs: seq<string>, ys: seq<string>, rest: seq<string>)
    requires xs != [] && xs[0] in ys && IsExcept(xs[1..], ys, rest)
    ensures IsExcept(xs, ys, rest)
  {
    assert forall x :: x in xs <==> x == xs[0] || x in xs[1..];
    FirstIndexTail(xs, rest);
  }

  /** A first element not excluded comes first, and is excluded from the rest. */
  lemma ExceptKeep(xs: seq<string>, ys: seq<string>, rest: seq<string>)
    requires xs != [] && xs[0] !in ys && IsExcept(xs[1..], ys + [xs[0]], rest)
    ensures IsExcept(xs, ys, [xs[0]] + rest)
  {
    assert forall x :: x in xs <==> x == xs[0] || x in xs[1..];
    assert xs[0] !in rest;
    FirstIndexTail(xs, rest);
    var r := [xs[0]] + rest;
    assert forall i :: 1 <= i < |r| ==> r[i] == rest[i - 1];
    assert FirstIndex(xs, xs[0]) == 0;
    assert forall x :: x in r <==> x == xs[0] || x in rest;
  }

  /** `xs.Except(ys)`: the distinct elements of `xs` that are not in `ys`, in the order of their first occurrence. */
  function Except(xs: seq<string>, ys: seq<string>): (r: seq<string>)
    ensures IsExcept(xs, ys, r)
  {
    if xs == [] then []
    else if xs[0] in ys then
      var rest := Except(xs[1..], ys);
      ExceptSkip(xs, ys, rest);
      rest
    else
      var rest := Except(xs[1..], ys + [xs[0]]);
      ExceptKeep(xs, ys, rest);
      [xs[0]] + rest
  }
}
