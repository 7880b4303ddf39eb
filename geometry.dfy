/** Value types shared by the layout engines and the drag-and-drop controllers:
    points, sizes and edge insets over `real` (standing for `CGFloat`), grid
    positions over `int`, and the `reduce(0, +)` sum over a sequence of reals. */
module Geometry {

  /** Swift's optional. */
  datatype Option<T> = None | Some(value: T)

  datatype Point = Point(x: real, y: real)

  datatype Size = Size(width: real, height: real)

  /** Per-edge values, as `UIEdgeInsets`. */
  datatype Insets = Insets(top: real, left: real, bottom: real, right: real)

  /** A sparse grid address; the top-left cell is (1, 1). */
  datatype GridPosition = GridPosition(x: int, y: int)

  const Origin := Point(0.0, 0.0)
  const ZeroSize := Size(0.0, 0.0)
  const NoPosition := GridPosition(0, 0)

  function Max(a: real, b: real): (r: real)
    ensures r >= a && r >= b && (r == a || r == b)
  {
    if a >= b then a else b
  }

  function MaxInt(a: int, b: int): (r: int)
    ensures r >= a && r >= b && (r == a || r == b)
  {
    if a >= b then a else b
  }

  function Min(a: real, b: real): (r: real)
    ensures r <= a && r <= b && (r == a || r == b)
  {
    if a <= b then a else b
  }

  function Abs(a: real): (r: real)
    ensures r >= 0.0 && (r == a || r == -a)
  {
    if a < 0.0 then -a else a
  }

  /** `s.reduce(0, +)`: a left fold, so the last element is added last. */
  function Sum(s: seq<real>): real
  {
    if |s| == 0 then 0.0 else Sum(s[..|s| - 1]) + s[|s| - 1]
  }

  predicate NonNegative(s: seq<real>)
  {
    forall i :: 0 <= i < |s| ==> s[i] >= 0.0
  }

  /** Extending a prefix by one element adds that element. */
  lemma SumPrefixStep(s: seq<real>, i: nat)
    requires i < |s|
    ensures Sum(s[..i + 1]) == Sum(s[..i]) + s[i]
  {
    assert s[..i + 1][..i] == s[..i];
  }

  lemma {:induction false} SumNonNegative(s: seq<real>)
    requires NonNegative(s)
    ensures Sum(s) >= 0.0
    decreases |s|
  {
    if |s| > 0 {
      SumNonNegative(s[..|s| - 1]);
    }
  }

  /** With non-negative terms, a longer prefix never sums to less. */
  lemma {:induction false} SumPrefixMonotone(s: seq<real>, i: nat, j: nat)
    requires NonNegative(s)
    requires i <= j <= |s|
    ensures Sum(s[..i]) <= Sum(s[..j])
    decreases j - i
  {
    if i < j {
      SumPrefixMonotone(s, i, j - 1);
      SumPrefixStep(s, j - 1);
    }
  }
}
