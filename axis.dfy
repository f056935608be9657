/** The `Axis` enum of the geometry module and its helpers. */
module Geo {
  datatype Axis = X | Y

  /** `is_x`. */
  function IsX(a: Axis): (r: bool)
    ensures r <==> a == X
  {
    X == a
  }

  /** `is_y`. */
  function IsY(a: Axis): (r: bool)
    ensures r <==> a == Y
  {
    Y == a
  }

  /** Every axis is exactly one of the two, and the two differ. */
  lemma ExactlyOneAxis(a: Axis)
    ensures IsX(a) != IsY(a)
    ensures X != Y
  {
  }

  /** Runs a closure over a sequence of axes, left to right, threading the
      state it changes. */
  function Fold<S>(f: (S, Axis) -> S, s: S, axes: seq<Axis>): S
    decreases |axes|
  {
    if axes == [] then s else Fold(f, f(s, axes[0]), axes[1..])
  }

  /** `for_each`: the closure is called with `X`, then with `Y`; that is,
      the fold over exactly the axes `X`, `Y`, in that order. */
  function ForEach<S>(f: (S, Axis) -> S, s: S): (r: S)
    ensures r == Fold(f, s, [X, Y])
  {
    assert [X, Y][1..] == [Y];
    assert [Y][1..] == [];
    f(f(s, X), Y)
  }

  /** A closure that records its arguments sees `X` and then `Y`, once each. */
  lemma ForEachCallsTwice()
    ensures ForEach((t: seq<Axis>, a: Axis) => t + [a], []) == [X, Y]
  {
  }

  /** `Display`. */
  function Display(a: Axis): (r: string)
    ensures |r| == 1
    ensures a == X ==> r == "x"
    ensures a == Y ==> r == "y"
  {
    match a
    case X => "x"
    case Y => "y"
  }

  /** Different axes display differently. */
  lemma DisplayInjective(a: Axis, b: Axis)
    ensures Display(a) == Display(b) <==> a == b
  {
    assert Display(X)[0] == 'x' && Display(Y)[0] == 'y';
  }
}
