/** The route `MoveToTarget` plans: every horizontal step first, then every
    vertical step, one grid cell per step. */
module Routes {
  import opened Context

  function Abs(n: int): nat {
    if n < 0 then -n else n
  }

  /** Python's `[a] * n` for a single action. */
  function Repeat(a: Action, n: nat): (r: seq<Action>)
    ensures |r| == n && forall i :: 0 <= i < n ==> r[i] == a
    decreases n
  {
    if n == 0 then [] else [a] + Repeat(a, n - 1)
  }

  /** The `steps` list planned from (cx, cy) to (tx, ty). */
  function Route(cx: int, cy: int, tx: int, ty: int): seq<Action> {
    (if cx < tx then Repeat(MoveRight, tx - cx)
     else if cx > tx then Repeat(MoveLeft, cx - tx)
     else [])
    +
    (if cy < ty then Repeat(MoveDown, ty - cy)
     else if cy > ty then Repeat(MoveUp, cy - ty)
     else [])
  }

  /** The cell offset of one move. */
  function Offset(a: Action): (int, int) {
    match a
    case MoveUp => (0, -1)
    case MoveDown => (0, 1)
    case MoveLeft => (-1, 0)
    case MoveRight => (1, 0)
  }

  /** The net offset of a sequence of moves that each take effect. */
  function Shift(moves: seq<Action>): (int, int)
    decreases |moves|
  {
    if moves == [] then (0, 0)
    else
      var (dx, dy) := Shift(moves[1..]);
      (Offset(moves[0]).0 + dx, Offset(moves[0]).1 + dy)
  }

  /** The route has |dx| + |dy| steps: |dx| copies of `moveRight` (dx > 0)
      or `moveLeft` (dx < 0), then |dy| copies of `moveDown` (dy > 0) or
      `moveUp` (dy < 0). */
  lemma RouteShape(cx: int, cy: int, tx: int, ty: int)
    ensures |Route(cx, cy, tx, ty)| == Abs(tx - cx) + Abs(ty - cy)
    ensures forall k :: 0 <= k < |Route(cx, cy, tx, ty)| ==>
      Route(cx, cy, tx, ty)[k] ==
        if k < Abs(tx - cx) then (if tx > cx then MoveRight else MoveLeft)
        else (if ty > cy then MoveDown else MoveUp)
  {
  }

  lemma {:induction false} ShiftAppend(a: seq<Action>, b: seq<Action>)
    ensures Shift(a + b) == (Shift(a).0 + Shift(b).0, Shift(a).1 + Shift(b).1)
    decreases |a|
  {
    if a != [] {
      assert (a + b)[1..] == a[1..] + b;
      ShiftAppend(a[1..], b);
    } else {
      assert a + b == b;
    }
  }

  /** The offset of `n` moves in direction `a`. */
  function Scaled(a: Action, n: int): (int, int) {
    match a
    case MoveUp => (0, -n)
    case MoveDown => (0, n)
    case MoveLeft => (-n, 0)
    case MoveRight => (n, 0)
  }

  lemma {:induction false} ShiftRepeat(a: Action, n: nat)
    ensures Shift(Repeat(a, n)) == Scaled(a, n)
    decreases n
  {
    if n > 0 {
      ShiftRepeat(a, n - 1);
      assert Repeat(a, n)[1..] == Repeat(a, n - 1);
    }
  }

  /** Taken move by move, the route ends on the target. */
  lemma RouteReachesTarget(cx: int, cy: int, tx: int, ty: int)
    ensures Shift(Route(cx, cy, tx, ty)) == (tx - cx, ty - cy)
  {
    var h := if cx < tx then Repeat(MoveRight, tx - cx)
             else if cx > tx then Repeat(MoveLeft, cx - tx) else [];
    var v := if cy < ty then Repeat(MoveDown, ty - cy)
             else if cy > ty then Repeat(MoveUp, cy - ty) else [];
    assert Route(cx, cy, tx, ty) == h + v;
    ShiftAppend(h, v);
    HorizontalShift(cx, tx);
    VerticalShift(cy, ty);
  }

  lemma HorizontalShift(cx: int, tx: int)
    ensures Shift(if cx < tx then Repeat(MoveRight, tx - cx)
                  else if cx > tx then Repeat(MoveLeft, cx - tx) else []) == (tx - cx, 0)
  {
    if cx < tx { ShiftRepeat(MoveRight, tx - cx); }
    else if cx > tx { ShiftRepeat(MoveLeft, cx - tx); }
  }

  lemma VerticalShift(cy: int, ty: int)
    ensures Shift(if cy < ty then Repeat(MoveDown, ty - cy)
                  else if cy > ty then Repeat(MoveUp, cy - ty) else []) == (0, ty - cy)
  {
    if cy < ty { ShiftRepeat(MoveDown, ty - cy); }
    else if cy > ty { ShiftRepeat(MoveUp, cy - ty); }
  }

  /** No sequence of one-cell moves is shorter than its net offset's
      Manhattan length, so the route is a shortest one. */
  lemma {:induction false} ShiftBound(moves: seq<Action>)
    ensures Abs(Shift(moves).0) + Abs(Shift(moves).1) <= |moves|
    decreases |moves|
  {
    if moves != [] {
      ShiftBound(moves[1..]);
    }
  }

  lemma RouteMinimal(cx: int, cy: int, tx: int, ty: int, moves: seq<Action>)
    requires Shift(moves) == (tx - cx, ty - cy)
    ensures |Route(cx, cy, tx, ty)| <= |moves|
  {
    ShiftBound(moves);
    RouteShape(cx, cy, tx, ty);
  }
}
