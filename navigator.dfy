/** `CheckMapInfo`, `CheckObstacle` and `MoveToTarget`: read the position,
    plan a route, walk it with a one-step recovery before each blocked
    step, and check the arrival. Each method is proved against a function
    of the scripted context's state before the call. */
module Navigator {
  import opened TextOps
  import opened Context
  import opened MapInfoParser
  import opened Routes

  const ObstacleMarker: string := "障碍物"
  const BlockedMarker: string := "无法通过"

  /** The fragment text says the way is blocked. */
  predicate IsObstacleText(text: string) {
    Contains(text, ObstacleMarker) || Contains(text, BlockedMarker)
  }

  /** What `CheckObstacle` decides from the `ObstacleCheck` recognition:
      true exactly when some recognised fragment carries a marker. */
  predicate ObstacleSeen(reco: Recognition) {
    reco.Some? && exists i | 0 <= i < |reco.value| :: IsObstacleText(reco.value[i].text)
  }

  /** How `MoveToTarget` ends: it returns a boolean, or line 138 reads
      `.x` of a `None` read-back and raises `AttributeError`. */
  datatype MoveResult = Returned(arrived: bool) | RaisedAttributeError

  // ---------------------------------------------------------------------------
  // The specification: each operation as a function of the context's state

  /** `CheckMapInfo`: one recognition of the status panel, parsed when it
      was recognised. */
  function MapInfoRead(e: Env): (Option<MapInfoValue>, Env) {
    var (reco, e1) := Recognized(e, MapInfoCheck);
    (if reco.Some? then Some(Parsed(reco.value)) else None, e1)
  }

  /** `CheckObstacle`. */
  function ObstacleRead(e: Env): (bool, Env) {
    var (reco, e1) := Recognized(e, ObstacleCheck);
    (ObstacleSeen(reco), e1)
  }

  /** One pass of the step loop: the obstacle check, the `moveUp` recovery
      and its wait when blocked, then the step and its wait. False when an
      action reported failure; the pass stops there. */
  function StepRound(e: Env, step: Action): (bool, Env) {
    var (blocked, e1) := ObstacleRead(e);
    var (recovered, e2) := if blocked then Acted(e1, MoveUp) else (true, e1);
    if !recovered then (false, e2)
    else
      var e3 := if blocked then Settled(e2) else e2;
      var (moved, e4) := Acted(e3, step);
      if !moved then (false, e4) else (true, Settled(e4))
  }

  /** The step loop over `steps`, ending at the first failed action. */
  function Walk(e: Env, steps: seq<Action>): (bool, Env)
    decreases |steps|
  {
    if steps == [] then (true, e)
    else
      var (ok, e1) := StepRound(e, steps[0]);
      if !ok then (false, e1) else Walk(e1, steps[1..])
  }

  /** `MoveToTarget(context, tx, ty)`. */
  function Move(e: Env, tx: int, ty: int): (MoveResult, Env) {
    var (current, e1) := MapInfoRead(e);
    if current.None? || current.value.x.None? || current.value.y.None? then (Returned(false), e1)
    else MoveFrom(e1, Route(current.value.x.value, current.value.y.value, tx, ty), tx, ty)
  }

  /** The step loop over the planned `steps`, then the final check. */
  function MoveFrom(e: Env, steps: seq<Action>, tx: int, ty: int): (MoveResult, Env) {
    var (ok, e1) := Walk(e, steps);
    if !ok then (Returned(false), e1) else Arrival(e1, tx, ty)
  }

  /** The final check: a fresh read of the position compared with the
      target; `new_map_info.x` on a `None` read raises. */
  function Arrival(e: Env, tx: int, ty: int): (MoveResult, Env) {
    var (arrived, e1) := MapInfoRead(e);
    if arrived.Some? && arrived.value.x == Some(tx) && arrived.value.y == Some(ty) then
      (Returned(true), e1)
    else if arrived.None? then (RaisedAttributeError, e1)
    else (Returned(false), e1)
  }

  // ---------------------------------------------------------------------------
  // The operations

  method CheckMapInfo(ctx: Session) returns (info: Option<MapInfo>)
    modifies ctx
    ensures ctx.State() == MapInfoRead(old(ctx.State())).1
    ensures info.None? <==> MapInfoRead(old(ctx.State())).0.None?
    ensures info.Some? ==> fresh(info.value)
                           && Some(info.value.Value()) == MapInfoRead(old(ctx.State())).0
  {
    var recoDetail := ctx.RunRecognition(MapInfoCheck);
    if recoDetail.Some? {
      var parsed := ParseMapInfo(recoDetail.value);
      return Some(parsed);
    }
    return None;
  }

  method CheckObstacle(ctx: Session) returns (blocked: bool)
    modifies ctx
    ensures (blocked, ctx.State()) == ObstacleRead(old(ctx.State()))
  {
    var obstacleReco := ctx.RunRecognition(ObstacleCheck);
    if obstacleReco.Some? {
      var results := obstacleReco.value;
      for i := 0 to |results|
        invariant forall j :: 0 <= j < i ==> !IsObstacleText(results[j].text)
      {
        if Contains(results[i].text, ObstacleMarker) || Contains(results[i].text, BlockedMarker) {
          return true;
        }
      }
    }
    return false;
  }

  method MoveToTarget(ctx: Session, targetX: int, targetY: int) returns (r: MoveResult)
    modifies ctx
    ensures (r, ctx.State()) == Move(old(ctx.State()), targetX, targetY)
  {
    ghost var e0 := ctx.State();
    var current := CheckMapInfo(ctx);
    if current.None? || current.value.x.None? || current.value.y.None? {
      return Returned(false);
    }
    var currentX, currentY := current.value.x.value, current.value.y.value;

    var steps := PlanSteps(currentX, currentY, targetX, targetY);
    assert Move(e0, targetX, targetY) == MoveFrom(ctx.State(), steps, targetX, targetY);

    ghost var start := ctx.State();
    for i := 0 to |steps|
      invariant Walk(start, steps) == Walk(ctx.State(), steps[i..])
    {
      assert steps[i..][0] == steps[i] && steps[i..][1..] == steps[i + 1..];
      var moved := TakeStep(ctx, steps[i]);
      if !moved {
        return Returned(false);
      }
    }
    assert Walk(start, steps) == (true, ctx.State());
    assert MoveFrom(start, steps, targetX, targetY) == Arrival(ctx.State(), targetX, targetY);

    var arrived := CheckMapInfo(ctx);
    if arrived.Some? && arrived.value.x == Some(targetX) && arrived.value.y == Some(targetY) {
      return Returned(true);
    } else if arrived.None? {
      return RaisedAttributeError;
    } else {
      return Returned(false);
    }
  }

  /** The body of the step loop of `MoveToTarget` for one planned `step`. */
  method TakeStep(ctx: Session, step: Action) returns (ok: bool)
    modifies ctx
    ensures (ok, ctx.State()) == StepRound(old(ctx.State()), step)
  {
    var blocked := CheckObstacle(ctx);
    if blocked {
      var recovered := ctx.RunAction(MoveUp);
      if !recovered {
        return false;
      }
      ctx.Sleep();
    }
    var moved := ctx.RunAction(step);
    if !moved {
      return false;
    }
    ctx.Sleep();
    return true;
  }

  /** The route planning of `MoveToTarget`: `steps` extended by the
      horizontal moves, then by the vertical ones. */
  method PlanSteps(currentX: int, currentY: int, targetX: int, targetY: int)
    returns (steps: seq<Action>)
    ensures steps == Route(currentX, currentY, targetX, targetY)
  {
    steps := [];
    if currentX < targetX {
      steps := steps + Repeat(MoveRight, targetX - currentX);
    } else if currentX > targetX {
      steps := steps + Repeat(MoveLeft, currentX - targetX);
    }
    if currentY < targetY {
      steps := steps + Repeat(MoveDown, targetY - currentY);
    } else if currentY > targetY {
      steps := steps + Repeat(MoveUp, currentY - targetY);
    }
  }
}
