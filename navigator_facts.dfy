/** What `MoveToTarget` and `CheckObstacle` do to the game, stated over the
    scripted context: which actions are issued in which order, when the
    walk stops, and what the final check decides. */
module NavigatorFacts {
  import opened TextOps
  import opened Context
  import opened MapInfoParser
  import opened MapInfoFacts
  import opened Routes
  import opened Navigator

  // ---------------------------------------------------------------------------
  // Obstacle detection

  lemma ContainsInfix(pre: string, pat: string, post: string)
    ensures Contains(pre + pat + post, pat)
  {
    assert (pre + pat + post)[|pre|..|pre| + |pat|] == pat;
    assert OccursAt(pre + pat + post, pat, |pre|);
  }

  /** A fragment whose text holds either marker makes the check true. */
  lemma ObstacleMarkerFound(reco: Recognition, i: nat, pre: string, marker: string, post: string)
    requires reco.Some? && i < |reco.value|
    requires marker == ObstacleMarker || marker == BlockedMarker
    requires reco.value[i].text == pre + marker + post
    ensures ObstacleSeen(reco)
  {
    ContainsInfix(pre, marker, post);
    assert IsObstacleText(reco.value[i].text);
  }

  /** No recognition, or fragments that hold neither marker's first
      character, make the check false. */
  lemma ObstacleAbsent(reco: Recognition)
    requires reco.None? || forall i :: 0 <= i < |reco.value| ==>
               '障' !in reco.value[i].text && '无' !in reco.value[i].text
    ensures !ObstacleSeen(reco)
  {
    if reco.Some? {
      forall i | 0 <= i < |reco.value|
        ensures !IsObstacleText(reco.value[i].text)
      {
        var text := reco.value[i].text;
        if Contains(text, ObstacleMarker) {
          ContainsElement(text, ObstacleMarker, 0);
          assert false;
        }
        if Contains(text, BlockedMarker) {
          ContainsElement(text, BlockedMarker, 0);
          assert false;
        }
      }
    }
  }

  // ---------------------------------------------------------------------------
  // The issued actions

  /** The answers of the coming `n` obstacle checks. */
  function Flags(obstacleReads: seq<Recognition>, n: nat): (flags: seq<bool>)
    ensures |flags| == n
    decreases n
  {
    if n == 0 then [] else [ObstacleSeen(Next(obstacleReads, None))] + Flags(Rest(obstacleReads), n - 1)
  }

  /** The actions one pass of the loop issues for `step`. */
  function Round(step: Action, blocked: bool): seq<Action> {
    if blocked then [MoveUp, step] else [step]
  }

  /** The actions the step loop issues when no action fails. */
  function Planned(steps: seq<Action>, flags: seq<bool>): seq<Action>
    requires |flags| == |steps|
    decreases |steps|
  {
    if steps == [] then [] else Round(steps[0], flags[0]) + Planned(steps[1..], flags[1..])
  }

  /** The coming `n` actions all report success. */
  predicate AllSucceed(outcomes: seq<bool>, n: nat) {
    forall j | 0 <= j < n :: OutcomeAt(outcomes, j)
  }

  /** `t` is what a run through the plan `full` issued when it stops at the
      first action reporting failure; `ok` says whether it got through. */
  predicate RanUntilFailure(outcomes: seq<bool>, full: seq<Action>, t: seq<Action>, ok: bool) {
    t <= full
    && (ok ==> t == full)
    && (forall j | 0 <= j < |t| && (ok || j < |t| - 1) :: OutcomeAt(outcomes, j))
    && (!ok ==> |t| > 0 && !OutcomeAt(outcomes, |t| - 1))
  }

  /** Such a run gets through exactly when every action of the plan succeeds. */
  lemma RanUntilFailureMeaning(outcomes: seq<bool>, full: seq<Action>, t: seq<Action>, ok: bool)
    requires RanUntilFailure(outcomes, full, t, ok)
    ensures ok <==> AllSucceed(outcomes, |full|)
  {
    if !ok {
      assert !OutcomeAt(outcomes, |t| - 1);
    }
  }

  /** From `e` to `e1` the core issued a prefix of `full`, stopping at the
      first failed action, consumed one outcome per issued action, left the
      position script alone and waited once after each successful action. */
  predicate Traced(e: Env, e1: Env, full: seq<Action>, ok: bool) {
    e.issued <= e1.issued
    && RanUntilFailure(e.outcomes, full, e1.issued[|e.issued|..], ok)
    && e1.outcomes == Drop(e.outcomes, |e1.issued| - |e.issued|)
    && e1.mapReads == e.mapReads
    && e1.settles == e.settles + (if ok then |e1.issued| - |e.issued| else |e1.issued| - |e.issued| - 1)
  }

  lemma DropDrop(s: seq<bool>, a: nat, b: nat)
    ensures Drop(Drop(s, a), b) == Drop(s, a + b)
  {
  }

  lemma PrefixThen(a: seq<Action>, b: seq<Action>, c: seq<Action>)
    requires a <= b && b <= c
    ensures a <= c && c[|a|..] == b[|a|..] + c[|b|..]
  {
    assert b == a + b[|a|..];
    assert c == b + c[|b|..];
  }

  lemma RanThrough(o: seq<bool>, f1: seq<Action>, t1: seq<Action>, f2: seq<Action>, t2: seq<Action>,
                   ok: bool)
    requires RanUntilFailure(o, f1, t1, true) && RanUntilFailure(Drop(o, |t1|), f2, t2, ok)
    ensures RanUntilFailure(o, f1 + f2, t1 + t2, ok)
  {
    assert t1 == f1;
    forall j | 0 <= j < |t1| + |t2| && (ok || j < |t1| + |t2| - 1)
      ensures OutcomeAt(o, j)
    {
      if j >= |t1| {
        assert OutcomeAt(Drop(o, |t1|), j - |t1|);
        OutcomeAtDrop(o, |t1|, j - |t1|);
      }
    }
    if !ok {
      OutcomeAtDrop(o, |t1|, |t2| - 1);
    }
    assert (t1 + t2)[..|t1|] == t1;
    assert t1 + t2 <= f1 + f2;
  }

  lemma TracedThen(e: Env, e1: Env, e2: Env, f1: seq<Action>, f2: seq<Action>, ok: bool)
    requires Traced(e, e1, f1, true) && Traced(e1, e2, f2, ok)
    ensures Traced(e, e2, f1 + f2, ok)
  {
    PrefixThen(e.issued, e1.issued, e2.issued);
    var t1, t2 := e1.issued[|e.issued|..], e2.issued[|e1.issued|..];
    assert |e2.issued| - |e.issued| == |t1| + |t2|;
    RanThrough(e.outcomes, f1, t1, f2, t2, ok);
    DropDrop(e.outcomes, |t1|, |t2|);
  }

  lemma TracedStop(e: Env, e1: Env, f1: seq<Action>, f2: seq<Action>)
    requires Traced(e, e1, f1, false)
    ensures Traced(e, e1, f1 + f2, false)
  {
  }

  /** One pass of the loop: the optional `moveUp` recovery, then the step. */
  lemma StepRoundTrace(e: Env, step: Action)
    ensures Traced(e, StepRound(e, step).1, Round(step, ObstacleSeen(Next(e.obstacleReads, None))),
                   StepRound(e, step).0)
    ensures StepRound(e, step).1.obstacleReads == Rest(e.obstacleReads)
  {
    if ObstacleSeen(Next(e.obstacleReads, None)) {
      BlockedRoundTrace(e, step);
    } else {
      ClearRoundTrace(e, step);
    }
  }

  lemma ClearRoundTrace(e: Env, step: Action)
    requires !ObstacleSeen(Next(e.obstacleReads, None))
    ensures Traced(e, StepRound(e, step).1, [step], StepRound(e, step).0)
    ensures StepRound(e, step).1.obstacleReads == Rest(e.obstacleReads)
  {
    OutcomeAtRest(e.outcomes, 0);
    assert StepRound(e, step).1.issued == e.issued + [step];
  }

  lemma BlockedRoundTrace(e: Env, step: Action)
    requires ObstacleSeen(Next(e.obstacleReads, None))
    ensures Traced(e, StepRound(e, step).1, [MoveUp, step], StepRound(e, step).0)
    ensures StepRound(e, step).1.obstacleReads == Rest(e.obstacleReads)
  {
    OutcomeAtRest(e.outcomes, 0);
    var (ok, e1) := StepRound(e, step);
    if OutcomeAt(e.outcomes, 0) {
      OutcomeAtRest(Rest(e.outcomes), 0);
      OutcomeAtRest(e.outcomes, 1);
      assert e1.issued == e.issued + [MoveUp] + [step];
      assert e1.issued[|e.issued|..] == [MoveUp, step];
    } else {
      assert e1.issued == e.issued + [MoveUp];
    }
  }

  /** The step loop: for each planned step, in order, a `moveUp` when the
      obstacle check is true and then the step itself, up to and including
      the first action that reports failure and nothing after it. */
  lemma {:induction false} WalkTrace(e: Env, steps: seq<Action>)
    ensures Traced(e, Walk(e, steps).1, Planned(steps, Flags(e.obstacleReads, |steps|)), Walk(e, steps).0)
    decreases |steps|
  {
    if steps == [] {
      assert e.issued[|e.issued|..] == [];
    } else {
      var (ok1, e1) := StepRound(e, steps[0]);
      var flags := Flags(e.obstacleReads, |steps|);
      var round := Round(steps[0], flags[0]);
      var rest := Planned(steps[1..], flags[1..]);
      assert Planned(steps, flags) == round + rest;
      StepRoundTrace(e, steps[0]);
      if !ok1 {
        TracedStop(e, e1, round, rest);
      } else {
        WalkTrace(e1, steps[1..]);
        assert flags[1..] == Flags(e1.obstacleReads, |steps[1..]|);
        TracedThen(e, e1, Walk(e1, steps[1..]).1, round, rest, Walk(e1, steps[1..]).0);
      }
    }
  }

  // ---------------------------------------------------------------------------
  // The whole move

  /** The grid position a position read reports, when it parses to one. */
  function Position(reco: Recognition): Option<(int, int)> {
    if reco.Some? && Parsed(reco.value).x.Some? && Parsed(reco.value).y.Some? then
      Some((Parsed(reco.value).x.value, Parsed(reco.value).y.value))
    else None
  }

  /** Without a current position no action is issued and the move fails. */
  lemma MoveWithoutLocation(e: Env, tx: int, ty: int)
    requires Position(ReadAt(e.mapReads, 0)).None?
    ensures Move(e, tx, ty).0 == Returned(false)
    ensures Move(e, tx, ty).1 == e.(mapReads := Rest(e.mapReads))
  {
    ReadAtRest(e.mapReads, 0);
  }

  /** From the read position (cx, cy) the core walks the route with the
      obstacle recoveries woven in. The move arrives exactly when every
      action of that plan succeeds and the second position read reports the
      target; it raises exactly when every action succeeds and the second
      read recognises nothing. */
  lemma MoveTrace(e: Env, tx: int, ty: int, cx: int, cy: int)
    requires Position(ReadAt(e.mapReads, 0)) == Some((cx, cy))
    ensures var full := Planned(Route(cx, cy, tx, ty), Flags(e.obstacleReads, |Route(cx, cy, tx, ty)|));
      var (r, e1) := Move(e, tx, ty);
      && e.issued <= e1.issued
      && RanUntilFailure(e.outcomes, full, e1.issued[|e.issued|..], AllSucceed(e.outcomes, |full|))
      && (r == Returned(true) <==>
            AllSucceed(e.outcomes, |full|) && Position(ReadAt(e.mapReads, 1)) == Some((tx, ty)))
      && (r == RaisedAttributeError <==>
            AllSucceed(e.outcomes, |full|) && ReadAt(e.mapReads, 1).None?)
  {
    ReadAtRest(e.mapReads, 0);
    ReadAtRest(e.mapReads, 1);
    ReadAtRest(Rest(e.mapReads), 0);
    var steps := Route(cx, cy, tx, ty);
    var e1 := MapInfoRead(e).1;
    assert e1.obstacleReads == e.obstacleReads && e1.outcomes == e.outcomes && e1.issued == e.issued;
    WalkTrace(e1, steps);
    var (ok, e2) := Walk(e1, steps);
    var full := Planned(steps, Flags(e.obstacleReads, |steps|));
    RanUntilFailureMeaning(e.outcomes, full, e2.issued[|e.issued|..], ok);
    assert e2.mapReads == Rest(e.mapReads);
  }

  /** Walking `steps` with recoveries before the flagged ones shifts the
      position by the steps' offset plus one cell up per recovery: the
      recovery `moveUp` is never undone. */
  function CountTrue(flags: seq<bool>): nat
    decreases |flags|
  {
    if flags == [] then 0 else (if flags[0] then 1 else 0) + CountTrue(flags[1..])
  }

  lemma {:induction false} RecoveryNotCompensated(steps: seq<Action>, flags: seq<bool>)
    requires |flags| == |steps|
    ensures Shift(Planned(steps, flags)) == (Shift(steps).0, Shift(steps).1 - CountTrue(flags))
    decreases |steps|
  {
    if steps != [] {
      RecoveryNotCompensated(steps[1..], flags[1..]);
      ShiftAppend(Round(steps[0], flags[0]), Planned(steps[1..], flags[1..]));
      ShiftAppend([steps[0]], steps[1..]);
      assert [steps[0]] + steps[1..] == steps;
      if flags[0] {
        assert Round(steps[0], flags[0]) == [MoveUp] + [steps[0]];
        ShiftAppend([MoveUp], [steps[0]]);
      }
    }
  }

  /** So a move that met any obstacle, carried out step for step, ends
      off the target the route was planned for. */
  lemma RecoveryMissesTarget(cx: int, cy: int, tx: int, ty: int, flags: seq<bool>)
    requires |flags| == |Route(cx, cy, tx, ty)| && CountTrue(flags) > 0
    ensures Shift(Planned(Route(cx, cy, tx, ty), flags)) != (tx - cx, ty - cy)
  {
    RecoveryNotCompensated(Route(cx, cy, tx, ty), flags);
    RouteReachesTarget(cx, cy, tx, ty);
  }

  /** The final check, run twice on an unchanged position, decides the same. */
  lemma ArrivalIdempotent(e: Env, tx: int, ty: int)
    requires ReadAt(e.mapReads, 0) == ReadAt(e.mapReads, 1)
    ensures Arrival(Arrival(e, tx, ty).1, tx, ty).0 == Arrival(e, tx, ty).0
  {
    ReadAtRest(e.mapReads, 0);
    ReadAtRest(Rest(e.mapReads), 0);
    ReadAtRest(e.mapReads, 1);
  }

  // ---------------------------------------------------------------------------
  // Scenarios

  /** The status-panel read of town position (x, y). */
  function TownAt(x: int, y: int): Recognition {
    Some([Fragment("城镇" + "（" + IntText(x) + "," + IntText(y) + "）")])
  }

  lemma TownPosition(x: int, y: int)
    ensures Position(TownAt(x, y)) == Some((x, y))
  {
    ParseCoordinateFragment("城镇", x, y);
  }

  const R: Action := MoveRight

  /** A move whose first read parses to (cx, cy) walks the route from there. */
  lemma MoveStart(e: Env, tx: int, ty: int, cx: int, cy: int)
    requires Position(Next(e.mapReads, None)) == Some((cx, cy))
    ensures Move(e, tx, ty) == MoveFrom(e.(mapReads := Rest(e.mapReads)), Route(cx, cy, tx, ty), tx, ty)
  {
  }

  /** The final check by the position its read reports. */
  lemma ArrivalRead(e: Env, tx: int, ty: int)
    ensures Arrival(e, tx, ty).1 == e.(mapReads := Rest(e.mapReads))
    ensures Arrival(e, tx, ty).0 == Returned(true) <==> Position(Next(e.mapReads, None)) == Some((tx, ty))
    ensures Arrival(e, tx, ty).0 == RaisedAttributeError <==> Next(e.mapReads, None).None?
  {
  }

  lemma ScriptsOf(first: Recognition, last: Recognition)
    ensures Rest([first, last]) == [last] && Next([first, last], None) == first
    ensures Rest([last]) == [] && Next([last], None) == last
  {
    assert [first, last][1..] == [last];
  }

  /** A pass with no obstacle and a successful step. */
  lemma ClearRound(e: Env, step: Action)
    requires !ObstacleSeen(Next(e.obstacleReads, None)) && e.outcomes != [] && e.outcomes[0]
    ensures StepRound(e, step)
            == (true, e.(obstacleReads := Rest(e.obstacleReads), outcomes := e.outcomes[1..],
                         issued := e.issued + [step], settles := e.settles + 1))
  {
  }

  /** A pass with an obstacle, a successful recovery and a successful step. */
  lemma DetourRound(e: Env, step: Action)
    requires ObstacleSeen(Next(e.obstacleReads, None)) && |e.outcomes| >= 2 && e.outcomes[0] && e.outcomes[1]
    ensures StepRound(e, step)
            == (true, e.(obstacleReads := Rest(e.obstacleReads), outcomes := e.outcomes[2..],
                         issued := e.issued + [MoveUp, step], settles := e.settles + 2))
  {
    assert e.outcomes[1..][1..] == e.outcomes[2..];
    assert e.issued + [MoveUp] + [step] == e.issued + [MoveUp, step];
  }

  /** A walk that meets no obstacle and whose actions all succeed issues
      exactly the planned steps, one wait after each. */
  lemma {:induction false} ClearWalk(e: Env, steps: seq<Action>)
    requires e.obstacleReads == [] && AllSucceed(e.outcomes, |steps|)
    ensures Walk(e, steps)
            == (true, e.(outcomes := Drop(e.outcomes, |steps|), issued := e.issued + steps,
                         settles := e.settles + |steps|))
    decreases |steps|
  {
    if steps != [] {
      assert OutcomeAt(e.outcomes, 0);
      ClearRound(e, steps[0]);
      var e1 := StepRound(e, steps[0]).1;
      forall j | 0 <= j < |steps| - 1
        ensures OutcomeAt(e1.outcomes, j)
      {
        assert OutcomeAt(e.outcomes, j + 1);
      }
      ClearWalk(e1, steps[1..]);
      assert e.issued + [steps[0]] + steps[1..] == e.issued + steps;
      assert e1.outcomes == Drop(e.outcomes, 1);
      DropDrop(e.outcomes, 1, |steps| - 1);
      assert e1.obstacleReads == [] && e1.mapReads == e.mapReads;
      assert Walk(e, steps) == Walk(e1, steps[1..]);
    } else {
      assert e.outcomes[0..] == e.outcomes && e.issued + steps == e.issued;
    }
  }

  /** A move with no obstacle and every action succeeding walks the whole
      route and then reads the second position. */
  lemma ClearMove(first: Recognition, last: Recognition, outcomes: seq<bool>,
                  cx: int, cy: int, tx: int, ty: int)
    requires Position(first) == Some((cx, cy))
    requires |outcomes| == |Route(cx, cy, tx, ty)| && AllSucceed(outcomes, |outcomes|)
    ensures Move(Env([first, last], [], outcomes, [], 0), tx, ty)
            == Arrival(Env([last], [], [], Route(cx, cy, tx, ty), |outcomes|), tx, ty)
  {
    var steps := Route(cx, cy, tx, ty);
    var e0, e1 := Env([first, last], [], outcomes, [], 0), Env([last], [], outcomes, [], 0);
    var e2 := Env([last], [], [], steps, |outcomes|);
    ScriptsOf(first, last);
    assert e0.(mapReads := Rest(e0.mapReads)) == e1;
    MoveStart(e0, tx, ty, cx, cy);
    assert Move(e0, tx, ty) == MoveFrom(e1, steps, tx, ty);
    ClearWalk(e1, steps);
    assert [] + steps == steps && Drop(outcomes, |steps|) == [];
    assert Walk(e1, steps) == (true, e2);
  }

  lemma FourSucceed()
    ensures AllSucceed([true, true, true, true], 4)
  {
    forall j | 0 <= j < 4
      ensures OutcomeAt([true, true, true, true], j)
    {
    }
  }

  /** From (10,50) to (14,50), no obstacle, every action succeeding: four
      `moveRight`s and a true result. */
  lemma StraightLine(first: Recognition, last: Recognition)
    requires Position(first) == Some((10, 50)) && Position(last) == Some((14, 50))
    ensures Route(10, 50, 14, 50) == [R, R, R, R]
    ensures Move(Env([first, last], [], [true, true, true, true], [], 0), 14, 50)
            == (Returned(true), Env([], [], [], [R, R, R, R], 4))
  {
    assert Repeat(R, 4) == [R, R, R, R];
    assert Route(10, 50, 14, 50) == [R, R, R, R];
    FourSucceed();
    ClearMove(first, last, [true, true, true, true], 10, 50, 14, 50);
    ArrivalRead(Env([last], [], [], [R, R, R, R], 4), 14, 50);
    assert Next([last], None) == last && Rest([last]) == [];
  }

  /** The four passes with an obstacle reported before the second step. */
  lemma DetourWalk(last: Recognition, blocked: Recognition)
    requires ObstacleSeen(blocked)
    ensures Walk(Env([last], [None, blocked], [true, true, true, true, true], [], 0), [R, R, R, R])
            == (true, Env([last], [], [], [R, MoveUp, R, R, R], 5))
  {
    var e0 := Env([last], [None, blocked], [true, true, true, true, true], [], 0);
    assert [None, blocked][1..] == [blocked];
    assert [true, true, true, true, true][1..] == [true, true, true, true];
    assert [R, R, R, R][1..] == [R, R, R];
    assert [] + [R] == [R];
    ClearRound(e0, R);
    DetourTail(last, blocked);
  }

  lemma DetourTail(last: Recognition, blocked: Recognition)
    requires ObstacleSeen(blocked)
    ensures Walk(Env([last], [blocked], [true, true, true, true], [R], 1), [R, R, R])
            == (true, Env([last], [], [], [R, MoveUp, R, R, R], 5))
  {
    var e1 := Env([last], [blocked], [true, true, true, true], [R], 1);
    var e2 := Env([last], [], [true, true], [R, MoveUp, R], 3);
    var e3 := Env([last], [], [true], [R, MoveUp, R, R], 4);
    var e4 := Env([last], [], [], [R, MoveUp, R, R, R], 5);
    assert [true, true, true, true][2..] == [true, true];
    assert [true, true][1..] == [true] && [true][1..] == [];
    assert [R] + [MoveUp, R] == [R, MoveUp, R];
    assert [R, MoveUp, R] + [R] == [R, MoveUp, R, R] && [R, MoveUp, R, R] + [R] == [R, MoveUp, R, R, R];
    assert [R, R, R][1..] == [R, R] && [R, R][1..] == [R] && [R][1..] == [];
    DetourRound(e1, R);
    ClearRound(e2, R);
    ClearRound(e3, R);
    assert Walk(e4, []) == (true, e4);
    assert Walk(e3, [R]) == (true, e4);
    assert Walk(e2, [R, R]) == (true, e4);
  }

  /** The same move with an obstacle reported before the second step: one
      `moveUp` recovery, then the planned step; five actions in all. */
  lemma ObstacleRecovery(first: Recognition, last: Recognition)
    requires Position(first) == Some((10, 50)) && Position(last) == Some((14, 50))
    ensures Move(Env([first, last], [None, Some([Fragment("前方有障碍物")])],
                     [true, true, true, true, true], [], 0), 14, 50)
            == (Returned(true), Env([], [], [], [R, MoveUp, R, R, R], 5))
  {
    var blocked: Recognition := Some([Fragment("前方有障碍物")]);
    ObstacleMarkerFound(blocked, 0, "前方有", ObstacleMarker, "");
    assert Repeat(R, 4) == [R, R, R, R];
    assert Route(10, 50, 14, 50) == [R, R, R, R];
    ScriptsOf(first, last);
    var e0 := Env([last], [None, blocked], [true, true, true, true, true], [], 0);
    var e4 := Env([last], [], [], [R, MoveUp, R, R, R], 5);
    MoveStart(Env([first, last], [None, blocked], [true, true, true, true, true], [], 0), 14, 50, 10, 50);
    DetourWalk(last, blocked);
    ArrivalRead(e4, 14, 50);
    assert Move(Env([first, last], [None, blocked], [true, true, true, true, true], [], 0), 14, 50)
           == MoveFrom(e0, [R, R, R, R], 14, 50);
    assert MoveFrom(e0, [R, R, R, R], 14, 50) == Arrival(e4, 14, 50);
  }

  /** A status panel with no bracketed coordinates: false, no action. */
  lemma LocationUnavailable(panel: seq<Fragment>, obstacleReads: seq<Recognition>, outcomes: seq<bool>,
                            tx: int, ty: int)
    requires forall i :: 0 <= i < |panel| ==> OpenParen !in panel[i].text
    ensures Move(Env([Some(panel)], obstacleReads, outcomes, [], 0), tx, ty)
            == (Returned(false), Env([], obstacleReads, outcomes, [], 0))
  {
    forall i | 0 <= i < |panel|
      ensures KindOf(panel[i].text) != Location
    {
    }
    DefaultsWhenAbsent(panel, Location);
    assert FieldsOf(Parsed(panel), Location) == LocationFields(UnknownMap, None, None);
    assert Parsed(panel).x.None?;
    assert Position(Some(panel)).None?;
    assert [Some(panel)][1..] == [];
    MoveWithoutLocation(Env([Some(panel)], obstacleReads, outcomes, [], 0), tx, ty);
  }

  /** Every step succeeds but the second read reports (13,50): false. */
  lemma ArrivalMismatch(first: Recognition, last: Recognition)
    requires Position(first) == Some((10, 50)) && Position(last) == Some((13, 50))
    ensures Move(Env([first, last], [], [true, true, true, true], [], 0), 14, 50)
            == (Returned(false), Env([], [], [], [R, R, R, R], 4))
  {
    assert Repeat(R, 4) == [R, R, R, R];
    assert Route(10, 50, 14, 50) == [R, R, R, R];
    FourSucceed();
    ClearMove(first, last, [true, true, true, true], 10, 50, 14, 50);
    ArrivalRead(Env([last], [], [], [R, R, R, R], 4), 14, 50);
    assert Next([last], None) == last && Rest([last]) == [];
  }

  /** A second read that recognises nothing makes line 138 raise. */
  lemma ArrivalUnreadable(first: Recognition)
    requires Position(first) == Some((10, 50))
    ensures Move(Env([first, None], [], [true], [], 0), 11, 50)
            == (RaisedAttributeError, Env([], [], [], [R], 1))
  {
    assert Repeat(R, 1) == [R];
    assert Route(10, 50, 11, 50) == [R];
    var unread: Recognition := None;
    assert OutcomeAt([true], 0);
    ClearMove(first, unread, [true], 10, 50, 11, 50);
    ArrivalRead(Env([unread], [], [], [R], 1), 11, 50);
    assert Next([unread], None) == unread && Rest([unread]) == [];
  }
}
