# Grid navigation helpers of the MaaUC2 fight agent, in Dafny

This project models `agent/action/fight/fight_utils.py`. The agent uses it
to move the player's marker on the game's map grid. It has three parts:

- **Location parser.** `parse_map_info` reads the game's status panel from
  OCR text fragments and builds a `MapInfo` record. The record holds the map
  name, the grid coordinates `x`/`y`, the carried and maximum weight, and the
  food label. `CheckMapInfo` recognises the panel and parses it.
- **Obstacle detector.** `CheckObstacle` recognises the screen. It reports
  an obstacle when some fragment contains `障碍物` or `无法通过`.
- **Navigator.** `MoveToTarget` reads the current position. It plans all
  horizontal steps, then all vertical ones. Before each step it checks for
  an obstacle, and when it finds one it runs a single `moveUp`. It stops at
  the first action that reports failure. At the end it reads the position
  again and compares it with the target.

The MAA framework's `Context` is a scripted `Session` class (`context.dfy`):
- Successive `MapInfoCheck` and `ObstacleCheck` recognitions return
  pre-set answers.
- Successive `run_action` calls report pre-set outcomes.
- The session records every action issued and counts the settle waits.

Each imperative operation of the source is a Dafny method:
- `ParseMapInfo`: the `for` loop that mutates one `MapInfo` object.
- `MoveToTarget`: `steps` built by extension, then a loop with early
  returns.
- `CheckObstacle`: a loop over the fragments with an early return.

Each method is proved equal to a specification function:
- `ParseMapInfo` and its loop body `ReadFragment` (with `ReadLocation` and
  `ReadWeight`): `Parsed` and `ApplyFragment` of the fragment list and the
  record before the pass; no session is involved.
- `CheckMapInfo`: `MapInfoRead` of the session state before the call.
- `CheckObstacle`: `ObstacleRead` of the session state before the call.
- `TakeStep`: `StepRound` of the session state and the step.
- `PlanSteps`: `Route` of the current and target coordinates.
- `MoveToTarget`: `Move` of the session state and the target.

The properties the source relies on are lemmas about those functions:
- route shape and minimality;
- the order of issued actions, and stopping at the first failure;
- later fragments overwriting what earlier ones assigned;
- non-atomic pair assignment;
- the uncompensated recovery move;
- the raise at line 138.

Modules:
- `TextOps` (`text_ops.dfy`): Python `in`, `str.split`, `str.strip` and
  `int` on strings.
- `Context` (`context.dfy`): the scripted context.
- `MapInfoParser` (`map_info.dfy`) and `MapInfoFacts` (`map_info_facts.dfy`):
  the parser and its properties.
- `Routes` (`route.dfy`): route planning.
- `Navigator` (`navigator.dfy`) and `NavigatorFacts` (`navigator_facts.dfy`):
  the three context operations and their properties.

Three behaviours of the code that a reader of it may not expect:
- **A later fragment overwrites only what it manages to assign.** Each
  fragment is applied in turn to the same record. A bracket fragment
  always sets the map name, but x and y only when its coordinate part holds
  a `,` and the pair parses. So `[城镇（10,50）, 野外（abc）]` gives `野外`
  at (10, 50), and for well-formed fragments of one kind the last wins.
- **Pairs are not atomic.** The comments at lines 56 and 67 say a malformed
  pair leaves the fields `None`. In the code, `x` is assigned before `y` is
  parsed, so a good `x` with a bad `y` sets `x` alone, and a malformed pair
  keeps whatever earlier fragments assigned. The weight pair behaves the
  same way.
- **`MoveToTarget` can raise.** Its docstring (lines 86-87) promises a
  `bool`. When the final recognition finds nothing, line 138 reads
  `new_map_info.x` on `None` and raises `AttributeError`. `Move` returns
  `RaisedAttributeError` then.

## Model

| member | source | states |
|---|---|---|
| MapInfoParser.MapInfo.constructor | agent/action/fight/fight_utils.py:7-14 | a new record has the given map name and every optional field `None` |
| MapInfoParser.ParseMapInfo | agent/action/fight/fight_utils.py:31-75 | returns a fresh `MapInfo` whose fields are `Parsed(results)`: the `未知地图` record with each fragment applied in order |
| MapInfoParser.ReadFragment | agent/action/fight/fight_utils.py:42-72 | one loop pass changes the record exactly as `ApplyFragment`: the bracket test first, then `负重：`, then `食物：`, otherwise nothing |
| MapInfoParser.ReadLocation | agent/action/fight/fight_utils.py:44-57 | in the bracket branch, `map_name` is set to the text before the first `（`, and x/y are set by the coordinate pair's partial assignment |
| MapInfoParser.ReadWeight | agent/action/fight/fight_utils.py:58-68 | in the weight branch, the current/maximum weight are set by the `/` pair's partial assignment on the text between the first two `：` |
| MapInfoFacts.DefaultsWhenAbsent | agent/action/fight/fight_utils.py:40-75 | fields of a kind that no fragment has keep their initial value; an empty list gives map name `未知地图` and every other field `None` |
| MapInfoFacts.LastOfKindWins | agent/action/fight/fight_utils.py:42-72 | the final fields of a kind are what the last fragment of that kind made of the record before it (it keeps whatever of them that fragment could not assign) |
| MapInfoFacts.KindAbsentKeeps | agent/action/fight/fight_utils.py:42-72 | fragments of other kinds never touch a kind's fields |
| MapInfoFacts.FragmentFrame | agent/action/fight/fight_utils.py:42-72 | a fragment changes only the fields of the first branch it matches |
| MapInfoFacts.FoldAppend | agent/action/fight/fight_utils.py:42-72 | processing `a + b` is processing `a` and then `b` from the resulting record |
| MapInfoFacts.LocationFragment | agent/action/fight/fight_utils.py:44-48 | a bracket fragment always sets the map name to the text before the first `（` and changes nothing but the name and x/y |
| MapInfoFacts.CoordinateFragment | agent/action/fight/fight_utils.py:44-54 | `N（a,b）rest` with integer literals `a`, `b` gives name `N`, `x = int(a)`, `y = int(b)`, whatever follows the `）` |
| MapInfoFacts.ParseCoordinateFragment | agent/action/fight/fight_utils.py:44-54 | parsing the single fragment `N（str(x),str(y)）` gives name `N` and position (x, y) |
| MapInfoFacts.CoordinatesNotAtomic | agent/action/fight/fight_utils.py:50-57 | when x parses and y does not, x is set and y keeps its earlier value |
| MapInfoFacts.NameWithoutPosition | agent/action/fight/fight_utils.py:44-51 | `N（c）rest` whose coordinate part has no `,` sets the name to `N` and keeps x and y |
| MapInfoFacts.PairAssigned | agent/action/fight/fight_utils.py:51-54 | `a<sep>b` with two integer literals assigns both values |
| MapInfoFacts.PairNotAtomic | agent/action/fight/fight_utils.py:51-57 | a good first field with a bad second one assigns the first value only |
| MapInfoFacts.PairUnchanged | agent/action/fight/fight_utils.py:50-57 | a separator count other than one (the unpack fails) or an unparsable first field leaves both values unchanged |
| MapInfoFacts.PairSecondAfterFirst | agent/action/fight/fight_utils.py:53-54 | the second value never changes unless the first one is set |
| MapInfoFacts.LaterNameKeepsPosition | agent/action/fight/fight_utils.py:42-57 | `[城镇（10,50）, 野外（abc）]` parses to map name `野外` at x = 10, y = 50 |
| MapInfoFacts.MixedCoordinates | agent/action/fight/fight_utils.py:44-57 | `[城镇（10,50）, 城镇（12,5O）]` parses to x = 12, y = 50, a position no single fragment showed |
| MapInfoFacts.BadYReading | agent/action/fight/fight_utils.py:50-57 | `城镇（12,5O）` sets the name and x = 12 and keeps y, whatever the record was |
| MapInfoFacts.WeightFragment | agent/action/fight/fight_utils.py:58-68 | `pre负重：a/b` (without a bracket pair) sets the current weight to `int(a)` and the maximum to `int(b)` |
| MapInfoFacts.WeightNotAtomic | agent/action/fight/fight_utils.py:58-68 | `pre负重：a/b` where `a` parses and `b` does not sets the current weight to `int(a)` and keeps the maximum weight |
| MapInfoFacts.FoodFragment | agent/action/fight/fight_utils.py:69-72 | `pre食物：v` (matching neither earlier test) sets `food` to `v`, the text up to the next `：` |
| MapInfoFacts.LabelPartOf | agent/action/fight/fight_utils.py:60 | for `pre + label + body + rest`, where the label ends in `：` and `rest` is empty or starts with `：`, the label test matches and `text.split("：")[1]` is `body` |
| TextOps.ContainsElement | agent/action/fight/fight_utils.py:58-60 | every character of a contained label occurs in the text, so `split("：")[1]` cannot fail after a `负重：` or `食物：` match |
| TextOps.JoinSplit | agent/action/fight/fight_utils.py:52 | `str.split` loses nothing: its fields hold no separator and joining them gives the text back |
| TextOps.SplitJoin | agent/action/fight/fight_utils.py:52 | splitting a join of separator-free fields gives those fields |
| TextOps.SplitLength | agent/action/fight/fight_utils.py:52 | `s.split(sep)` has one field more than `s` has separators, so the two-name unpack succeeds exactly when `sep` occurs once |
| TextOps.Strip | agent/action/fight/fight_utils.py:53 | `strip()` leaves no whitespace at either end |
| TextOps.StripPadded | agent/action/fight/fight_utils.py:53 | `strip()` removes exactly the blank padding around a core without blank ends |
| TextOps.IntTextRoundTrip | agent/action/fight/fight_utils.py:53 | the model's `ParseInt` reads the model's decimal text `IntText(n)` back as `n`, for every integer `n` |
| Context.Session.RunRecognition | agent/action/fight/fight_utils.py:18-25 | a recognition returns the entry's next scripted answer and consumes it; nothing else changes |
| Context.Session.RunAction | agent/action/fight/fight_utils.py:127 | an action reports its scripted outcome and is recorded as issued whether or not it succeeds |
| Context.Session.Sleep | agent/action/fight/fight_utils.py:130 | a settle wait changes only the wait count |
| Routes.Repeat | agent/action/fight/fight_utils.py:104 | `[a] * n` is `n` copies of `a` |
| Routes.RouteShape | agent/action/fight/fight_utils.py:100-112 | the route is \|dx\| `moveRight` (dx > 0) or `moveLeft` (dx < 0) followed by \|dy\| `moveDown` (dy > 0) or `moveUp` (dy < 0), length \|dx\| + \|dy\| |
| Routes.RouteReachesTarget | agent/action/fight/fight_utils.py:100-112 | taken step by step, the route's net offset is exactly (tx - cx, ty - cy) |
| Routes.RouteMinimal | agent/action/fight/fight_utils.py:100-112 | every move sequence with that net offset is at least as long as the route |
| Navigator.PlanSteps | agent/action/fight/fight_utils.py:100-112 | the list built by the two `extend` branches is `Route(cx, cy, tx, ty)` |
| Navigator.CheckMapInfo | agent/action/fight/fight_utils.py:17-28 | one `MapInfoCheck` recognition; `None` when it found nothing, else a fresh record equal to parsing its fragments |
| Navigator.CheckObstacle | agent/action/fight/fight_utils.py:142-165 | one `ObstacleCheck` recognition; true exactly when some fragment's text contains either marker |
| Navigator.TakeStep | agent/action/fight/fight_utils.py:115-130 | one loop pass: the obstacle check, `moveUp` and a wait when blocked, then the step and a wait; false at the first failed action |
| Navigator.MoveToTarget | agent/action/fight/fight_utils.py:78-139 | result and final session state are `Move` of the state before the call |
| NavigatorFacts.ObstacleMarkerFound | agent/action/fight/fight_utils.py:162-164 | a fragment containing `障碍物` or `无法通过` anywhere makes the check true |
| NavigatorFacts.ObstacleAbsent | agent/action/fight/fight_utils.py:154-165 | no recognition result, or no fragment holding a marker's first character, makes the check false |
| NavigatorFacts.StepRoundTrace | agent/action/fight/fight_utils.py:117-130 | one pass issues `[moveUp, step]` when blocked and `[step]` otherwise, up to and including the first failed action; it consumes one obstacle read and one outcome per issued action and waits after each successful action |
| NavigatorFacts.WalkTrace | agent/action/fight/fight_utils.py:115-130 | the loop issues, step by step in order, an optional `moveUp` (only when the check is true) and the step; the actions issued are a prefix of that plan ending at the first failure, and none follow it |
| NavigatorFacts.RanUntilFailureMeaning | agent/action/fight/fight_utils.py:115-130 | the loop gets through exactly when every action of the plan reports success |
| NavigatorFacts.ClearWalk | agent/action/fight/fight_utils.py:115-130 | with no obstacle and every action succeeding, the issued actions are exactly the planned steps, one wait after each |
| NavigatorFacts.MoveWithoutLocation | agent/action/fight/fight_utils.py:90-93 | without a parsed current x and y the result is false and no action is issued |
| NavigatorFacts.MoveTrace | agent/action/fight/fight_utils.py:90-139 | from a read position, the issued actions follow the plan up to the first failure; the result is true iff every action succeeds and the second read parses to the target, and it raises iff every action succeeds and the second read finds nothing |
| NavigatorFacts.ClearMove | agent/action/fight/fight_utils.py:90-139 | with no obstacle and every action succeeding, the move walks the whole route and ends in the final check |
| NavigatorFacts.ArrivalRead | agent/action/fight/fight_utils.py:133-139 | the final check is true iff the fresh read parses to the target, and raises iff the read finds nothing |
| NavigatorFacts.ArrivalIdempotent | agent/action/fight/fight_utils.py:133-139 | two final checks on an unchanged position decide the same |
| NavigatorFacts.RecoveryNotCompensated | agent/action/fight/fight_utils.py:117-123 | the issued plan's net offset is the steps' offset plus one cell up per recovery; no recovery is undone |
| NavigatorFacts.RecoveryMissesTarget | agent/action/fight/fight_utils.py:100-136 | once any recovery was made, the issued moves no longer lead to the planned target |
| NavigatorFacts.StraightLine | agent/action/fight/fight_utils.py:100-136 | (10,50) to (14,50) with no obstacle: four `moveRight`, four waits, result true when the second read is (14,50) |
| NavigatorFacts.ObstacleRecovery | agent/action/fight/fight_utils.py:115-136 | an obstacle before the second step gives the actions `moveRight, moveUp, moveRight, moveRight, moveRight` |
| NavigatorFacts.LocationUnavailable | agent/action/fight/fight_utils.py:90-93 | a panel without `（` gives false with no action issued and the obstacle and outcome scripts untouched |
| NavigatorFacts.ArrivalMismatch | agent/action/fight/fight_utils.py:133-139 | every step succeeding but a second read of (13,50) gives false |
| NavigatorFacts.ArrivalUnreadable | agent/action/fight/fight_utils.py:138 | a second read that finds nothing raises `AttributeError` instead of returning false |

## Left out

- Screen capture (`post_screencap().wait().get()`): each recognition is a scripted answer, so no image appears.
- OCR itself and the `pipeline_override` dictionaries with their ROI rectangles (lines 22-24 and 157-159): they only configure recognition.
- The fields of a recognition result other than `text`: the core reads only `filterd_results[i].text`.
- The effect of the move actions on the game: positions come only from scripted reads. `Shift` gives a move sequence's net offset, under the convention that `moveRight` raises x by one and `moveDown` raises y by one.
- `time.sleep(0.5)`: modelled as a counter of settle waits, not as time.
- Every `print`: prints have no effect on results. The AttributeError that the print at line 138 raises is modelled.
- Exceptions from the framework calls themselves: `run_recognition` and `run_action` always return in the model.
- An exhausted script: recognitions answer "nothing recognised" and actions report failure. This choice belongs to the model, not to the source.
- Python truthiness: a recognition result counts as present exactly when it is not `None`. A `MapInfo` dataclass instance is always truthy, so `not current_map_info` is a `None` test.
- TextOps.ParseInt: models `int(s.strip())` as an optional `+`/`-` followed by ASCII digits. Python's underscores between digits and non-ASCII Unicode digits are not accepted. The model also accepts digit strings of any length, while CPython 3.11 and later raise `ValueError` for decimal text of more than 4300 digits; the `except ValueError` at lines 55 and 66 then keeps the earlier values, which the model does not capture.
- TextOps.IntText: models `str(n)` without CPython's 4300-digit limit, so `IntTextRoundTrip` holds for integers whose `str` would raise in CPython.
- TextOps.IsSpace: the set of `str.isspace()` characters is written out as listed. No Unicode database is consulted.
- `agent/action/fightProcessor.py` is not part of this model. It only registers a custom action and calls `MoveToTarget` with constants.
