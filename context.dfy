/** The MAA framework's `Context`, as far as the navigator uses it: screen
    capture plus OCR recognition of a named pipeline entry, and execution of
    a named action. The model replaces the game behind it by a script: the
    answers that successive recognitions of each entry return and the
    outcomes that successive actions report. */
module Context {
  import opened TextOps

  /** One OCR result; the core reads only its text. */
  datatype Fragment = Fragment(text: string)

  /** What `run_recognition` returns: the filtered results of a hit, or
      nothing when the entry was not recognised. */
  type Recognition = Option<seq<Fragment>>

  /** The action pipeline entries the navigator runs. By the route planner's
      convention `moveRight` raises x by one and `moveDown` raises y by one. */
  datatype Action = MoveUp | MoveDown | MoveLeft | MoveRight

  /** The two recognition entries the core runs. */
  datatype Entry = MapInfoCheck | ObstacleCheck

  /** Everything the script has still to answer, and everything the core
      has done to the game so far. */
  datatype Env = Env(
    mapReads: seq<Recognition>,      // answers of the coming `MapInfoCheck` recognitions
    obstacleReads: seq<Recognition>, // answers of the coming `ObstacleCheck` recognitions
    outcomes: seq<bool>,             // outcomes of the coming `run_action` calls
    issued: seq<Action>,             // every action run so far, in order
    settles: nat)                    // number of `time.sleep(0.5)` waits so far

  /** The first element of a script, or `d` once the script is used up. */
  function Next<T>(s: seq<T>, d: T): T {
    if s == [] then d else s[0]
  }

  /** A script after one answer has been taken from it. */
  function Rest<T>(s: seq<T>): seq<T> {
    if s == [] then [] else s[1..]
  }

  /** `s` without its first `k` elements. */
  function Drop<T>(s: seq<T>, k: nat): (r: seq<T>)
    ensures |r| == if k <= |s| then |s| - k else 0
  {
    if k <= |s| then s[k..] else []
  }

  /** The outcome the `j`-th coming action will report; an exhausted script
      reports failure. */
  predicate OutcomeAt(outcomes: seq<bool>, j: nat) {
    j < |outcomes| && outcomes[j]
  }

  /** The answer of the `j`-th coming recognition; an exhausted script
      recognises nothing. */
  function ReadAt(answers: seq<Recognition>, j: nat): Recognition {
    if j < |answers| then answers[j] else None
  }

  /** One recognition of `entry` on a fresh screenshot. */
  function Recognized(e: Env, entry: Entry): (Recognition, Env) {
    match entry
    case MapInfoCheck => (Next(e.mapReads, None), e.(mapReads := Rest(e.mapReads)))
    case ObstacleCheck => (Next(e.obstacleReads, None), e.(obstacleReads := Rest(e.obstacleReads)))
  }

  /** One `run_action(a)`: the action is issued whatever it reports. */
  function Acted(e: Env, a: Action): (bool, Env) {
    (Next(e.outcomes, false), e.(outcomes := Rest(e.outcomes), issued := e.issued + [a]))
  }

  /** One settle wait. */
  function Settled(e: Env): Env {
    e.(settles := e.settles + 1)
  }

  /** Taking one answer shifts the coming outcomes by one. */
  lemma OutcomeAtRest(outcomes: seq<bool>, j: nat)
    ensures OutcomeAt(Rest(outcomes), j) == OutcomeAt(outcomes, j + 1)
    ensures Next(outcomes, false) == OutcomeAt(outcomes, 0)
  {
  }

  lemma ReadAtRest(answers: seq<Recognition>, j: nat)
    ensures ReadAt(Rest(answers), j) == ReadAt(answers, j + 1)
    ensures Next(answers, None) == ReadAt(answers, 0)
  {
  }

  lemma OutcomeAtDrop(outcomes: seq<bool>, k: nat, j: nat)
    ensures OutcomeAt(Drop(outcomes, k), j) == OutcomeAt(outcomes, k + j)
    ensures Rest(Drop(outcomes, k)) == Drop(outcomes, k + 1)
  {
  }

  /** The scripted context the core is given. */
  class Session {
    var mapReads: seq<Recognition>
    var obstacleReads: seq<Recognition>
    var outcomes: seq<bool>
    var issued: seq<Action>
    var settles: nat

    function State(): Env
      reads this
    {
      Env(mapReads, obstacleReads, outcomes, issued, settles)
    }

    constructor (mapReads: seq<Recognition>, obstacleReads: seq<Recognition>, outcomes: seq<bool>)
      ensures State() == Env(mapReads, obstacleReads, outcomes, [], 0)
    {
      this.mapReads := mapReads;
      this.obstacleReads := obstacleReads;
      this.outcomes := outcomes;
      issued := [];
      settles := 0;
    }

    /** `post_screencap` followed by `run_recognition(entry, image, ...)`. */
    method RunRecognition(entry: Entry) returns (r: Recognition)
      modifies this
      ensures (r, State()) == Recognized(old(State()), entry)
    {
      match entry
      case MapInfoCheck =>
        r := Next(mapReads, None);
        mapReads := Rest(mapReads);
      case ObstacleCheck =>
        r := Next(obstacleReads, None);
        obstacleReads := Rest(obstacleReads);
    }

    /** `run_action(a)`. */
    method RunAction(a: Action) returns (ok: bool)
      modifies this
      ensures (ok, State()) == Acted(old(State()), a)
    {
      ok := Next(outcomes, false);
      outcomes := Rest(outcomes);
      issued := issued + [a];
    }

    /** `time.sleep(0.5)`. */
    method Sleep()
      modifies this
      ensures State() == Settled(old(State()))
    {
      settles := settles + 1;
    }
  }
}
