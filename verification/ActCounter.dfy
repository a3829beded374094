/** The counter of running actions that the state of a unit carries. */
module ActCounter {
  import opened Common
  import opened States

  /**
   `unit` is the state of the local unit, none while no such item is deployed; `inFlight`
   counts the local action tasks that have not ended; `lost` counts launches that failed to
   announce the new state: they raise the counter and then return without starting a task.
   */
  datatype Board = Board(unit: Option<State>, inFlight: nat, lost: nat)

  datatype Step =
    | Start(announced: bool, ieid: IEID, now: real)
    | Finish(ieid: IEID, now: real)
    | Redeploy(blank: State)  // the state a unit gets that was not there before
    | Undeploy

  predicate Enabled(b: Board, step: Step) {
    match step
    case Start(_, _, _) => b.unit.Some?
    case Finish(_, _) => b.inFlight > 0
    case _ => true
  }

  function Do(b: Board, step: Step): Board
    requires Enabled(b, step)
  {
    match step
    case Start(announced, ieid, now) =>
      var unit := Some(ActIncr(b.unit.value, ieid, now));
      if announced then Board(unit, b.inFlight + 1, b.lost) else Board(unit, b.inFlight, b.lost + 1)
    case Finish(ieid, now) =>
      Board(if b.unit.Some? then Some(ActDecr(b.unit.value, ieid, now)) else None, b.inFlight - 1, b.lost)
    case Redeploy(blank) =>
      b.(unit := Some((if b.unit.Some? then b.unit.value else blank).(act := Some(0))))
    case Undeploy => b.(unit := None)
  }

  predicate Counts(b: Board) {
    b.unit.Some? ==> b.unit.value.act.Some? && b.unit.value.act.value <= b.inFlight + b.lost
  }

  predicate CountsExactly(b: Board) {
    b.unit.Some? && b.unit.value.act == Some(b.inFlight + b.lost)
  }

  ghost predicate Legal(b: Board, steps: seq<Step>)
    decreases |steps|
  {
    steps != [] ==> Enabled(b, steps[0]) && Legal(Do(b, steps[0]), steps[1..])
  }

  ghost function Run(b: Board, steps: seq<Step>): Board
    requires Legal(b, steps)
    decreases |steps|
  {
    if steps == [] then b else Run(Do(b, steps[0]), steps[1..])
  }

  ghost predicate Undisturbed(steps: seq<Step>) {
    forall i :: 0 <= i < |steps| ==> !steps[i].Redeploy? && !steps[i].Undeploy?
  }

  ghost predicate AllAnnounced(steps: seq<Step>) {
    forall i :: 0 <= i < |steps| && steps[i].Start? ==> steps[i].announced
  }

  lemma {:induction false} RunCounts(b: Board, steps: seq<Step>)
    requires Legal(b, steps) && Counts(b)
    ensures Counts(Run(b, steps))
    ensures CountsExactly(b) && Undisturbed(steps) ==> CountsExactly(Run(b, steps))
    ensures AllAnnounced(steps) <==> Run(b, steps).lost == b.lost
    ensures Run(b, steps).lost >= b.lost
    decreases |steps|
  {
    if steps != [] {
      var rest := steps[1..];
      assert forall i :: 0 <= i < |rest| ==> rest[i] == steps[i + 1];
      RunCounts(Do(b, steps[0]), rest);
      if AllAnnounced(rest) && (steps[0].Start? ==> steps[0].announced) {
        forall i | 0 <= i < |steps| && steps[i].Start?
          ensures steps[i].announced
        {
          assert i > 0 ==> steps[i] == rest[i - 1];
        }
      }
    }
  }

  /** How many tasks the steps have started. */
  ghost function Launched(steps: seq<Step>): nat {
    if steps == [] then 0
    else (if steps[0].Start? && steps[0].announced then 1 else 0) + Launched(steps[1..])
  }

  ghost function Ended(steps: seq<Step>): nat {
    if steps == [] then 0 else (if steps[0].Finish? then 1 else 0) + Ended(steps[1..])
  }

  /** In flight is what was launched and has not ended. */
  lemma {:induction false} InFlightIsLaunchedNotEnded(b: Board, steps: seq<Step>)
    requires Legal(b, steps)
    ensures Run(b, steps).inFlight + Ended(steps) == b.inFlight + Launched(steps)
    decreases |steps|
  {
    if steps != [] {
      InFlightIsLaunchedNotEnded(Do(b, steps[0]), steps[1..]);
    }
  }

  /**
   From an idle unit on: the counter never exceeds the actions in flight if every launch
   was announced; without redeployment it equals them exactly when that is so.
   */
  lemma CounterIsInFlight(unit: State, steps: seq<Step>)
    requires unit.act == Some(0) && Legal(Board(Some(unit), 0, 0), steps)
    ensures var b := Run(Board(Some(unit), 0, 0), steps);
      && (AllAnnounced(steps) && b.unit.Some? ==> b.unit.value.act.Some? && b.unit.value.act.value <= b.inFlight)
      && (Undisturbed(steps) ==> b.unit.Some? && (b.unit.value.act == Some(b.inFlight) <==> AllAnnounced(steps)))
  {
    RunCounts(Board(Some(unit), 0, 0), steps);
  }
}
