/** Action sequences: entries run one after another, the actions of an entry at once, all within a time budget. */
module Sequences {
  import opened Common

  datatype Act = Act(wait: nat)

  datatype ActionEntry = Single(action: Act) | Multi(actions: seq<Act>)

  datatype Entry = Delay(delay: nat) | Launch(entry: ActionEntry)

  function ActsOf(entry: ActionEntry): seq<Act> {
    if entry.Single? then [entry.action] else entry.actions
  }

  function Acts(entry: Entry): seq<Act> {
    if entry.Delay? then [] else ActsOf(entry.entry)
  }

  /** The longest declared wait. */
  function MaxWait(acts: seq<Act>): (w: nat)
    ensures forall i :: 0 <= i < |acts| ==> acts[i].wait <= w
    ensures acts != [] ==> exists i :: 0 <= i < |acts| && acts[i].wait == w
  {
    if acts == [] then 0 else
    var w := MaxWait(acts[1..]);
    assert acts == [acts[0]] + acts[1..];
    if acts[0].wait > w then acts[0].wait else
    assert acts[1..] == [] ==> acts[0].wait == w;
    assert acts[1..] != [] ==> exists i :: 0 <= i < |acts| - 1 && acts[1..][i].wait == w && acts[i + 1].wait == w;
    w
  }

  /** How an action task ends; `Panicked` stands for a task that could not be joined. */
  datatype Ran = Succeeded | Failed | Panicked

  /** What the outside world makes of the actions and delays: results and durations. */
  datatype World = World(ran: (nat, nat) -> Ran, took: (nat, nat) -> nat, slept: nat -> nat)

  datatype Event = Slept(e: nat) | Started(e: nat, i: nat) | Awaited(e: nat, i: nat)

  // ----- one batch -----

  /** All actions start before any is awaited; every one is awaited, up to the first that cannot be joined. */
  ghost predicate Batch(world: World, e: nat, n: nat, result: Ran, events: seq<Event>) {
    && n <= |events| <= 2 * n
    && (forall i :: 0 <= i < n ==> events[i] == Started(e, i))
    && (forall i :: n <= i < |events| ==> events[i] == Awaited(e, i - n))
    && (result == Panicked ==> |events| > n && world.ran(e, |events| - n - 1) == Panicked)
    && (result != Panicked ==> |events| == 2 * n && forall i :: 0 <= i < n ==> world.ran(e, i) != Panicked)
    && (result == Succeeded <==> forall i :: 0 <= i < n ==> world.ran(e, i) == Succeeded)
  }

  predicate Within(world: World, e: nat, n: nat, bound: nat) {
    forall i :: 0 <= i < n ==> world.took(e, i) <= bound
  }

  /** The longest of the first n actions of the entry. */
  function Longest(world: World, e: nat, n: nat): (w: nat)
    ensures forall i :: 0 <= i < n ==> world.took(e, i) <= w
    ensures n > 0 ==> exists i :: 0 <= i < n && world.took(e, i) == w
  {
    if n == 0 then 0 else
    var w := Longest(world, e, n - 1);
    if world.took(e, n - 1) > w then world.took(e, n - 1) else w
  }

  /** All of the batch have started. */
  ghost predicate AllStarted(e: nat, n: nat, events: seq<Event>) {
    |events| == n && forall i :: 0 <= i < n ==> events[i] == Started(e, i)
  }

  method LaunchBatch(world: World, e: nat, n: nat) returns (result: Ran, events: seq<Event>, took: nat)
    ensures Batch(world, e, n, result, events)
    ensures took == Longest(world, e, |events| - n)
    ensures forall bound: nat :: Within(world, e, n, bound) ==> took <= bound
  {
    events := [];
    for i := 0 to n
      invariant AllStarted(e, i, events)
    {
      events := events + [Started(e, i)];
    }
    var awaited: seq<Event>;
    result, awaited, took := AwaitBatch(world, e, n);
    events := events + awaited;
  }

  /** Every action is awaited, up to the first that cannot be joined. */
  method AwaitBatch(world: World, e: nat, n: nat) returns (result: Ran, events: seq<Event>, took: nat)
    ensures |events| <= n && took == Longest(world, e, |events|)
    ensures forall i :: 0 <= i < |events| ==> events[i] == Awaited(e, i)
    ensures result == Panicked ==> |events| > 0 && world.ran(e, |events| - 1) == Panicked
    ensures result != Panicked ==> |events| == n && forall i :: 0 <= i < n ==> world.ran(e, i) != Panicked
    ensures result == Succeeded <==> forall i :: 0 <= i < n ==> world.ran(e, i) == Succeeded
  {
    events, took := [], 0;
    var ok := true;
    for i := 0 to n
      invariant |events| == i && forall k :: 0 <= k < i ==> events[k] == Awaited(e, k)
      invariant forall k :: 0 <= k < i ==> world.ran(e, k) != Panicked
      invariant ok <==> forall k :: 0 <= k < i ==> world.ran(e, k) == Succeeded
      invariant took == Longest(world, e, i)
    {
      events := events + [Awaited(e, i)];
      took := if world.took(e, i) > took then world.took(e, i) else took;
      if world.ran(e, i) == Panicked {
        return Panicked, events, took;
      }
      if world.ran(e, i) == Failed {
        ok := false;
      }
    }
    result := if ok then Succeeded else Failed;
  }

  // ----- the whole sequence -----

  datatype End = AllDone | ActionFailed | TimeIsUp | TaskPanicked

  ghost predicate EntrySucceeded(world: World, entries: seq<Entry>, e: nat)
    requires e < |entries|
  {
    forall i :: 0 <= i < |Acts(entries[e])| ==> world.ran(e, i) == Succeeded
  }

  /** The delay is over, or all actions of the entry have ended. */
  ghost predicate EntryAwaited(entries: seq<Entry>, e: nat, trace: seq<Event>)
    requires e < |entries|
  {
    && (entries[e].Delay? ==> Slept(e) in trace)
    && forall i :: 0 <= i < |Acts(entries[e])| ==> Awaited(e, i) in trace
  }

  /**
   When an action starts, every earlier delay is over and every action of every earlier entry has succeeded
   and has been awaited.
   */
  ghost predicate InOrder(world: World, entries: seq<Entry>, trace: seq<Event>) {
    forall p :: 0 <= p < |trace| && trace[p].Started? ==>
      && trace[p].e < |entries|
      && forall e :: 0 <= e < trace[p].e ==> EntrySucceeded(world, entries, e) && EntryAwaited(entries, e, trace[..p])
  }

  /** The first `done` entries succeeded completely; nothing of a later entry but that one has happened. */
  ghost predicate Progress(world: World, entries: seq<Entry>, done: nat, trace: seq<Event>) {
    && done <= |entries|
    && InOrder(world, entries, trace)
    && (forall e :: 0 <= e < done ==> EntrySucceeded(world, entries, e) && EntryAwaited(entries, e, trace))
    && (forall p :: 0 <= p < |trace| ==> trace[p].e < done)
  }

  ghost predicate Stopped(world: World, entries: seq<Entry>, done: nat, trace: seq<Event>, end: End) {
    && done < |entries|
    && InOrder(world, entries, trace)
    && (forall e :: 0 <= e < done ==> EntrySucceeded(world, entries, e))
    && (forall p :: 0 <= p < |trace| ==> trace[p].e <= done)
    && (end == TimeIsUp ==> forall p :: 0 <= p < |trace| ==> trace[p].e < done)
    && (end == ActionFailed || end == TaskPanicked ==> !EntrySucceeded(world, entries, done))
    && (end == ActionFailed ==> EntryAwaited(entries, done, trace))
  }

  /** No entry takes longer than it declares. */
  ghost predicate Prompt(world: World, entries: seq<Entry>) {
    forall e :: 0 <= e < |entries| ==>
      if entries[e].Delay? then world.slept(e) <= entries[e].delay
      else Within(world, e, |Acts(entries[e])|, MaxWait(Acts(entries[e])))
  }

  /** The time an entry says it needs. */
  function Declared(entry: Entry): nat {
    if entry.Delay? then entry.delay else MaxWait(Acts(entry))
  }

  /** The time the first n entries really take. */
  function Elapsed(world: World, entries: seq<Entry>, n: nat): nat
    requires n <= |entries|
  {
    if n == 0 then 0 else
    Elapsed(world, entries, n - 1) +
      if entries[n - 1].Delay? then world.slept(n - 1) else Longest(world, n - 1, |Acts(entries[n - 1])|)
  }

  /** When its turn comes, there is time left for what the entry declares; an entry without actions is not asked. */
  predicate Fits(world: World, entries: seq<Entry>, e: nat, timeout: nat)
    requires e < |entries|
  {
    (entries[e].Launch? && Acts(entries[e]) == []) || Elapsed(world, entries, e) + Declared(entries[e]) <= timeout
  }

  /** An entry fits if each of its declared times, counted from when its turn comes, ends within the budget. */
  lemma FitsMeans(world: World, entries: seq<Entry>, e: nat, timeout: nat)
    requires e < |entries|
    ensures var begin := Elapsed(world, entries, e);
      Fits(world, entries, e, timeout) <==>
      match entries[e]
      case Delay(d) => begin + d <= timeout
      case Launch(Single(a)) => begin + a.wait <= timeout
      case Launch(Multi(acts)) => forall i :: 0 <= i < |acts| ==> begin + acts[i].wait <= timeout
  {
    var begin, acts := Elapsed(world, entries, e), Acts(entries[e]);
    if acts != [] {
      var i :| 0 <= i < |acts| && acts[i].wait == MaxWait(acts);
    }
  }

  /** An entry takes as long as its delay, or as its slowest action, none if it has none. */
  lemma ElapsedMeans(world: World, entries: seq<Entry>, e: nat)
    requires e < |entries|
    ensures Elapsed(world, entries, 0) == 0
    ensures var took := Elapsed(world, entries, e + 1) - Elapsed(world, entries, e);
      match entries[e]
      case Delay(_) => took == world.slept(e)
      case Launch(Single(_)) => took == world.took(e, 0)
      case Launch(Multi(acts)) =>
        && (forall i :: 0 <= i < |acts| ==> world.took(e, i) <= took)
        && (if acts == [] then took == 0 else exists i :: 0 <= i < |acts| && world.took(e, i) == took)
  {
    var n := |Acts(entries[e])|;
    if n > 0 {
      var i :| 0 <= i < n && world.took(e, i) == Longest(world, e, n);
    }
  }

  /** So it was for the first n entries. */
  ghost predicate AllFit(world: World, entries: seq<Entry>, n: nat, timeout: nat) {
    n <= |entries| && forall e :: 0 <= e < n ==> Fits(world, entries, e, timeout)
  }

  lemma FitNext(world: World, entries: seq<Entry>, n: nat, timeout: nat)
    requires AllFit(world, entries, n, timeout) && n < |entries|
    ensures Fits(world, entries, n, timeout) ==> AllFit(world, entries, n + 1, timeout)
  {
  }

  lemma AwaitedGrows(entries: seq<Entry>, e: nat, trace: seq<Event>, more: seq<Event>)
    requires e < |entries| && EntryAwaited(entries, e, trace)
    ensures EntryAwaited(entries, e, trace + more)
  {
  }

  /** What happens next may start actions only of the entry after those that are done. */
  lemma OrderKept(world: World, entries: seq<Entry>, done: nat, trace: seq<Event>, events: seq<Event>)
    requires Progress(world, entries, done, trace)
    requires forall p :: 0 <= p < |events| ==> events[p].e == done < |entries|
    ensures InOrder(world, entries, trace + events)
    ensures forall e :: 0 <= e < done ==> EntryAwaited(entries, e, trace + events)
  {
    var t := trace + events;
    forall p | 0 <= p < |t| && t[p].Started?
      ensures t[p].e < |entries|
      ensures forall e :: 0 <= e < t[p].e ==> EntrySucceeded(world, entries, e) && EntryAwaited(entries, e, t[..p])
    {
      if p < |trace| {
        assert t[p] == trace[p] && t[..p] == trace[..p];
      } else {
        assert t[p] == events[p - |trace|];
        assert t[..p] == trace + events[..p - |trace|];
        forall e | 0 <= e < done
          ensures EntryAwaited(entries, e, t[..p])
        {
          AwaitedGrows(entries, e, trace, events[..p - |trace|]);
        }
      }
    }
    forall e | 0 <= e < done
      ensures EntryAwaited(entries, e, t)
    {
      AwaitedGrows(entries, e, trace, events);
    }
  }

  lemma NextEntry(world: World, entries: seq<Entry>, done: nat, trace: seq<Event>, result: Ran, events: seq<Event>)
    requires Progress(world, entries, done, trace) && done < |entries| && entries[done].Launch?
    requires Batch(world, done, |Acts(entries[done])|, result, events)
    ensures result == Succeeded ==> Progress(world, entries, done + 1, trace + events)
    ensures result != Succeeded ==>
      Stopped(world, entries, done, trace + events, if result == Failed then ActionFailed else TaskPanicked)
  {
    var t, n := trace + events, |Acts(entries[done])|;
    OrderKept(world, entries, done, trace, events);
    if result != Panicked {
      forall i | 0 <= i < n
        ensures Awaited(done, i) in t
      {
        assert t[|trace| + n + i] == events[n + i] == Awaited(done, i);
      }
    }
  }

  lemma QuietEntry(world: World, entries: seq<Entry>, done: nat, trace: seq<Event>, events: seq<Event>)
    requires Progress(world, entries, done, trace) && done < |entries| && Acts(entries[done]) == []
    requires events == if entries[done].Delay? then [Slept(done)] else []
    ensures Progress(world, entries, done + 1, trace + events)
  {
    OrderKept(world, entries, done, trace, events);
    assert entries[done].Delay? ==> (trace + events)[|trace|] == Slept(done);
  }

  /** One turn of the loop; `AllDone` means that the entry is done. */
  method LaunchEntry(world: World, entries: seq<Entry>, done: nat, timeout: nat, trace: seq<Event>, elapsed: nat)
    returns (end: End, done': nat, trace': seq<Event>, elapsed': nat)
    requires done < |entries| && Progress(world, entries, done, trace) && elapsed == Elapsed(world, entries, done)
    ensures done' == if end == AllDone then done + 1 else done
    ensures end == AllDone ==> Progress(world, entries, done', trace') && elapsed' == Elapsed(world, entries, done')
    ensures end != AllDone ==> Stopped(world, entries, done', trace', end)
    ensures end == TimeIsUp <==> !Fits(world, entries, done, timeout)
    ensures end == TimeIsUp ==> elapsed' == elapsed
    ensures Prompt(world, entries) && elapsed <= timeout ==> elapsed' <= timeout
  {
    var entry := entries[done];
    if entry.Delay? {
      if elapsed + entry.delay > timeout {
        return TimeIsUp, done, trace, elapsed;
      }
      QuietEntry(world, entries, done, trace, [Slept(done)]);
      return AllDone, done + 1, trace + [Slept(done)], elapsed + world.slept(done);
    }
    var n := |Acts(entry)|;
    if n == 0 {
      QuietEntry(world, entries, done, trace, []);
      assert trace + [] == trace;
      return AllDone, done + 1, trace, elapsed;
    }
    if elapsed + MaxWait(Acts(entry)) > timeout {
      return TimeIsUp, done, trace, elapsed;
    }
    var result, events, took := LaunchBatch(world, done, n);
    NextEntry(world, entries, done, trace, result, events);
    end := if result == Succeeded then AllDone else if result == Failed then ActionFailed else TaskPanicked;
    done' := if result == Succeeded then done + 1 else done;
    trace', elapsed' := trace + events, elapsed + took;
  }

  method LaunchActionSequence(world: World, entries: seq<Entry>, timeout: nat)
    returns (end: End, done: nat, trace: seq<Event>, elapsed: nat)
    ensures end == AllDone <==> done == |entries|
    ensures if end == AllDone then Progress(world, entries, done, trace) else Stopped(world, entries, done, trace, end)
    ensures AllFit(world, entries, done, timeout)
    ensures end == TimeIsUp <==> done < |entries| && !Fits(world, entries, done, timeout)
    ensures end == AllDone || end == TimeIsUp ==> elapsed == Elapsed(world, entries, done)
    ensures Prompt(world, entries) ==> elapsed <= timeout
  {
    done, trace, elapsed := 0, [], 0;
    while done < |entries|
      invariant Progress(world, entries, done, trace)
      invariant AllFit(world, entries, done, timeout)
      invariant elapsed == Elapsed(world, entries, done)
      invariant Prompt(world, entries) ==> elapsed <= timeout
    {
      FitNext(world, entries, done, timeout);
      end, done, trace, elapsed := LaunchEntry(world, entries, done, timeout, trace, elapsed);
      if end != AllDone {
        return;
      }
    }
    end := AllDone;
  }

  // ----- with abort actions -----

  datatype Sequence = Sequence(
    id: nat, entries: seq<Entry>, timeout: nat, maxExpected: nat, onAbort: Option<ActionEntry>)

  datatype Verdict = Refused | Fine | Broken(end: End) | Terminated | AbortFailed(result: Ran)

  /** The main run up to where it was terminated, or to its end. */
  ghost predicate MainRun(world: World, s: Sequence, killed: Option<nat>, end: Option<End>, trace: seq<Event>) {
    && InOrder(world, s.entries, trace)
    && (end.None? ==> killed.Some? && |trace| == killed.value)
    && (end.Some? ==> killed.Some? ==> |trace| < killed.value)
    && (end == Some(AllDone) ==> Progress(world, s.entries, |s.entries|, trace))
    && (end.Some? && end.value != AllDone ==> exists done: nat :: Stopped(world, s.entries, done, trace, end.value))
  }

  class Runner {
    var running: set<nat>  // sequences that can be terminated

    constructor ()
      ensures running == {}
    {
      running := {};
    }

    /**
     Runs a sequence; `killed` tells after how many events of the main run it is terminated
     from outside, if it is, and `end` how the main run ended if it was not. The abort actions
     run, as a batch of their own, exactly when there are any and the main run was started
     and did not end well.
     */
    method Execute(world: World, abortWorld: World, s: Sequence, killed: Option<nat>)
      returns (verdict: Verdict, end: Option<End>, trace: seq<Event>, aborts: Option<seq<Event>>)
      modifies this
      ensures verdict == Refused <==> s.maxExpected > s.timeout
      ensures running == if verdict == Refused then old(running) else old(running) - {s.id}
      ensures verdict == Refused ==> end.None? && trace == [] && aborts.None?
      ensures verdict != Refused ==> MainRun(world, s, killed, end, trace)
      ensures verdict == Fine <==> end == Some(AllDone)
      ensures verdict.Broken? ==> end == Some(verdict.end)
      ensures verdict == Terminated ==> end.None?
      ensures verdict.AbortFailed? ==> aborts.Some? && verdict.result != Succeeded
      ensures aborts.Some? <==> s.onAbort.Some? && verdict != Refused && verdict != Fine
      ensures aborts.Some? ==>
        Batch(abortWorld, 0, |ActsOf(s.onAbort.value)|,
              if verdict.AbortFailed? then verdict.result else Succeeded, aborts.value)
    {
      end, trace, aborts := None, [], None;
      if s.maxExpected > s.timeout {
        return Refused, end, trace, aborts;
      }
      running := running + {s.id};
      var ended, done, elapsed;
      ended, done, trace, elapsed := LaunchActionSequence(world, s.entries, s.timeout);
      if killed.Some? && killed.value <= |trace| {
        PrefixInOrder(world, s.entries, trace, killed.value);
        trace := trace[..killed.value];
        verdict := Terminated;
      } else {
        end := Some(ended);
        verdict := if ended == AllDone then Fine else Broken(ended);
      }
      running := running - {s.id};
      if verdict != Fine && s.onAbort.Some? {
        var result, events, took := LaunchBatch(abortWorld, 0, |ActsOf(s.onAbort.value)|);
        aborts := Some(events);
        if result != Succeeded {
          verdict := AbortFailed(result);
        }
      }
    }
  }

  lemma PrefixInOrder(world: World, entries: seq<Entry>, trace: seq<Event>, n: nat)
    requires InOrder(world, entries, trace) && n <= |trace|
    ensures InOrder(world, entries, trace[..n])
  {
    forall p | 0 <= p < n && trace[..n][p].Started?
      ensures forall e :: 0 <= e < trace[p].e ==> EntryAwaited(entries, e, trace[..n][..p])
    {
      assert trace[..n][..p] == trace[..p];
    }
  }

  // ----- sequences and termination requests, interleaved -----

  /**
   A started sequence: `plan` is what its main run does if nobody stops it and `at` how much of that
   has happened; `entered` says that it can be found for termination from then on, `asked` that a
   termination request has found it, `sent` that the main run has reported its end, `killed` that it was
   stopped before it could, and `aborts` counts how often the abort actions were started.
   */
  datatype Job = Job(world: World, s: Sequence, plan: seq<Event>, end: End, at: nat,
                     entered: bool, asked: bool, sent: bool, killed: bool, over: bool, aborts: nat)

  datatype Jobs = Jobs(jobs: map<nat, Job>, listed: set<nat>)

  datatype Step =
    | Spawn(u: nat, job: Job)  // the main run starts
    | Enter(u: nat)            // it is listed as running
    | Happen(u: nat)           // the next event of the main run
    | Report(u: nat)           // the main run is through and says so
    | Stop(u: nat)             // a termination request
    | Kill(u: nat)             // it takes effect, the next time the main run waits
    | Conclude(u: nat)         // the outcome is taken, and the abort actions run if they have to

  /** What a sequence that is about to start looks like. */
  ghost predicate Blank(job: Job) {
    && !job.entered && !job.asked && !job.sent && !job.killed && !job.over && job.at == 0 && job.aborts == 0
    && MainRun(job.world, job.s, None, Some(job.end), job.plan)
  }

  ghost predicate Enabled(r: Jobs, step: Step) {
    match step
    case Spawn(u, job) => u !in r.jobs && Blank(job)
    case Enter(u) => u in r.jobs && !r.jobs[u].entered
    case Happen(u) => u in r.jobs && !r.jobs[u].sent && !r.jobs[u].killed && r.jobs[u].at < |r.jobs[u].plan|
    case Report(u) => u in r.jobs && !r.jobs[u].sent && !r.jobs[u].killed && r.jobs[u].at == |r.jobs[u].plan|
    case Stop(u) => true
    case Kill(u) => u in r.jobs && r.jobs[u].asked && !r.jobs[u].sent && !r.jobs[u].killed
    case Conclude(u) => u in r.jobs && r.jobs[u].entered && !r.jobs[u].over && (r.jobs[u].sent || r.jobs[u].killed)
  }

  /**
   A request for a sequence that is not listed fails; until it takes effect the main run may go on, and
   even report.
   */
  function Do(r: Jobs, step: Step): Jobs
    requires Enabled(r, step)
  {
    match step
    case Spawn(u, job) => r.(jobs := r.jobs[u := job])
    case Enter(u) => Jobs(r.jobs[u := r.jobs[u].(entered := true)], r.listed + {u})
    case Happen(u) => r.(jobs := r.jobs[u := r.jobs[u].(at := r.jobs[u].at + 1)])
    case Report(u) => r.(jobs := r.jobs[u := r.jobs[u].(sent := true)])
    case Stop(u) =>
      if u !in r.listed || u !in r.jobs then r
      else Jobs(r.jobs[u := r.jobs[u].(asked := true)], r.listed - {u})
    case Kill(u) => r.(jobs := r.jobs[u := r.jobs[u].(killed := true)])
    case Conclude(u) =>
      var job := r.jobs[u];
      var aborts := if job.s.onAbort.Some? && !(job.sent && job.end == AllDone) then job.aborts + 1 else job.aborts;
      Jobs(r.jobs[u := job.(over := true, aborts := aborts)], r.listed - {u})
  }

  /** What has happened of a sequence so far is in order. */
  ghost predicate Planned(job: Job) {
    job.at <= |job.plan| && MainRun(job.world, job.s, None, Some(job.end), job.plan)
    && InOrder(job.world, job.s.entries, job.plan[..job.at])
  }

  predicate FlagsOk(job: Job, listed: bool) {
    && (job.sent ==> job.at == |job.plan| && !job.killed)
    && (job.over ==> job.entered && (job.sent || job.killed))
    && (job.killed ==> job.asked) && (job.asked ==> job.entered)
    && (listed ==> job.entered && !job.asked && !job.over)
    && job.aborts == if job.over && job.s.onAbort.Some? && !(job.sent && job.end == AllDone) then 1 else 0
  }

  /** What holds of every sequence at any time. */
  ghost predicate JobOk(job: Job, listed: bool) {
    Planned(job) && FlagsOk(job, listed)
  }

  ghost predicate AllOk(r: Jobs) {
    r.listed <= r.jobs.Keys && forall u :: u in r.jobs ==> JobOk(r.jobs[u], u in r.listed)
  }

  /** How a sequence can go on: a stopped one does nothing more, and what it was never changes. */
  ghost predicate Onward(a: Job, b: Job) {
    && b.world == a.world && b.s == a.s && b.plan == a.plan && b.end == a.end
    && a.at <= b.at && (a.killed || a.sent ==> b.at == a.at && b.killed == a.killed && b.sent == a.sent)
    && (a.asked ==> b.asked) && (a.over ==> b == a) && a.aborts <= b.aborts
  }

  lemma OnwardOnward(a: Job, b: Job, c: Job)
    requires Onward(a, b) && Onward(b, c)
    ensures Onward(a, c)
  {
  }

  lemma StepMoves(r: Jobs, step: Step)
    requires Enabled(r, step) && step.u in r.jobs && FlagsOk(r.jobs[step.u], step.u in r.listed) &&
      r.jobs[step.u].at <= |r.jobs[step.u].plan|
    ensures var r' := Do(r, step);
      && step.u in r'.jobs && FlagsOk(r'.jobs[step.u], step.u in r'.listed)
      && r'.jobs[step.u].at <= |r'.jobs[step.u].plan|
      && Onward(r.jobs[step.u], r'.jobs[step.u])
  {
  }

  lemma StillPlanned(a: Job, b: Job)
    requires Planned(a) && Onward(a, b) && b.at <= |b.plan|
    ensures Planned(b)
  {
    PrefixInOrder(b.world, b.s.entries, b.plan, b.at);
  }

  lemma StepKeepsOwnJob(r: Jobs, step: Step)
    requires AllOk(r) && Enabled(r, step) && step.u in Do(r, step).jobs
    ensures JobOk(Do(r, step).jobs[step.u], step.u in Do(r, step).listed)
    ensures step.u in r.jobs ==> Onward(r.jobs[step.u], Do(r, step).jobs[step.u])
  {
    if step.u in r.jobs {
      assert JobOk(r.jobs[step.u], step.u in r.listed);
      StepMoves(r, step);
      StillPlanned(r.jobs[step.u], Do(r, step).jobs[step.u]);
    }
  }

  lemma OtherJobsStay(r: Jobs, step: Step, u: nat)
    requires Enabled(r, step) && u != step.u
    ensures u in Do(r, step).jobs <==> u in r.jobs
    ensures u in r.jobs ==> Do(r, step).jobs[u] == r.jobs[u]
    ensures u in Do(r, step).listed <==> u in r.listed
  {
  }

  lemma StepKeepsJobs(r: Jobs, step: Step)
    requires AllOk(r) && Enabled(r, step)
    ensures AllOk(Do(r, step))
    ensures forall u :: u in r.jobs ==> u in Do(r, step).jobs && Onward(r.jobs[u], Do(r, step).jobs[u])
    ensures forall u :: u in r.jobs && r.jobs[u].entered && u !in r.listed ==> u !in Do(r, step).listed
  {
    var r' := Do(r, step);
    forall u | u in r'.jobs
      ensures JobOk(r'.jobs[u], u in r'.listed) && (u in r.jobs ==> Onward(r.jobs[u], r'.jobs[u]))
    {
      if u == step.u {
        StepKeepsOwnJob(r, step);
      } else {
        OtherJobsStay(r, step, u);
      }
    }
  }

  ghost predicate Legal(r: Jobs, steps: seq<Step>)
    decreases |steps|
  {
    steps != [] ==> Enabled(r, steps[0]) && Legal(Do(r, steps[0]), steps[1..])
  }

  ghost function Run(r: Jobs, steps: seq<Step>): Jobs
    requires Legal(r, steps)
    decreases |steps|
  {
    if steps == [] then r else Run(Do(r, steps[0]), steps[1..])
  }

  /** Over every interleaving of any number of sequences and termination requests. */
  lemma {:induction false} RunKeepsJobs(r: Jobs, steps: seq<Step>)
    requires AllOk(r) && Legal(r, steps)
    ensures AllOk(Run(r, steps))
    ensures forall u :: u in r.jobs ==> u in Run(r, steps).jobs && Onward(r.jobs[u], Run(r, steps).jobs[u])
    ensures forall u :: u in r.jobs && r.jobs[u].entered && u !in r.listed ==> u !in Run(r, steps).listed
    decreases |steps|
  {
    if steps != [] {
      StepKeepsJobs(r, steps[0]);
      var r' := Do(r, steps[0]);
      RunKeepsJobs(r', steps[1..]);
      forall u | u in r.jobs
        ensures Onward(r.jobs[u], Run(r, steps).jobs[u])
      {
        OnwardOnward(r.jobs[u], r'.jobs[u], Run(r, steps).jobs[u]);
      }
    }
  }

  /**
   A request that finds its sequence listed cannot be repeated, and only such a request stops a sequence.
   Whatever happens later, what is done of it is in order; once it is stopped nothing further of it
   happens; one that has reported keeps its outcome; and when it is over its abort actions have
   run exactly once, if there are any, unless it was through and well before it could be stopped.
   */
  lemma TerminationStops(r: Jobs, u: nat, steps: seq<Step>, later: seq<Step>)
    requires AllOk(r) && u in r.listed && Legal(Do(r, Stop(u)), steps) && Legal(Run(Do(r, Stop(u)), steps), later)
    ensures var mid := Run(Do(r, Stop(u)), steps);
      var end := Run(mid, later);
      && u in mid.jobs && u in end.jobs && u !in end.listed
      && var a, b, c := r.jobs[u], mid.jobs[u], end.jobs[u];
         && !a.asked && !a.killed && b.asked && c.plan == a.plan
         && a.at <= b.at <= c.at <= |c.plan| && InOrder(a.world, a.s.entries, c.plan[..c.at])
         && (b.killed || b.sent ==> c.at == b.at && c.killed == b.killed && c.sent == b.sent)
         && (c.over ==> c.killed || c.sent)
         && (c.over ==> c.aborts == if a.s.onAbort.Some? && !(c.sent && c.end == AllDone) then 1 else 0)
  {
    var r' := Do(r, Stop(u));
    var mid := Run(r', steps);
    StepKeepsJobs(r, Stop(u));
    RunKeepsJobs(r', steps);
    RunKeepsJobs(mid, later);
    assert JobOk(r.jobs[u], true) && Onward(r'.jobs[u], mid.jobs[u]) && Onward(mid.jobs[u], Run(mid, later).jobs[u]);
    assert JobOk(mid.jobs[u], u in mid.listed) && JobOk(Run(mid, later).jobs[u], false);
  }
}
