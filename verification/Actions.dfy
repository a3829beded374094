/** The action manager: the life cycle of commands, driven by messages that may race. */
module Actions {
  import opened Common
  import opened States

  datatype Status = Created | Accepted | Pending | Running | Completed | Failed | Canceled | Terminated {

    function Code(): nat {
      match this
      case Created => 0x00
      case Accepted => 0x01
      case Pending => 0x02
      case Running => 0x08
      case Completed => 0x0f
      case Failed => 0x80
      case Canceled => 0x81
      case Terminated => 0x82
    }

    predicate Finished() {
      Code() >= ACTION_COMPLETED
    }
  }

  const ACTION_COMPLETED: nat := 0x0f

  function FromCode(code: nat): (r: Option<Status>)
    ensures r.Some? ==> r.value.Code() == code
    ensures r.None? ==> forall s: Status :: s.Code() != code
  {
    if code == 0x00 then Some(Created)
    else if code == 0x01 then Some(Accepted)
    else if code == 0x02 then Some(Pending)
    else if code == 0x08 then Some(Running)
    else if code == 0x0f then Some(Completed)
    else if code == 0x80 then Some(Failed)
    else if code == 0x81 then Some(Canceled)
    else if code == 0x82 then Some(Terminated)
    else None
  }

  /** The codes on the bus; from Completed on an action is finished. */
  lemma StatusCodes()
    ensures Created.Code() == 0 && Accepted.Code() == 1 && Pending.Code() == 2 && Running.Code() == 8
    ensures Completed.Code() == 15 && Failed.Code() == 128 && Canceled.Code() == 129 && Terminated.Code() == 130
    ensures forall s: Status :: s.Finished() <==> s in {Completed, Failed, Canceled, Terminated}
  {
  }

  type Uuid = nat
  type Time = int

  datatype Outputs = Outputs(out: Option<Value>, err: Option<Value>, exitcode: Option<int>)

  /** `fired` counts how often the completion triggers were set off. */
  datatype Action = Action(status: Status, started: Time, time: map<Status, Time>, outputs: Outputs, fired: nat)

  function Create(now: Time): Action {
    Action(Created, now, map[Created := now], Outputs(None, None, None), 0)
  }

  datatype ActionEvent = ActionEvent(uuid: Uuid, status: nat, outputs: Outputs)

  // ----- what one message does to one action -----

  function OnEvent(a: Action, status: Status, outputs: Outputs, now: Time): Action {
    var stamped := a.(time := a.time[status := now]);
    if a.status.Code() < status.Code() then
      stamped.(status := status, outputs := outputs,
               fired := if status.Finished() && !a.status.Finished() then a.fired + 1 else a.fired)
    else
      stamped
  }

  function MarkFailed(a: Action, error: Value, now: Time): Action {
    if a.status.Finished() then a else
    a.(status := Failed, outputs := a.outputs.(err := Some(error)), time := a.time[Failed := now], fired := a.fired + 1)
  }

  function MarkAccepted(a: Action, now: Time): Action {
    a.(status := if a.status.Code() < Accepted.Code() then Accepted else a.status, time := a.time[Accepted := now])
  }

  // ----- the manager -----

  type Table = map<Uuid, Action>

  datatype Step =
    | Launch(uuid: Uuid)
    | Event(event: ActionEvent)
    | ReplyOk(uuid: Uuid)
    | ReplyError(uuid: Uuid, error: Value)
    | TimedOut(uuid: Uuid)
    | Clean(keepFor: Time)

  function Keep(a: Action, keepFor: Time, now: Time): bool {
    a.started + keepFor > now || !a.status.Finished()
  }

  function Do(table: Table, step: Step, now: Time): Table {
    match step
    case Launch(u) => table[u := Create(now)]
    case Event(ev) =>
      if ev.uuid !in table || FromCode(ev.status).None? then table
      else table[ev.uuid := OnEvent(table[ev.uuid], FromCode(ev.status).value, ev.outputs, now)]
    case ReplyOk(u) => if u in table then table[u := MarkAccepted(table[u], now)] else table
    case ReplyError(u, e) => if u in table then table[u := MarkFailed(table[u], e, now)] else table
    case TimedOut(u) => if u in table then table[u := MarkFailed(table[u], Text("timeout"), now)] else table
    case Clean(keepFor) => map u | u in table && Keep(table[u], keepFor, now) :: table[u]
  }

  /** What a failure makes of an action: a finished one is left alone, any other fails with that error and fires. */
  ghost predicate FailedWith(a: Action, error: Value, now: Time, b: Action) {
    if a.status in {Completed, Failed, Canceled, Terminated} then b == a
    else
      && b.status == Failed && b.time == a.time[Failed := now] && b.fired == a.fired + 1 && b.started == a.started
      && b.outputs.err == Some(error) && b.outputs.out == a.outputs.out && b.outputs.exitcode == a.outputs.exitcode
  }

  class Manager {
    var actions: Table

    constructor ()
      ensures actions == map[]
    {
      actions := map[];
    }

    /** An unknown status code is an error, but only for an action that is there. */
    method ProcessEvent(event: ActionEvent, now: Time) returns (ok: bool)
      modifies this
      ensures actions == Do(old(actions), Event(event), now)
      ensures ok == (event.uuid !in old(actions) || FromCode(event.status).Some?)
      ensures forall u :: u != event.uuid ==> Lookup(actions, u) == Lookup(old(actions), u)
      ensures event.uuid !in old(actions) ==> event.uuid !in actions
      ensures event.uuid in old(actions) && (forall s: Status :: s.Code() != event.status) ==> actions == old(actions)
      ensures forall s: Status :: event.uuid in old(actions) && s.Code() == event.status ==>
        && event.uuid in actions
        && var a, b := old(actions)[event.uuid], actions[event.uuid];
           && (a.status.Code() < s.Code() ==> b.status == s && b.outputs == event.outputs)
           && (a.status.Code() >= s.Code() ==> b.status == a.status && b.outputs == a.outputs)
           && b.started == a.started && b.time == a.time[s := now]
           && b.fired == (if a.status.Code() < 15 <= s.Code() then a.fired + 1 else a.fired)
    {
      if event.uuid in actions {
        var status := FromCode(event.status);
        if status.None? {
          return false;
        }
        var action := actions[event.uuid];
        if action.status.Code() < event.status {
          var needTrigger := event.status >= ACTION_COMPLETED && action.status.Code() < ACTION_COMPLETED;
          action := action.(status := status.value, outputs := event.outputs);
          if needTrigger {
            action := action.(fired := action.fired + 1);
          }
        }
        action := action.(time := action.time[status.value := now]);
        actions := actions[event.uuid := action];
      }
      return true;
    }

    method Insert(uuid: Uuid, now: Time)
      modifies this
      ensures actions == Do(old(actions), Launch(uuid), now)
      ensures forall u :: u != uuid ==> Lookup(actions, u) == Lookup(old(actions), u)
      ensures Lookup(actions, uuid) == Some(Action(Created, now, map[Created := now], Outputs(None, None, None), 0))
    {
      actions := actions[uuid := Create(now)];
    }

    /** The service's reply to the launch; it is an error if the action is no longer there. */
    method ProcessReply(uuid: Uuid, error: Option<Value>, now: Time) returns (ok: bool)
      modifies this
      ensures actions == Do(old(actions), if error.Some? then ReplyError(uuid, error.value) else ReplyOk(uuid), now)
      ensures ok == (uuid in old(actions)) == (uuid in actions)
      ensures forall u :: u != uuid ==> Lookup(actions, u) == Lookup(old(actions), u)
      ensures ok && error.None? ==>
        var a, b := old(actions)[uuid], actions[uuid];
        && b.status == (if a.status == Created then Accepted else a.status)
        && b.time == a.time[Accepted := now]
        && b.outputs == a.outputs && b.started == a.started && b.fired == a.fired
      ensures ok && error.Some? ==> FailedWith(old(actions)[uuid], error.value, now, actions[uuid])
    {
      ok := uuid in actions;
      if ok {
        if error.Some? {
          actions := actions[uuid := MarkFailed(actions[uuid], error.value, now)];
        } else {
          actions := actions[uuid := MarkAccepted(actions[uuid], now)];
        }
      }
    }

    method MarkActionTimedOut(uuid: Uuid, now: Time)
      modifies this
      ensures actions == Do(old(actions), TimedOut(uuid), now)
      ensures actions.Keys == old(actions).Keys
      ensures forall u :: u != uuid ==> Lookup(actions, u) == Lookup(old(actions), u)
      ensures uuid in actions ==> FailedWith(old(actions)[uuid], Text("timeout"), now, actions[uuid])
    {
      if uuid in actions {
        actions := actions[uuid := MarkFailed(actions[uuid], Text("timeout"), now)];
      }
    }

    method CleanupActionHistory(keepFor: Time, now: Time)
      modifies this
      ensures actions == Do(old(actions), Clean(keepFor), now)
      ensures forall u :: u in actions ==> Lookup(old(actions), u) == Some(actions[u])
      ensures forall u :: u in old(actions) ==>
        (u in actions <==> old(actions)[u].started + keepFor > now || old(actions)[u].status.Code() < 15)
    {
      var todo, kept := actions.Keys, map[];
      while todo != {}
        invariant todo <= actions.Keys && actions == old(actions)
        invariant kept == map u | u in actions && u !in todo && Keep(actions[u], keepFor, now) :: actions[u]
      {
        var u :| u in todo;
        todo := todo - {u};
        if actions[u].started + keepFor > now || actions[u].status.Code() < Completed.Code() {
          kept := kept[u := actions[u]];
        }
      }
      actions := kept;
    }
  }

  // ----- every interleaving -----

  /** What a reply does to the table: a good one accepts a new action, an error fails an unfinished one. */
  lemma RepliesMean(table: Table, u: Uuid, error: Value, now: Time)
    requires u in table
    ensures var good, bad := Do(table, ReplyOk(u), now), Do(table, ReplyError(u, error), now);
      && good.Keys == bad.Keys == table.Keys
      && (table[u].status == Created ==> good[u].status == Accepted && bad[u].status == Failed)
      && (table[u].status != Created ==> good[u].status == table[u].status)
      && good[u].outputs == table[u].outputs && good[u].fired == table[u].fired
      && Lookup(good[u].time, Accepted) == Some(now)
      && FailedWith(table[u], error, now, bad[u])
  {
  }

  /**
   Created and the current status are stamped, and the triggers went off once if and only if the action is
   finished.
   */
  ghost predicate Sane(a: Action) {
    Created in a.time && a.status in a.time && a.fired == if a.status.Finished() then 1 else 0
  }

  ghost predicate AllSane(table: Table) {
    forall u :: u in table ==> Sane(table[u])
  }

  /** A step with the time it happens at. */
  datatype Tick = Tick(step: Step, now: Time)

  /** Launches use ids that were never used before. */
  ghost predicate FreshIds(used: set<Uuid>, ticks: seq<Tick>)
    decreases |ticks|
  {
    ticks != [] ==>
      match ticks[0].step
      case Launch(u) => u !in used && FreshIds(used + {u}, ticks[1..])
      case _ => FreshIds(used, ticks[1..])
  }

  function Run(table: Table, ticks: seq<Tick>): Table
    decreases |ticks|
  {
    if ticks == [] then table else Run(Do(table, ticks[0].step, ticks[0].now), ticks[1..])
  }

  /** Later in the life of the same action. */
  ghost predicate Later(a: Action, b: Action) {
    && a.status.Code() <= b.status.Code() && a.started == b.started
    && a.time.Keys <= b.time.Keys && a.fired <= b.fired
    && (b.fired - a.fired == if b.status.Finished() && !a.status.Finished() then 1 else 0)
  }

  /**
   One step keeps every action sane and moves it only forward; the triggers go off in the
   step that first reaches Completed or above and in no other; and only a finished action
   can disappear, by the cleaner.
   */
  lemma StepForward(table: Table, step: Step, now: Time, u: Uuid)
    requires AllSane(table)
    ensures AllSane(Do(table, step, now))
    ensures u in table && step != Launch(u) && u in Do(table, step, now) ==> Later(table[u], Do(table, step, now)[u])
    ensures u in table && u !in Do(table, step, now) ==> step.Clean? && table[u].status.Finished()
    ensures u !in table && u in Do(table, step, now) ==> step == Launch(u)
  {
  }

  /** A status goes back in exactly one way: when an id that is still stored is launched again. */
  lemma GoesBackIffRelaunched(table: Table, step: Step, now: Time, u: Uuid)
    requires u in table && u in Do(table, step, now)
    ensures Do(table, step, now)[u].status.Code() < table[u].status.Code() <==>
      step == Launch(u) && table[u].status != Created
  {
  }

  /** The cleaner meets the action finished at some point of the run, and takes it out there. */
  ghost predicate CleanedWhenFinished(table: Table, ticks: seq<Tick>, u: Uuid) {
    exists i :: 0 <= i < |ticks| && CleanedAt(table, ticks, u, i)
  }

  ghost predicate CleanedAt(table: Table, ticks: seq<Tick>, u: Uuid, i: nat)
    requires i < |ticks|
  {
    var before := Run(table, ticks[..i]);
    ticks[i].step.Clean? && u in before && before[u].status.Finished()
  }

  /**
   Over every run with fresh ids, an action that is still there has only moved forward, and one that is
   gone was finished.
   */
  lemma {:induction false} RunForward(table: Table, used: set<Uuid>, ticks: seq<Tick>, u: Uuid)
    requires AllSane(table) && table.Keys <= used && FreshIds(used, ticks)
    ensures AllSane(Run(table, ticks))
    ensures u in table && u in Run(table, ticks) ==> Later(table[u], Run(table, ticks)[u])
    ensures u in table && u !in Run(table, ticks) ==> CleanedWhenFinished(table, ticks, u)
    ensures u in used && u !in table ==> u !in Run(table, ticks)
    decreases |ticks|
  {
    if ticks != [] {
      var step := ticks[0].step;
      var t1, rest := Do(table, step, ticks[0].now), ticks[1..];
      StepForward(table, step, ticks[0].now, u);
      RunForward(t1, if step.Launch? then used + {step.uuid} else used, rest, u);
      if u in table && u !in Run(table, ticks) {
        if u in t1 {
          var i :| 0 <= i < |rest| && CleanedAt(t1, rest, u, i);
          assert ticks[..i + 1][1..] == rest[..i];
          assert CleanedAt(table, ticks, u, i + 1);
        } else {
          assert CleanedAt(table, ticks, u, 0);
        }
      }
    }
  }

  // ----- the launch reply races with the bus -----

  datatype Message = OnBus(status: Status, outputs: Outputs) | Accept

  function StatusOf(m: Message): Status {
    if m.OnBus? then m.status else Accepted
  }

  function Take(a: Action, m: Message, now: Time): Action {
    if m.OnBus? then OnEvent(a, m.status, m.outputs, now) else MarkAccepted(a, now)
  }

  function TakeAll(a: Action, ms: seq<Message>, nows: seq<Time>): Action
    requires |ms| == |nows|
  {
    if ms == [] then a else
    var n := |ms| - 1;
    Take(TakeAll(a, ms[..n], nows[..n]), ms[n], nows[n])
  }

  /**
   The result said without an order: the greatest status, every status stamped, and the outputs of a
   message that brought the greatest one.
   */
  ghost predicate Outcome(a: Action, ms: seq<Message>, b: Action) {
    && (forall m :: m in ms ==> StatusOf(m).Code() <= b.status.Code())
    && a.status.Code() <= b.status.Code()
    && (b.status == a.status || exists m :: m in ms && StatusOf(m) == b.status)
    && b.time.Keys == a.time.Keys + (set m | m in ms :: StatusOf(m))
    && (b.status.Code() > Accepted.Code() && b.status != a.status ==>
          exists m :: m in ms && m == OnBus(b.status, b.outputs))
  }

  lemma {:induction false} TakeAllOutcome(a: Action, ms: seq<Message>, nows: seq<Time>)
    requires |ms| == |nows|
    ensures Outcome(a, ms, TakeAll(a, ms, nows))
    decreases |ms|
  {
    if ms != [] {
      var n := |ms| - 1;
      TakeAllOutcome(a, ms[..n], nows[..n]);
      OutcomeStep(a, ms[..n], TakeAll(a, ms[..n], nows[..n]), ms[n], nows[n]);
      assert ms == ms[..n] + [ms[n]];
    } else {
      assert (set m | m in ms :: StatusOf(m)) == {};
    }
  }

  lemma OutcomeStep(a: Action, ms: seq<Message>, b: Action, m: Message, now: Time)
    requires Outcome(a, ms, b)
    ensures Outcome(a, ms + [m], Take(b, m, now))
  {
    var ms', c := ms + [m], Take(b, m, now);
    assert m in ms' && forall x :: x in ms ==> x in ms';
    assert (set x | x in ms' :: StatusOf(x)) == (set x | x in ms :: StatusOf(x)) + {StatusOf(m)};
    assert c.time.Keys == b.time.Keys + {StatusOf(m)};
    if c.status == b.status {
      if b.status != a.status {
        var x :| x in ms && StatusOf(x) == b.status;
        assert x in ms' && StatusOf(x) == c.status;
      }
    } else {
      assert StatusOf(m) == c.status;
    }
  }

  /**
   Events on the bus that bring the greatest status are the same event; an accept reply brings no outputs
   and may come beside any of them.
   */
  ghost predicate OneTopEvent(ms: seq<Message>) {
    forall x, y :: x in ms && y in ms && x.OnBus? && y.OnBus? && x.status == y.status && IsTop(ms, x) ==> x == y
  }

  ghost predicate IsTop(ms: seq<Message>, x: Message) {
    forall m :: m in ms ==> StatusOf(m).Code() <= StatusOf(x).Code()
  }

  /**
   A new action that gets the same messages in two different orders ends with the same
   status and the same statuses stamped, and, beyond Accepted, with the same outputs.
   */
  lemma OrderDoesNotMatter(a: Action, ms: seq<Message>, nows: seq<Time>, ms': seq<Message>, nows': seq<Time>)
    requires a.status == Created && |ms| == |nows| && |ms'| == |nows'|
    requires multiset(ms) == multiset(ms')
    ensures var b, b' := TakeAll(a, ms, nows), TakeAll(a, ms', nows');
      && b.status == b'.status && b.time.Keys == b'.time.Keys
      && (OneTopEvent(ms) && b.status.Code() > Accepted.Code() ==> b.outputs == b'.outputs)
  {
    TakeAllOutcome(a, ms, nows);
    TakeAllOutcome(a, ms', nows');
    assert forall m :: m in ms <==> m in multiset(ms);
    assert forall m :: m in ms' <==> m in multiset(ms');
    SameOutcome(a, ms, ms', TakeAll(a, ms, nows), TakeAll(a, ms', nows'));
  }

  /**
   The condition is needed: of two different events that bring the greatest status, the one that comes
   first decides the outputs.
   */
  lemma OrderMattersOtherwise(a: Action, x: Message, y: Message, rest: seq<Message>, nows: seq<Time>)
    requires a.status == Created && |nows| == |rest| + 2
    requires x.OnBus? && y.OnBus? && x.status == y.status && x != y && x.status != Created && IsTop(rest, x)
    ensures multiset([x, y] + rest) == multiset([y, x] + rest) && !OneTopEvent([x, y] + rest)
    ensures TakeAll(a, [x, y] + rest, nows).outputs != TakeAll(a, [y, x] + rest, nows).outputs
  {
    Swapped(x, y, rest);
    Swapped(y, x, rest);
    TwoTops(x, y, rest);
    FirstTopDecides(a, x, [y] + rest, nows);
    FirstTopDecides(a, y, [x] + rest, nows);
  }

  lemma Swapped(x: Message, y: Message, rest: seq<Message>)
    ensures [x, y] + rest == [x] + ([y] + rest)
    ensures multiset([x, y] + rest) == multiset{x, y} + multiset(rest)
  {
    assert [x, y] == [x] + [y];
  }

  lemma TwoTops(x: Message, y: Message, rest: seq<Message>)
    requires x.OnBus? && y.OnBus? && x.status == y.status && x != y && IsTop(rest, x)
    ensures !OneTopEvent([x, y] + rest)
  {
    var ms := [x, y] + rest;
    assert ms[0] == x && ms[1] == y;
    assert IsTop(ms, x);
  }

  lemma {:induction false} FirstTopDecides(a: Action, x: Message, rest: seq<Message>, nows: seq<Time>)
    requires a.status == Created && |nows| == |rest| + 1 && x.OnBus? && x.status != Created && IsTop(rest, x)
    ensures var b := TakeAll(a, [x] + rest, nows); b.status == x.status && b.outputs == x.outputs
    decreases |rest|
  {
    var ms := [x] + rest;
    var n := |rest|;
    if n == 0 {
      assert ms == [x] && ms[..0] == [];
    } else {
      assert ms[..n] == [x] + rest[..n - 1] && ms[n] == rest[n - 1];
      FirstTopDecides(a, x, rest[..n - 1], nows[..n]);
      assert rest[n - 1] in rest;
    }
  }

  lemma CodeInjective(s: Status, t: Status)
    requires s.Code() == t.Code()
    ensures s == t
  {
  }

  lemma SameOutcome(a: Action, ms: seq<Message>, ms': seq<Message>, b: Action, b': Action)
    requires a.status == Created && Outcome(a, ms, b) && Outcome(a, ms', b')
    requires forall m :: m in ms <==> m in ms'
    ensures b.status == b'.status && b.time.Keys == b'.time.Keys
    ensures OneTopEvent(ms) && b.status.Code() > Accepted.Code() ==> b.outputs == b'.outputs
  {
    assert b.status.Code() <= b'.status.Code() by {
      if b.status != a.status {
        var m :| m in ms && StatusOf(m) == b.status;
        assert m in ms';
      }
    }
    assert b'.status.Code() <= b.status.Code() by {
      if b'.status != a.status {
        var m :| m in ms' && StatusOf(m) == b'.status;
        assert m in ms;
      }
    }
    CodeInjective(b.status, b'.status);
    assert b.status.Code() > Accepted.Code() ==> IsTop(ms, OnBus(b.status, b.outputs));
    assert (set m | m in ms :: StatusOf(m)) == (set m | m in ms' :: StatusOf(m));
  }
}
