/** How a local item evolves, and how its copy on another node follows it. */
module Replication {
  import opened Common
  import opened Oids
  import opened States

  // ----- the origin -----

  datatype Change =
    | Raw(raw: RawEvent)
    | Assign(status: Option<int>, value: Option<Value>)  // lvar operations
    | ActionStarted
    | ActionFinished

  /** One change with the event id and the time drawn for it. */
  datatype Step = Step(change: Change, ieid: IEID, now: real)

  /** What the core knows about a local item besides its state. */
  datatype Setup = Setup(kind: ItemKind, enabled: bool, logic: Logic)

  /** Raw events are ignored for disabled items, and for cleared lvars unless forced. */
  predicate Ignored(setup: Setup, s: State, raw: RawEvent) {
    || (!setup.enabled && raw.force != Full)
    || (setup.kind == Lvar && s.status == 0 && raw.force == NoForce)
  }

  /** The new state and whether it is announced to the other nodes. */
  function Apply(setup: Setup, s: State, step: Step): (State, bool) {
    match step.change
    case Raw(raw) =>
      if Ignored(setup, s, raw) then (s, false)
      else (SetFromRaw(s, raw, setup.logic, step.ieid, step.now), Modifies(s, raw, setup.logic) || raw.force != NoForce)
    case Assign(status, value) => (ForceSetState(s, status, value, step.ieid, step.now), true)
    case ActionStarted => (ActIncr(s, step.ieid, step.now), true)
    case ActionFinished => (ActDecr(s, step.ieid, step.now), true)
  }

  /** An unannounced step changes nothing; an announced one carries its fresh event id. */
  lemma AnnouncedIffRestamped(setup: Setup, s: State, step: Step)
    ensures var (s', announced) := Apply(setup, s, step);
      if announced then s'.ieid == step.ieid else s' == s
  {
  }

  /** What each change does, and that all but raw events are always announced. */
  lemma ChangesMean(setup: Setup, s: State, step: Step)
    ensures var (s', announced) := Apply(setup, s, step);
      match step.change
      case Raw(raw) =>
        && (!setup.enabled && raw.force != Full ==> s' == s && !announced)
        && (setup.kind == Lvar && s.status == 0 && raw.force == NoForce ==> s' == s && !announced)
        && ((setup.enabled || raw.force == Full) && (setup.kind != Lvar || s.status != 0 || raw.force != NoForce) ==>
              s' == SetFromRaw(s, raw, setup.logic, step.ieid, step.now) &&
              (announced <==> raw.force != NoForce || Modifies(s, raw, setup.logic)))
      case Assign(status, value) =>
        && announced && s'.act == s.act && s'.ieid == step.ieid && s'.t == step.now
        && s'.status == (if status.Some? then status.value else s.status)
        && s'.value == (if value.Some? then value.value else s.value)
      case ActionStarted =>
        var act := if s.act.Some? then s.act.value + 1 else 1;
        announced && s' == State(s.status, s.value, Some(act), step.ieid, step.now)
      case ActionFinished =>
        && announced && s'.status == s.status && s'.value == s.value && s'.ieid == step.ieid && s'.t == step.now
        && (s.act.Some? && s.act.value > 0 ==> s'.act == Some(s.act.value - 1))
        && (s.act.None? || s.act.value == 0 ==> s'.act == s.act)
  {
  }

  /** A raw event for a local item, on its state object; tells whether the new state is announced. */
  method ProcessRawState(setup: Setup, state: ItemState, raw: RawEvent, ieid: IEID, now: real)
    returns (announced: bool)
    modifies state
    ensures (state.View(), announced) == Apply(setup, old(state.View()), Step(Raw(raw), ieid, now))
    ensures !setup.enabled && raw.force != Full ==> !announced
    ensures setup.kind == Lvar && old(state.status) == 0 && raw.force == NoForce ==> !announced
    ensures !announced ==> state.View() == old(state.View())
  {
    if !setup.enabled && raw.force != Full {
      return false;
    }
    if setup.kind == Lvar && state.status == 0 && raw.force == NoForce {
      return false;
    }
    var modified := state.SetRaw(raw, setup.logic, ieid, now);
    announced := modified || raw.force != NoForce;
  }

  /** All states the item goes through, the initial one first; only changes add a state. */
  function History(setup: Setup, s: State, steps: seq<Step>): (h: seq<State>)
    ensures |h| >= 1 && h[0] == s
    decreases |steps|
  {
    if steps == [] then [s] else
    var (s', announced) := Apply(setup, s, steps[0]);
    if announced then [s] + History(setup, s', steps[1..]) else History(setup, s, steps[1..])
  }

  function Evolve(setup: Setup, s: State, steps: seq<Step>): State
    decreases |steps|
  {
    if steps == [] then s else Evolve(setup, Apply(setup, s, steps[0]).0, steps[1..])
  }

  /** The clock never hands out an event id twice, and always a later one. */
  ghost predicate Rising(from: IEID, steps: seq<Step>) {
    && (forall i :: 0 <= i < |steps| ==> from.Less(steps[i].ieid))
    && (forall i, j :: 0 <= i < j < |steps| ==> steps[i].ieid.Less(steps[j].ieid))
  }

  ghost predicate RisingStates(h: seq<State>) {
    forall i, j :: 0 <= i < j < |h| ==> h[i].ieid.Less(h[j].ieid)
  }

  /** The history rises strictly and ends with the state the item is in. */
  lemma {:induction false} HistoryRises(setup: Setup, s: State, steps: seq<Step>)
    requires Rising(s.ieid, steps)
    ensures var h := History(setup, s, steps);
      && RisingStates(h)
      && (forall i :: 1 <= i < |h| ==> exists k :: 0 <= k < |steps| && h[i].ieid == steps[k].ieid)
      && h[|h| - 1] == Evolve(setup, s, steps)
    decreases |steps|
  {
    if steps != [] {
      AnnouncedIffRestamped(setup, s, steps[0]);
      var (s', announced) := Apply(setup, s, steps[0]);
      var rest := steps[1..];
      HistoryRises(setup, s', rest);
      var h, hs := History(setup, s, steps), History(setup, s', rest);
      if announced {
        assert h == [s] + hs;
        forall i | 1 <= i < |h|
          ensures exists k :: 0 <= k < |steps| && h[i].ieid == steps[k].ieid
        {
          if i == 1 {
            assert h[i].ieid == steps[0].ieid;
          } else {
            var k :| 0 <= k < |rest| && hs[i - 1].ieid == rest[k].ieid;
            assert h[i].ieid == steps[k + 1].ieid;
          }
        }
      } else {
        forall i | 1 <= i < |h|
          ensures exists k :: 0 <= k < |steps| && h[i].ieid == steps[k].ieid
        {
          var k :| 0 <= k < |rest| && hs[i].ieid == rest[k].ieid;
          assert h[i].ieid == steps[k + 1].ieid;
        }
      }
    }
  }

  /** Within one history, equal event ids mean equal states. */
  lemma EqualIdsEqualStates(setup: Setup, s: State, steps: seq<Step>, a: State, b: State)
    requires Rising(s.ieid, steps)
    requires a in History(setup, s, steps) && b in History(setup, s, steps) && a.ieid == b.ieid
    ensures a == b
  {
    HistoryRises(setup, s, steps);
  }

  // ----- the replica -----

  /** A state event from another node. */
  datatype ReplEvent = ReplEvent(node: string, state: ReplState)

  datatype Refusal = NotImplemented | InvalidData | NodeDiffers

  /** What is told to this node's own subscribers about one event. */
  datatype Announcement = Current(state: State) | Archive(event: ReplState)

  function Receive(kind: ItemKind, node: string, s: State, ev: ReplEvent): Result<(State, Announcement), Refusal> {
    if kind == Lmacro then Err(NotImplemented)
    else if kind != Unit && ev.state.act.Some? then Err(InvalidData)
    else if ev.node != node then Err(NodeDiffers)
    else if s.ieid.Less(ev.state.ieid) then
      var s' := SetFromRs(s, ev.state);
      Ok((s', Current(s')))
    else
      Ok((s, Archive(ev.state)))
  }

  datatype Replica = Replica(state: State, log: seq<Announcement>)

  function Follow(kind: ItemKind, node: string, r: Replica, events: seq<ReplEvent>): Replica
    decreases |events|
  {
    if events == [] then r else
    match Receive(kind, node, r.state, events[0])
    case Ok((s, a)) => Follow(kind, node, Replica(s, r.log + [a]), events[1..])
    case Err(_) => Follow(kind, node, r, events[1..])
  }

  /** The same step on the state object of the item. */
  method UpdateStateFromRepl(kind: ItemKind, node: string, state: ItemState,
                             ev: ReplEvent) returns (r: Result<Announcement, Refusal>)
    modifies state
    ensures match Receive(kind, node, old(state.View()), ev)
      case Ok((s, a)) => state.View() == s && r == Ok(a)
      case Err(e) => state.View() == old(state.View()) && r == Err(e)
    ensures kind == Lmacro ==> r == Err(NotImplemented)
    ensures (kind == Lvar || kind == Sensor) && ev.state.act.Some? ==> r == Err(InvalidData)
    ensures r == Err(NodeDiffers) ==> ev.node != node
    ensures r.Ok? <==> kind != Lmacro && (kind == Unit || ev.state.act.None?) && ev.node == node
    ensures r.Ok? && old(state.ieid).Less(ev.state.ieid) ==>
      && state.status == ev.state.status && state.value == ev.state.value
      && state.ieid == ev.state.ieid && state.t == ev.state.t
      && state.act == (if ev.state.act.Some? then ev.state.act else old(state.act))
      && r == Ok(Current(state.View()))
    ensures r.Ok? && !old(state.ieid).Less(ev.state.ieid) ==> r == Ok(Archive(ev.state))
    ensures r.Err? || !old(state.ieid).Less(ev.state.ieid) ==> unchanged(state)
  {
    if kind == Lmacro {
      return Err(NotImplemented);
    }
    if kind != Unit && ev.state.act.Some? {
      return Err(InvalidData);
    }
    if ev.node != node {
      return Err(NodeDiffers);
    }
    if state.ieid.Less(ev.state.ieid) {
      state.SetRs(ev.state);
      r := Ok(Current(state.View()));
    } else {
      r := Ok(Archive(ev.state));
    }
  }

  predicate Welcome(kind: ItemKind, node: string, ev: ReplEvent) {
    kind != Lmacro && (kind == Unit || ev.state.act.None?) && ev.node == node
  }

  function Processed(kind: ItemKind, node: string, events: seq<ReplEvent>): (r: seq<ReplEvent>)
    ensures forall e :: e in r <==> e in events && Welcome(kind, node, e)
    decreases |events|
  {
    if events == [] then [] else
    assert events == [events[0]] + events[1..];
    (if Welcome(kind, node, events[0]) then [events[0]] else []) + Processed(kind, node, events[1..])
  }

  /**
   Events are processed in the order they come, each exactly if the replica, in whatever state, does not
   refuse it.
   */
  lemma {:induction false} ProcessedInOrder(kind: ItemKind, node: string, s: State, events: seq<ReplEvent>,
      ev: ReplEvent)
    ensures Processed(kind, node, events + [ev]) ==
      Processed(kind, node, events) + if Receive(kind, node, s, ev).Ok? then [ev] else []
    decreases |events|
  {
    if events == [] {
      assert [] + [ev] == [ev] && [ev][1..] == [];
    } else {
      var rest, head := events[1..], if Welcome(kind, node, events[0]) then [events[0]] else [];
      assert (events + [ev])[0] == events[0] && (events + [ev])[1..] == rest + [ev];
      ProcessedInOrder(kind, node, s, rest, ev);
      assert Processed(kind, node, events + [ev]) == head + Processed(kind, node, rest + [ev]);
    }
  }

  /** A refused event leaves no trace. */
  lemma {:induction false} FollowProcessed(kind: ItemKind, node: string, r: Replica, events: seq<ReplEvent>)
    ensures Follow(kind, node, r, events) == Follow(kind, node, r, Processed(kind, node, events))
    decreases |events|
  {
    if events != [] {
      var first, done := events[0], Processed(kind, node, events[1..]);
      match Receive(kind, node, r.state, first)
      case Ok((s, a)) =>
        FollowProcessed(kind, node, Replica(s, r.log + [a]), events[1..]);
        assert Processed(kind, node, events) == [first] + done;
        assert ([first] + done)[1..] == done;
      case Err(_) =>
        FollowProcessed(kind, node, r, events[1..]);
        assert Processed(kind, node, events) == done;
    }
  }

  predicate Shows(s: State, r: ReplState) {
    s.status == r.status && s.value == r.value && s.ieid == r.ieid && s.t == r.t
  }

  /** The announcement is about this very event: as current with its contents, or as archive unchanged. */
  predicate About(a: Announcement, ev: ReplEvent) {
    match a
    case Current(s) => Shows(s, ev.state) && (ev.state.act.Some? ==> s.act == ev.state.act)
    case Archive(r) => r == ev.state
  }

  ghost predicate CurrentsRise(from: IEID, log: seq<Announcement>) {
    && (forall i :: 0 <= i < |log| && log[i].Current? ==> from.Less(log[i].state.ieid))
    && (forall i, j :: 0 <= i < j < |log| && log[i].Current? && log[j].Current? ==>
          log[i].state.ieid.Less(log[j].state.ieid))
  }

  /** What a run of the replica from `s` has made of the events it processed. */
  ghost predicate Settled(s: State, done: seq<ReplEvent>, log: seq<Announcement>, end: State) {
    && |log| == |done|
    && (forall i :: 0 <= i < |log| ==> About(log[i], done[i]))
    && CurrentsRise(s.ieid, log)
    && (forall i :: 0 <= i < |log| && log[i].Current? ==>
          log[i].state.ieid == end.ieid || log[i].state.ieid.Less(end.ieid))
    && (forall i :: 0 <= i < |done| ==> !end.ieid.Less(done[i].state.ieid))
    && (end == s || (s.ieid.Less(end.ieid) && exists i :: 0 <= i < |log| && log[i] == Current(end)))
  }

  /**
   Over every list of events, in any order and with any repetition: each processed
   event is announced exactly once, as current or as archive, the accepted event ids
   rise strictly, and the final state is that of the greatest event id seen.
   */
  lemma {:induction false} FollowSettles(kind: ItemKind, node: string, r: Replica, events: seq<ReplEvent>)
    ensures var end := Follow(kind, node, r, events);
      && r.log <= end.log
      && Settled(r.state, Processed(kind, node, events), end.log[|r.log|..], end.state)
    decreases |events|
  {
    var end := Follow(kind, node, r, events);
    if events != [] {
      var ev, rest := events[0], events[1..];
      if Welcome(kind, node, ev) {
        var (s, a) := Receive(kind, node, r.state, ev).value;
        var r1 := Replica(s, r.log + [a]);
        FollowSettles(kind, node, r1, rest);
        assert end.log[|r.log|..] == [a] + end.log[|r1.log|..];
        SettledStep(r.state, ev, s, a, Processed(kind, node, rest), end.log[|r1.log|..], end.state);
      } else {
        FollowSettles(kind, node, r, rest);
        assert Processed(kind, node, events) == Processed(kind, node, rest);
      }
    } else {
      assert end.log[|r.log|..] == [];
    }
  }

  lemma SettledStep(s: State, ev: ReplEvent, s1: State, a: Announcement, done: seq<ReplEvent>, log: seq<Announcement>,
                    end: State)
    requires if s.ieid.Less(ev.state.ieid) then s1 == SetFromRs(s, ev.state) && a == Current(s1)
             else s1 == s && a == Archive(ev.state)
    requires Settled(s1, done, log, end)
    ensures Settled(s, [ev] + done, [a] + log, end)
  {
    var log', done' := [a] + log, [ev] + done;
    assert forall i :: 1 <= i < |log'| ==> log'[i] == log[i - 1] && done'[i] == done[i - 1];
    if end != s1 {
      var i :| 0 <= i < |log| && log[i] == Current(end);
      assert log'[i + 1] == Current(end);
    } else if a.Current? {
      assert log'[0] == Current(end);
    }
  }

  // ----- convergence -----

  function AsSent(s: State): ReplState {
    ReplState(s.status, s.value, s.act, s.ieid, s.t)
  }

  /** The event carries one of the states of the history, with or without its action counter. */
  ghost predicate Carries(ev: ReplEvent, h: seq<State>, i: nat) {
    i < |h| && Shows(h[i], ev.state) && (ev.state.act.Some? ==> ev.state.act == h[i].act)
  }

  /** Every event that carries the state brings its counter. */
  ghost predicate BringsCounter(events: seq<ReplEvent>, sent: seq<nat>, latest: nat)
    requires |sent| == |events|
  {
    forall i :: 0 <= i < |events| && sent[i] == latest ==> events[i].state.act.Some?
  }

  lemma NoneLater(h: seq<State>, i: nat, latest: nat)
    requires RisingStates(h) && i <= latest < |h| && !h[i].ieid.Less(h[latest].ieid)
    ensures i == latest
  {
  }

  /**
   A replica that gets any states of a rising history, in any order and any number of
   times, shows the latest one it was sent, unless it already shows that one.
   */
  lemma ShowsLatest(kind: ItemKind, node: string, start: State, h: seq<State>, events: seq<ReplEvent>, sent: seq<nat>,
                    latest: nat)
    requires RisingStates(h) && latest < |h|
    requires start.ieid.Less(h[latest].ieid) || Shows(start, AsSent(h[latest]))
    requires |sent| == |events| && latest in sent
    requires forall i :: 0 <= i < |events| ==>
      Welcome(kind, node, events[i]) && Carries(events[i], h, sent[i]) && sent[i] <= latest
    ensures var end := Follow(kind, node, Replica(start, []), events).state;
      && Shows(end, AsSent(h[latest]))
      && (start.ieid.Less(h[latest].ieid) && BringsCounter(events, sent, latest) ==> end == h[latest])
  {
    var r := Replica(start, []);
    var end := Follow(kind, node, r, events);
    FollowSettles(kind, node, r, events);
    var done := Processed(kind, node, events);
    AllProcessed(kind, node, events);
    assert end.log[0..] == end.log;
    var k :| 0 <= k < |sent| && sent[k] == latest;
    assert Carries(events[k], h, latest);
    assert !end.state.ieid.Less(done[k].state.ieid);
    if end.state != start {
      var i :| 0 <= i < |end.log| && end.log[i] == Current(end.state);
      assert About(end.log[i], done[i]);
      assert Carries(events[i], h, sent[i]);
      NoneLater(h, sent[i], latest);
    }
  }

  /**
   Where the counter comes from: the first event that carries the latest state is taken over, so the
   replica equals that state if and only if this event brings the counter, or the replica has it already.
   */
  lemma CounterFromFirst(kind: ItemKind, node: string, start: State, h: seq<State>, events: seq<ReplEvent>,
                         sent: seq<nat>, latest: nat, k: nat)
    requires RisingStates(h) && latest < |h| && start.ieid.Less(h[latest].ieid)
    requires |sent| == |events| && k < |sent| && sent[k] == latest
    requires forall i :: 0 <= i < |events| ==>
      Welcome(kind, node, events[i]) && Carries(events[i], h, sent[i]) && sent[i] <= latest
    requires forall i :: 0 <= i < k ==> sent[i] < latest
    ensures var before := Follow(kind, node, Replica(start, []), events[..k]).state;
      var end := Follow(kind, node, Replica(start, []), events).state;
      && end == SetFromRs(before, events[k].state)
      && (end == h[latest] <==> events[k].state.act.Some? || before.act == h[latest].act)
  {
    var r := Replica(start, []);
    var before := Follow(kind, node, r, events[..k]);
    EarlierBefore(kind, node, start, h, events[..k], sent[..k], latest);
    assert events == events[..k] + ([events[k]] + events[k + 1..]);
    FollowSplit(kind, node, r, events[..k], [events[k]] + events[k + 1..]);
    assert Carries(events[k], h, latest);
    var taken := SetFromRs(before.state, events[k].state);
    var after := Replica(taken, before.log + [Current(taken)]);
    var rest := events[k + 1..];
    assert ([events[k]] + rest)[1..] == rest;
    forall i | 0 <= i < |rest|
      ensures !after.state.ieid.Less(rest[i].state.ieid)
    {
      assert Carries(events[k + 1 + i], h, sent[k + 1 + i]);
    }
    NothingNewer(kind, node, after, rest);
  }

  lemma EarlierBefore(kind: ItemKind, node: string, start: State, h: seq<State>, events: seq<ReplEvent>,
                      sent: seq<nat>, latest: nat)
    requires RisingStates(h) && latest < |h| && start.ieid.Less(h[latest].ieid) && |sent| == |events|
    requires forall i :: 0 <= i < |events| ==>
      Welcome(kind, node, events[i]) && Carries(events[i], h, sent[i]) && sent[i] < latest
    ensures Follow(kind, node, Replica(start, []), events).state.ieid.Less(h[latest].ieid)
  {
    var end := Follow(kind, node, Replica(start, []), events);
    FollowSettles(kind, node, Replica(start, []), events);
    AllProcessed(kind, node, events);
    assert end.log[0..] == end.log;
    if end.state != start {
      var i :| 0 <= i < |end.log| && end.log[i] == Current(end.state);
      assert About(end.log[i], events[i]);
      assert Carries(events[i], h, sent[i]);
    }
  }

  lemma {:induction false} FollowSplit(kind: ItemKind, node: string, r: Replica, a: seq<ReplEvent>, b: seq<ReplEvent>)
    ensures Follow(kind, node, r, a + b) == Follow(kind, node, Follow(kind, node, r, a), b)
    decreases |a|
  {
    if a == [] {
      assert a + b == b;
    } else {
      assert (a + b)[0] == a[0] && (a + b)[1..] == a[1..] + b;
      match Receive(kind, node, r.state, a[0])
      case Ok((s, an)) => FollowSplit(kind, node, Replica(s, r.log + [an]), a[1..], b);
      case Err(_) => FollowSplit(kind, node, r, a[1..], b);
    }
  }

  lemma {:induction false} NothingNewer(kind: ItemKind, node: string, r: Replica, events: seq<ReplEvent>)
    requires forall i :: 0 <= i < |events| ==> !r.state.ieid.Less(events[i].state.ieid)
    ensures Follow(kind, node, r, events).state == r.state
    decreases |events|
  {
    if events != [] {
      match Receive(kind, node, r.state, events[0])
      case Ok((s, a)) => NothingNewer(kind, node, Replica(s, r.log + [a]), events[1..]);
      case Err(_) => NothingNewer(kind, node, r, events[1..]);
    }
  }

  lemma {:induction false} AllProcessed(kind: ItemKind, node: string, events: seq<ReplEvent>)
    requires forall i :: 0 <= i < |events| ==> Welcome(kind, node, events[i])
    ensures Processed(kind, node, events) == events
    decreases |events|
  {
    if events != [] {
      AllProcessed(kind, node, events[1..]);
    }
  }

  /** Items without an action counter never grow one. */
  lemma {:induction false} NoCounterAppears(kind: ItemKind, node: string, r: Replica, events: seq<ReplEvent>)
    requires kind != Unit && r.state.act.None?
    ensures Follow(kind, node, r, events).state.act.None?
    decreases |events|
  {
    if events != [] {
      match Receive(kind, node, r.state, events[0])
      case Ok((s, a)) => NoCounterAppears(kind, node, Replica(s, r.log + [a]), events[1..]);
      case Err(_) => NoCounterAppears(kind, node, r, events[1..]);
    }
  }

  /**
   Once the origin's last state has been delivered, no matter when, the replica shows it, and equals the
   origin if the counter came with it or there is none.
   */
  lemma ReplicaConverges(setup: Setup, origin: State, steps: seq<Step>, node: string, start: State,
                         events: seq<ReplEvent>, sent: seq<nat>)
    requires Rising(origin.ieid, steps) && start.ieid.Less(Evolve(setup, origin, steps).ieid)
    requires |sent| == |events|
    requires forall i :: 0 <= i < |events| ==>
      Welcome(setup.kind, node, events[i]) && Carries(events[i], History(setup, origin, steps), sent[i])
    requires |History(setup, origin, steps)| - 1 in sent
    ensures var end, now := Follow(setup.kind, node, Replica(start, []), events).state, Evolve(setup, origin, steps);
      && Shows(end, AsSent(now))
      && (BringsCounter(events, sent, |History(setup, origin, steps)| - 1) ==> end == now)
      && (setup.kind != Unit && start.act.None? && now.act.None? ==> end == now)
  {
    var h := History(setup, origin, steps);
    HistoryRises(setup, origin, steps);
    ShowsLatest(setup.kind, node, start, h, events, sent, |h| - 1);
    if setup.kind != Unit && start.act.None? {
      NoCounterAppears(setup.kind, node, Replica(start, []), events);
      var k :| 0 <= k < |sent| && sent[k] == |h| - 1;
      assert Carries(events[k], h, sent[k]);
    }
  }
}
