/** Item states: what a state holds and how the setters of the core change it. */
module States {
  import opened Common

  datatype Value = Nothing | Bool(b: bool) | Number(n: real) | Text(s: string) | Bytes(data: seq<int>)

  /** Item event id: boot id first, then the monotonic counter. */
  datatype IEID = IEID(boot: nat, count: nat) {
    predicate Less(other: IEID) {
      boot < other.boot || (boot == other.boot && count < other.count)
    }
  }

  /** Event ids are strictly and totally ordered; a later boot comes after anything of an earlier one. */
  lemma IeidOrder(a: IEID, b: IEID, c: IEID)
    ensures a.boot < b.boot ==> a.Less(b)
    ensures a.boot == b.boot ==> (a.Less(b) <==> a.count < b.count)
    ensures a.Less(b) ==> !b.Less(a)
    ensures a.Less(b) && b.Less(c) ==> a.Less(c)
    ensures a != b ==> a.Less(b) || b.Less(a)
  {
  }

  const STATUS_ERROR: int := -1

  datatype State = State(status: int, value: Value, act: Option<nat>, ieid: IEID, t: real)

  /** The range of an item's logic, seen through the values it accepts; none if there is no range. */
  type Logic = Option<Value -> bool>

  predicate Validates(value: Option<Value>, logic: Logic) {
    logic.Some? ==> value.Some? && logic.value(value.value)
  }

  datatype Force = NoForce | Weak | Full

  datatype RawEvent = RawEvent(
    status: int,
    value: Option<Value>,
    statusCompare: Option<int>,
    valueCompare: Option<Value>,
    statusElse: Option<int>,
    valueElse: Option<Value>,
    force: Force,
    t: Option<real>)

  // ----- setters -----

  /** The status and value an event asks for: its own, or the other ones when a comparison fails. */
  function Wanted(s: State, raw: RawEvent): (int, Option<Value>) {
    if (raw.statusCompare.None? || raw.statusCompare.value == s.status)
       && (raw.valueCompare.None? || raw.valueCompare.value == s.value)
    then (raw.status, raw.value)
    else (if raw.statusElse.Some? then raw.statusElse.value else STATUS_ERROR, raw.valueElse)
  }

  predicate Acceptable(s: State, raw: RawEvent, logic: Logic) {
    var (status, value) := Wanted(s, raw);
    status == STATUS_ERROR || Validates(value, logic)
  }

  /** Whether the event gives the state a time of its own that it did not have. */
  predicate Retimed(s: State, raw: RawEvent) {
    raw.t.Some? && raw.t.value != 0.0 && raw.t.value != s.t
  }

  predicate Modifies(s: State, raw: RawEvent, logic: Logic) {
    var (status, value) := Wanted(s, raw);
    || !Acceptable(s, raw, logic)
    || status != s.status
    || (value.Some? && value.value != s.value)
    || Retimed(s, raw)
  }

  function SetFromRaw(s: State, raw: RawEvent, logic: Logic, ieid: IEID, now: real): State {
    if !Modifies(s, raw, logic) && raw.force == NoForce then s else
    var (status, value) := Wanted(s, raw);
    var ok := Acceptable(s, raw, logic);
    State(
      if ok then status else STATUS_ERROR,
      if ok && value.Some? then value.value else s.value,
      s.act,
      ieid,
      if raw.t.None? then now else if raw.t.value != 0.0 then raw.t.value else s.t)
  }

  function ForceSetState(s: State, status: Option<int>, value: Option<Value>, ieid: IEID, now: real): State {
    s.(status := if status.Some? then status.value else s.status,
       value := if value.Some? then value.value else s.value,
       ieid := ieid, t := now)
  }

  function ActIncr(s: State, ieid: IEID, now: real): State {
    s.(act := Some(if s.act.Some? then s.act.value + 1 else 1), ieid := ieid, t := now)
  }

  /** An idle unit stays idle: there is nothing to subtract. */
  function ActDecr(s: State, ieid: IEID, now: real): State {
    s.(act := if s.act.Some? && s.act.value > 0 then Some(s.act.value - 1) else s.act, ieid := ieid, t := now)
  }

  /** A state as another node sends it. */
  datatype ReplState = ReplState(status: int, value: Value, act: Option<nat>, ieid: IEID, t: real)

  function SetFromRs(s: State, r: ReplState): State {
    State(r.status, r.value, if r.act.Some? then r.act else s.act, r.ieid, r.t)
  }

  class ItemState {
    var status: int
    var value: Value
    var act: Option<nat>
    var ieid: IEID
    var t: real

    function View(): State
      reads this
    {
      State(status, value, act, ieid, t)
    }

    constructor (s: State)
      ensures View() == s
    {
      status, value, act, ieid, t := s.status, s.value, s.act, s.ieid, s.t;
    }

    /** Stores an accepted status and value or marks the item failed; tells whether anything changed. */
    method SetValues(newStatus: int, newValue: Option<Value>, logic: Logic) returns (modified: bool)
      modifies this`status, this`value
      ensures var ok := newStatus == STATUS_ERROR || Validates(newValue, logic);
        && status == (if ok then newStatus else STATUS_ERROR)
        && value == (if ok && newValue.Some? then newValue.value else old(value))
        && modified == (!ok || newStatus != old(status) || (newValue.Some? && newValue.value != old(value)))
    {
      modified := false;
      if newStatus == STATUS_ERROR || Validates(newValue, logic) {
        if status != newStatus {
          status := newStatus;
          modified := true;
        }
        if newValue.Some? && value != newValue.value {
          value := newValue.value;
          modified := true;
        }
      } else {
        status := STATUS_ERROR;
        modified := true;
      }
    }

    /**
     One raw event. If every comparison it brings holds, its own status and value are asked for, else the
     other ones, with ERROR for a missing status. What is asked for is stored if it is ERROR or the value is
     in range; otherwise the item fails and keeps its value. The result tells whether anything changed; a
     forced update alone is no change, but takes the new event id and the time, too.
     */
    method SetRaw(raw: RawEvent, logic: Logic, freshIeid: IEID, now: real) returns (modified: bool)
      modifies this
      ensures View() == SetFromRaw(old(View()), raw, logic, freshIeid, now)
      ensures modified == Modifies(old(View()), raw, logic)
      ensures
        (raw.statusCompare.Some? ==> raw.statusCompare.value == old(status)) &&
        (raw.valueCompare.Some? ==> raw.valueCompare.value == old(value)) &&
        (raw.status == -1 || logic.None? || (raw.value.Some? && logic.value(raw.value.value))) ==>
          && status == raw.status
          && value == (if raw.value.Some? then raw.value.value else old(value))
          && (modified <==> status != old(status) || value != old(value) ||
                            (raw.t.Some? && raw.t.value != 0.0 && raw.t.value != old(t)))
      ensures
        (raw.statusCompare.Some? ==> raw.statusCompare.value == old(status)) &&
        (raw.valueCompare.Some? ==> raw.valueCompare.value == old(value)) &&
        raw.status != -1 && logic.Some? && (raw.value.None? || !logic.value(raw.value.value)) ==>
          status == -1 && value == old(value) && modified
      ensures
        ((raw.statusCompare.Some? && raw.statusCompare.value != old(status)) ||
         (raw.valueCompare.Some? && raw.valueCompare.value != old(value))) &&
        (raw.statusElse.None? || raw.statusElse.value == -1 || logic.None? ||
         (raw.valueElse.Some? && logic.value(raw.valueElse.value))) ==>
          && status == (if raw.statusElse.Some? then raw.statusElse.value else -1)
          && value == (if raw.valueElse.Some? then raw.valueElse.value else old(value))
          && (modified <==> status != old(status) || value != old(value) ||
                            (raw.t.Some? && raw.t.value != 0.0 && raw.t.value != old(t)))
      ensures
        ((raw.statusCompare.Some? && raw.statusCompare.value != old(status)) ||
         (raw.valueCompare.Some? && raw.valueCompare.value != old(value))) &&
        raw.statusElse.Some? && raw.statusElse.value != -1 && logic.Some? &&
        (raw.valueElse.None? || !logic.value(raw.valueElse.value)) ==>
          status == -1 && value == old(value) && modified
      ensures act == old(act)
      ensures modified || raw.force != NoForce ==>
        && ieid == freshIeid
        && t == (if raw.t.None? then now else if raw.t.value == 0.0 then old(t) else raw.t.value)
      ensures !modified && raw.force == NoForce ==> View() == old(View())
    {
      var newStatus, newValue := raw.status, raw.value;
      var comparedMatch := raw.statusCompare.None? || raw.statusCompare.value == status;
      if raw.valueCompare.Some? && raw.valueCompare.value != value {
        comparedMatch := false;
      }
      if !comparedMatch {
        newStatus := if raw.statusElse.Some? then raw.statusElse.value else STATUS_ERROR;
        newValue := raw.valueElse;
      }
      assert (newStatus, newValue) == Wanted(View(), raw);
      modified := SetValues(newStatus, newValue, logic);
      modified := Stamp(raw, modified, freshIeid, now);
    }

    /** The time an event brings is taken over; a changed or forced state gets the event id, and a time if none came. */
    method Stamp(raw: RawEvent, changed: bool, freshIeid: IEID, now: real) returns (modified: bool)
      modifies this`ieid, this`t
      ensures modified == (changed || (raw.t.Some? && raw.t.value != 0.0 && raw.t.value != old(t)))
      ensures ieid == if modified || raw.force != NoForce then freshIeid else old(ieid)
      ensures t == if raw.t.Some? && raw.t.value != 0.0 then raw.t.value
                   else if raw.t.None? && (modified || raw.force != NoForce) then now else old(t)
    {
      modified := changed;
      if raw.t.Some? && raw.t.value != 0.0 && t != raw.t.value {
        t := raw.t.value;
        modified := true;
      }
      if modified || raw.force != NoForce {
        ieid := freshIeid;
        if raw.t.None? {
          t := now;
        }
      }
    }

    /** Lvar operations: what is given is stored, whatever it is. */
    method ForceSet(newStatus: Option<int>, newValue: Option<Value>, freshIeid: IEID, now: real)
      modifies this
      ensures View() == ForceSetState(old(View()), newStatus, newValue, freshIeid, now)
      ensures status == (if newStatus.Some? then newStatus.value else old(status))
      ensures value == (if newValue.Some? then newValue.value else old(value))
      ensures act == old(act) && ieid == freshIeid && t == now
    {
      if newStatus.Some? {
        status := newStatus.value;
      }
      if newValue.Some? {
        value := newValue.value;
      }
      ieid := freshIeid;
      t := now;
    }

    /** One more action is running. */
    method ActUp(freshIeid: IEID, now: real)
      modifies this
      ensures View() == ActIncr(old(View()), freshIeid, now)
      ensures act == Some(if old(act).Some? then old(act).value + 1 else 1)
      ensures status == old(status) && value == old(value) && ieid == freshIeid && t == now
    {
      act := Some(if act.Some? then act.value + 1 else 1);
      ieid := freshIeid;
      t := now;
    }

    /** One action less, but never fewer than none. */
    method ActDown(freshIeid: IEID, now: real)
      modifies this
      ensures View() == ActDecr(old(View()), freshIeid, now)
      ensures act == if old(act).Some? && old(act).value > 0 then Some(old(act).value - 1) else old(act)
      ensures status == old(status) && value == old(value) && ieid == freshIeid && t == now
    {
      var a := if act.Some? then act.value else 0;
      if a != 0 {
        act := Some(a - 1);
      }
      ieid := freshIeid;
      t := now;
    }

    method SetRs(r: ReplState)
      modifies this
      ensures View() == SetFromRs(old(View()), r)
      ensures status == r.status && value == r.value && ieid == r.ieid && t == r.t
      ensures act == if r.act.Some? then r.act else old(act)
    {
      status := r.status;
      if r.act.Some? {
        act := r.act;
      }
      value := r.value;
      ieid := r.ieid;
      t := r.t;
    }
  }

  // ----- what raw events keep -----

  ghost predicate InRangeOrFailed(s: State, logic: Logic) {
    s.status == STATUS_ERROR || (logic.Some? ==> logic.value(s.value))
  }

  /** A raw event and the stamps drawn for it. */
  datatype RawInput = RawInput(raw: RawEvent, ieid: IEID, now: real)

  function RunRaw(s: State, logic: Logic, inputs: seq<RawInput>): State
    decreases |inputs|
  {
    if inputs == [] then s else
    RunRaw(SetFromRaw(s, inputs[0].raw, logic, inputs[0].ieid, inputs[0].now), logic, inputs[1..])
  }

  lemma {:induction false} RunRawSplit(s: State, logic: Logic, inputs: seq<RawInput>, last: RawInput)
    ensures RunRaw(s, logic, inputs + [last]) ==
      SetFromRaw(RunRaw(s, logic, inputs), last.raw, logic, last.ieid, last.now)
    decreases |inputs|
  {
    if inputs != [] {
      assert (inputs + [last])[1..] == inputs[1..] + [last];
      RunRawSplit(SetFromRaw(s, inputs[0].raw, logic, inputs[0].ieid, inputs[0].now), logic, inputs[1..], last);
    } else {
      assert [] + [last] == [last];
      assert [last][1..] == [];
    }
  }

  /**
   Whatever state it starts from, an item that has processed at least one raw event has
   failed or holds a value in range; a refused event leaves the stored value alone.
   */
  lemma RawKeepsRange(s: State, logic: Logic, inputs: seq<RawInput>)
    requires inputs != []
    ensures InRangeOrFailed(RunRaw(s, logic, inputs), logic)
    ensures var before := RunRaw(s, logic, inputs[..|inputs| - 1]);
      !Acceptable(before, inputs[|inputs| - 1].raw, logic) ==>
        RunRaw(s, logic, inputs).status == STATUS_ERROR && RunRaw(s, logic, inputs).value == before.value
  {
    var n := |inputs| - 1;
    assert inputs == inputs[..n] + [inputs[n]];
    RunRawSplit(s, logic, inputs[..n], inputs[n]);
  }
}
