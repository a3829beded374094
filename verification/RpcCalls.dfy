/** Which reply goes to which call. */
module RpcCalls {
  import opened Common
  import opened RpcFraming

  /**
   `pending` are the call ids a sender is waiting under; `issued`, `cancelled` and `filled`
   tell what has happened to the calls so far.
   */
  datatype Calls = Calls(pending: set<nat>, issued: set<nat>, cancelled: set<nat>, filled: map<nat, Bytes>)

  datatype Step =
    | Issue(id: nat)             // the call is entered before it is published
    | PublishFailed(id: nat)     // publishing failed or timed out: the call is given up
    | Arrive(message: Bytes)     // a message on the client's topic

  /** Call ids are never drawn twice, and a call is published once. */
  predicate Enabled(s: Calls, step: Step) {
    match step
    case Issue(id) => id !in s.issued
    case PublishFailed(id) => id in s.issued && id !in s.cancelled
    case Arrive(_) => true
  }

  function Do(s: Calls, step: Step): Calls {
    match step
    case Issue(id) => s.(pending := s.pending + {id}, issued := s.issued + {id})
    case PublishFailed(id) => s.(pending := s.pending - {id}, cancelled := s.cancelled + {id})
    case Arrive(message) =>
      match Classify(message)
      case Reply(id, _) =>
        if id in s.pending then s.(pending := s.pending - {id}, filled := s.filled[id := message]) else s
      case _ => s
  }

  /** The waiting calls are exactly those neither answered nor given up, and every answer carries the id of its call. */
  ghost predicate Matched(s: Calls) {
    && s.cancelled <= s.issued && s.filled.Keys <= s.issued
    && s.pending == s.issued - s.cancelled - s.filled.Keys
    && (forall id :: id in s.filled ==> Classify(s.filled[id]).Reply? && Classify(s.filled[id]).callId == id)
  }

  /** The client holds the waiting calls; `history` is what has happened since it started. */
  class RpcClient {
    var calls: set<nat>
    ghost var history: Calls

    ghost predicate Valid()
      reads this
    {
      calls == history.pending && Matched(history)
    }

    constructor ()
      ensures Valid() && history == Calls({}, {}, {}, map[])
    {
      calls, history := {}, Calls({}, {}, {}, map[]);
    }

    method BeginCall(id: nat)
      requires Valid() && Enabled(history, Issue(id))
      modifies this
      ensures Valid() && history == Do(old(history), Issue(id))
      ensures calls == old(calls) + {id}
    {
      calls := calls + {id};
      history := Do(history, Issue(id));
    }

    method CancelCall(id: nat)
      requires Valid() && Enabled(history, PublishFailed(id))
      modifies this
      ensures Valid() && history == Do(old(history), PublishFailed(id))
      ensures calls == old(calls) - {id}
    {
      calls := calls - {id};
      history := Do(history, PublishFailed(id));
    }

    /** The call the message answers, if any is waiting for it. */
    method ProcessMessage(message: Bytes) returns (filled: Option<(nat, ReplyKind)>)
      requires Valid()
      modifies this
      ensures Valid() && history == Do(old(history), Arrive(message))
      ensures filled.Some? <==> Classify(message).Reply? && Classify(message).callId in old(calls)
      ensures filled.Some? ==> Classify(message) == Reply(filled.value.0, filled.value.1)
      ensures calls == if filled.Some? then old(calls) - {filled.value.0} else old(calls)
    {
      filled := None;
      history := Do(history, Arrive(message));
      if |message| < 5 || message[0] != PROTO_VERSION {
        return;
      }
      var op := message[1];
      if op == RPC_REPLY || op == RPC_ERROR {
        if |message| < 22 {
          return;
        }
        var id := FromLe(message[4..20]);
        if id in calls {
          calls := calls - {id};
          filled := Some((id, if op == RPC_REPLY then Success else Error));
        }
      }
    }
  }

  // ----- every run -----

  ghost predicate Legal(s: Calls, steps: seq<Step>)
    decreases |steps|
  {
    steps != [] ==> Enabled(s, steps[0]) && Legal(Do(s, steps[0]), steps[1..])
  }

  function Run(s: Calls, steps: seq<Step>): Calls
    decreases |steps|
  {
    if steps == [] then s else Run(Do(s, steps[0]), steps[1..])
  }

  /**
   Over every run, with replies duplicated, late or orphaned: calls and replies match, and an answer once
   given is never replaced.
   */
  lemma {:induction false} RunMatches(s: Calls, steps: seq<Step>)
    requires Matched(s) && Legal(s, steps)
    ensures Matched(Run(s, steps))
    ensures forall id :: id in s.filled ==> Lookup(Run(s, steps).filled, id) == Some(s.filled[id])
    decreases |steps|
  {
    if steps != [] {
      RunMatches(Do(s, steps[0]), steps[1..]);
    }
  }

  /** A waiting call is answered by the first reply that carries its id, whatever else arrives before. */
  lemma {:induction false} FirstReplyAnswers(s: Calls, steps: seq<Step>, message: Bytes, id: nat)
    requires Matched(s) && Legal(s, steps) && id in s.pending
    requires Classify(message).Reply? && Classify(message).callId == id
    requires forall i :: 0 <= i < |steps| ==> steps[i] != PublishFailed(id)
    requires forall i :: 0 <= i < |steps| && steps[i].Arrive? && Classify(steps[i].message).Reply? ==>
      Classify(steps[i].message).callId != id
    ensures id in Run(s, steps).pending
    ensures Lookup(Do(Run(s, steps), Arrive(message)).filled, id) == Some(message)
    decreases |steps|
  {
    if steps != [] {
      var rest := steps[1..];
      assert forall i :: 0 <= i < |rest| ==> rest[i] == steps[i + 1];
      assert id in Do(s, steps[0]).pending;
      FirstReplyAnswers(Do(s, steps[0]), rest, message, id);
    }
  }
}
