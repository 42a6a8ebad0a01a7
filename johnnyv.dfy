/** The robot as a whole: its components share one controller, and the robot
    commits their queued commands only when every component reported success
    (johnnyv/core/JohnnyV.py). */
module Robot {
  import opened PyValues
  import opened Board
  import opened Control
  import opened Joints
  import opened Components

  /** The wire after a flush of `list`: one more frame, or none for an
      empty stack. */
  ghost function AfterFlush(list: seq<string>, wire: seq<string>): (r: seq<string>)
    requires forall i :: 0 <= i < |list| ==> CheckToken(list[i])
    ensures |r| == |wire| + (if list == [] then 0 else 1) && r[..|wire|] == wire
  {
    forall i | 0 <= i < |list| ensures Renderable(list[i]) {
      CheckedIsRenderable(list[i]);
    }
    wire + (if list == [] then [] else [Frame(list)])
  }

  /** What flushing the stack through `Controller.execute_stack` leaves
      behind, as `JohnnyV` sees it: either the answer True with the stack
      emptied and its frame on the wire (no frame for an empty stack), or the
      transport's exception with the stack and the wire as they were. */
  ghost predicate Flushed(c: Controller, r: Outcome<bool>, oldList: seq<string>, oldWire: seq<string>)
    requires forall i :: 0 <= i < |oldList| ==> CheckToken(oldList[i])
    reads c, c.ssc32u
  {
    || (r == Return(true) && c.executionList == [] &&
        c.ssc32u.wire == AfterFlush(oldList, oldWire))
    || (oldList != [] && r == Raise(SerialException) && c.executionList == oldList && c.ssc32u.wire == oldWire)
  }

  /** One component's record: `initialize()` ran the actions `ran`, the
      start of its default actions `plan`, and answered or raised `answer`. */
  ghost predicate InitRecord(plan: seq<Action>, ran: seq<Action>, answer: Outcome<bool>) {
    ran <= plan && InitAnswered(plan, |ran|, answer)
  }

  /** The pieces of `parts`, one after another. */
  function Flatten<T>(parts: seq<seq<T>>): seq<T> {
    if parts == [] then [] else Flatten(parts[..|parts| - 1]) + parts[|parts| - 1]
  }

  /** One more piece adds its items at the end. */
  lemma FlattenSnoc<T>(parts: seq<seq<T>>, part: seq<T>)
    ensures Flatten(parts + [part]) == Flatten(parts) + part
  {
    assert (parts + [part])[..|parts|] == parts;
  }

  /** The stack, the wire and the observers' calls after one more
      component's actions. */
  lemma RunsSnoc(list: seq<string>, wire: seq<string>, notified: seq<Notice>, observers: seq<ServoMotor>,
                 runs: seq<seq<Action>>, ran: seq<Action>)
    ensures list + Queued(Flatten(runs + [ran])) == (list + Queued(Flatten(runs))) + Queued(ran)
    ensures wire + Lines(Flatten(runs + [ran])) == (wire + Lines(Flatten(runs))) + Lines(ran)
    ensures notified + Noticed(Flatten(runs + [ran]), observers) ==
              (notified + Noticed(Flatten(runs), observers)) + Noticed(ran, observers)
  {
    var done := Flatten(runs);
    FlattenSnoc(runs, ran);
    EffectsOfJoin(done, ran, observers);
    assert list + Queued(done + ran) == (list + Queued(done)) + Queued(ran);
    assert wire + Lines(done + ran) == (wire + Lines(done)) + Lines(ran);
    assert notified + Noticed(done + ran, observers) == (notified + Noticed(done, observers)) + Noticed(ran, observers);
  }

  /** A component whose fields and servos are as they were still has the
      same default actions. */
  twostate lemma DefaultActsKept(c: Component)
    requires unchanged(c, c.servos)
    ensures DefaultActs(c) == old(DefaultActs(c))
  {
  }

  class JohnnyV {
    /** The controller every component talks through. */
    const controller: Controller
    /** The components, in the order of the configuration's table. */
    const components: seq<Component>

    ghost predicate Valid()
      reads this, controller, components
    {
      && controller.Valid()
      && forall i :: 0 <= i < |components| ==> components[i].controller == controller && components[i].Valid()
    }

    /** Keeps the components built from the configuration and their shared
        controller. */
    constructor (controller: Controller, components: seq<Component>)
      requires controller.Valid()
      requires forall i :: 0 <= i < |components| ==> components[i].controller == controller && components[i].Valid()
      ensures this.controller == controller && this.components == components && Valid()
    {
      this.controller := controller;
      this.components := components;
    }

    /** `execute_stack`: flushes the stack and answers True whatever the
        controller reported, so an empty stack also gives True; only the
        transport's exception gets through. No observer is notified. */
    method ExecuteStack() returns (r: Outcome<bool>)
      requires Valid()
      modifies controller`executionList, controller.ssc32u`isOpen, controller.ssc32u`wire
      ensures Valid()
      ensures Flushed(controller, r, old(controller.executionList), old(controller.ssc32u.wire))
      ensures controller.notified == old(controller.notified)
    {
      var flushed := controller.ExecuteStack();
      if flushed.Raise? {
        return Raise(flushed.exc);
      }
      return Return(true);
    }

    /** `validate_results`: the commit gate. When no component answered False
        the stack is flushed and the answer is True; otherwise the answer is
        False and the queued commands stay on the stack, unsent. */
    method ValidateResults(feedback: seq<bool>) returns (r: Outcome<bool>)
      requires Valid()
      modifies controller`executionList, controller.ssc32u`isOpen, controller.ssc32u`wire
      ensures Valid()
      ensures false in feedback ==>
                r == Return(false) && controller.executionList == old(controller.executionList) &&
                controller.ssc32u.wire == old(controller.ssc32u.wire)
      ensures false !in feedback ==> Flushed(controller, r, old(controller.executionList), old(controller.ssc32u.wire))
      ensures controller.notified == old(controller.notified)
    {
      if false !in feedback {
        r := ExecuteStack();
        return;
      }
      return Return(false);
    }

    /** The `i`-th component's `initialize()`: it ran the start `ran` of
        its default actions and answered or raised as its record says, and
        the stack, the wire and the observers' calls grew by what those
        actions queue, send and notify. */
    method InitializeOne(i: nat) returns (answer: Outcome<bool>, ghost ran: seq<Action>)
      requires Valid() && i < |components|
      modifies controller`executionList, controller`notified, controller.ssc32u`isOpen, controller.ssc32u`wire
      ensures Valid()
      ensures InitRecord(old(DefaultActs(components[i])), ran, answer)
      ensures controller.executionList == old(controller.executionList) + Queued(ran)
      ensures controller.ssc32u.wire == old(controller.ssc32u.wire) + Lines(ran)
      ensures controller.notified == old(controller.notified) + Noticed(ran, controller.servosToNotify)
    {
      ghost var plan := DefaultActs(components[i]);
      var c := components[i];
      assert c.controller == controller && c.Valid() && !Truthy(VNone);
      ghost var oldList, oldWire, oldNotified := controller.executionList, controller.ssc32u.wire, controller.notified;
      ghost var k;
      answer, k := c.Initialize(VNone);
      assert InitAnswered(plan, k, answer) && Effects(controller, plan, k, oldList, oldWire, oldNotified);
      ran := plan[..k];
    }

    /** The loop of `initialize`: every component's `initialize()` in
        order, stopping at the first exception, which `stop` holds.
        `feedback` holds the answers of the components that answered and
        `runs` the actions each of them ran, and `last` the actions the one
        that raised ran (none when none raised), all as the records over
        their default actions say; the stack, the wire and the observers'
        calls grew by those runs in order. */
    method InitializeEach() returns (stop: Option<Exc>, feedback: seq<bool>, ghost runs: seq<seq<Action>>,
                                     ghost last: seq<Action>)
      requires Valid()
      modifies controller`executionList, controller`notified, controller.ssc32u`isOpen, controller.ssc32u`wire
      ensures Valid()
      ensures |feedback| == |runs| <= |components|
      ensures forall i :: 0 <= i < |runs| ==> InitRecord(old(DefaultActs(components[i])), runs[i], Return(feedback[i]))
      ensures stop.None? ==>
                && |runs| == |components| && last == []
                && controller.executionList == old(controller.executionList) + Queued(Flatten(runs))
                && controller.ssc32u.wire == old(controller.ssc32u.wire) + Lines(Flatten(runs))
                && controller.notified == old(controller.notified) + Noticed(Flatten(runs), controller.servosToNotify)
      ensures stop.Some? ==>
                && |runs| < |components| && InitRecord(old(DefaultActs(components[|runs|])), last, Raise(stop.value))
                && controller.executionList == old(controller.executionList) + Queued(Flatten(runs)) + Queued(last)
                && controller.ssc32u.wire == old(controller.ssc32u.wire) + Lines(Flatten(runs)) + Lines(last)
                && controller.notified ==
                     old(controller.notified) + Noticed(Flatten(runs), controller.servosToNotify) +
                     Noticed(last, controller.servosToNotify)
    {
      feedback, runs, last := [], [], [];
      var i := 0;
      while i < |components|
        invariant 0 <= i <= |components| && |feedback| == |runs| == i
        invariant Valid()
        invariant forall j :: 0 <= j < i ==> InitRecord(old(DefaultActs(components[j])), runs[j], Return(feedback[j]))
        invariant controller.executionList == old(controller.executionList) + Queued(Flatten(runs))
        invariant controller.ssc32u.wire == old(controller.ssc32u.wire) + Lines(Flatten(runs))
        invariant controller.notified == old(controller.notified) + Noticed(Flatten(runs), controller.servosToNotify)
      {
        ghost var list0, wire0, notified0 := controller.executionList, controller.ssc32u.wire, controller.notified;
        DefaultActsKept(components[i]);
        var answer, ran := InitializeOne(i);
        assert controller.executionList == list0 + Queued(ran) && controller.ssc32u.wire == wire0 + Lines(ran);
        assert controller.notified == notified0 + Noticed(ran, controller.servosToNotify);
        assert InitRecord(old(DefaultActs(components[i])), ran, answer);
        if answer.Raise? {
          return Some(answer.exc), feedback, runs, ran;
        }
        RunsSnoc(old(controller.executionList), old(controller.ssc32u.wire), old(controller.notified),
                 controller.servosToNotify, runs, ran);
        ghost var runs' := runs + [ran];
        var feedback' := feedback + [answer.value];
        forall j | 0 <= j < i + 1
          ensures InitRecord(old(DefaultActs(components[j])), runs'[j], Return(feedback'[j]))
        {
          if j < i {
            assert runs'[j] == runs[j] && feedback'[j] == feedback[j];
          }
        }
        feedback, runs := feedback', runs';
        i := i + 1;
      }
      stop := None;
    }

    /** `initialize`: runs every component's `initialize()` in order, then
        the commit gate over their answers. `runs` holds the actions of the
        components that answered and `last` those of the one that raised, if
        any; `pending`/`sentBefore` are the stack and the wire they leave,
        and the observers' calls grew by the same runs, in component order,
        whatever comes next. When a component raises, its exception is passed on and the gate
        does not run. Otherwise `feedback` holds every answer and the gate
        runs: with a False among them it holds the stack back and the answer
        is still True; without one it flushes the stack, and only the
        transport's exception gets through. */
    method Initialize() returns (r: Outcome<bool>, feedback: seq<bool>, ghost runs: seq<seq<Action>>,
                                 ghost last: seq<Action>, ghost pending: seq<string>, ghost sentBefore: seq<string>)
      requires Valid()
      modifies controller`executionList, controller`notified, controller.ssc32u`isOpen, controller.ssc32u`wire
      ensures Valid()
      ensures r.Raise? || r == Return(true)
      ensures |feedback| == |runs| <= |components|
      ensures forall i :: 0 <= i < |runs| ==> InitRecord(old(DefaultActs(components[i])), runs[i], Return(feedback[i]))
      ensures forall i :: 0 <= i < |pending| ==> CheckToken(pending[i])
      ensures |runs| < |components| ==>
                && r.Raise?
                && InitRecord(old(DefaultActs(components[|runs|])), last, Raise(r.exc))
                && pending == old(controller.executionList) + Queued(Flatten(runs)) + Queued(last)
                && sentBefore == old(controller.ssc32u.wire) + Lines(Flatten(runs)) + Lines(last)
                && controller.executionList == pending && controller.ssc32u.wire == sentBefore
                && controller.notified ==
                     old(controller.notified) + Noticed(Flatten(runs), controller.servosToNotify) +
                     Noticed(last, controller.servosToNotify)
      ensures |runs| == |components| ==>
                && last == []
                && pending == old(controller.executionList) + Queued(Flatten(runs))
                && sentBefore == old(controller.ssc32u.wire) + Lines(Flatten(runs))
                && controller.notified == old(controller.notified) + Noticed(Flatten(runs), controller.servosToNotify)
      ensures |runs| == |components| && false in feedback ==>
                r == Return(true) && controller.executionList == pending && controller.ssc32u.wire == sentBefore
      ensures |runs| == |components| && false !in feedback ==>
                || (r == Return(true) && controller.executionList == [] &&
                    controller.ssc32u.wire == AfterFlush(pending, sentBefore))
                || (r == Raise(SerialException) && pending != [] &&
                    controller.executionList == pending && controller.ssc32u.wire == sentBefore)
    {
      var stop;
      stop, feedback, runs, last := InitializeEach();
      pending, sentBefore := controller.executionList, controller.ssc32u.wire;
      if stop.Some? {
        return Raise(stop.value), feedback, runs, last, pending, sentBefore;
      }
      var gate := ValidateResults(feedback);
      if gate.Raise? {
        return Raise(gate.exc), feedback, runs, last, pending, sentBefore;
      }
      return Return(true), feedback, runs, last, pending, sentBefore;
    }
  }
}
