/** The hotkey listener: every key event the operating system reports is handed to a
    callback, which runs the pipeline for a press of the trigger key and ignores every
    other event. A failed invocation is reported and swallowed, so the listener goes on
    handling the events that follow. */
module Hotkey {
  import opened Pipeline

  /** A reported key event, with the answers the operating system would give to the
      pipeline's capability calls if the event starts an invocation. */
  datatype Delivery = Delivery(event: EventType, host: Host)

  /** The clipboard and the effect log, as values. */
  datatype Desk = Desk(clipboard: Option<string>, log: seq<Effect>)

  /** Handling of one delivery by the callback for `trigger`. */
  function Step(trigger: Key, d: Desk, x: Delivery): Desk
  {
    if x.event == KeyPress(trigger) then
      var r := Invocation(d.clipboard, x.host);
      Desk(r.clipboard, d.log + r.effects)
    else d
  }

  /** Handling of a stream of deliveries, in the order they are reported. */
  function Listen(trigger: Key, d: Desk, xs: seq<Delivery>): Desk
    decreases |xs|
  {
    if xs == [] then d else Listen(trigger, Step(trigger, d, xs[0]), xs[1..])
  }

  /** An event changes anything exactly when it is a press of the trigger key; a trigger
      press always makes at least the copy chord's first call. */
  lemma StepOnlyOnTriggerPress(trigger: Key, d: Desk, x: Delivery)
    ensures Step(trigger, d, x) != d <==> x.event == KeyPress(trigger)
    ensures x.event == KeyPress(trigger) ==>
      |Step(trigger, d, x).log| > |d.log| && Step(trigger, d, x).log[..|d.log|] == d.log &&
      Step(trigger, d, x).log[|d.log|] == Simulated(KeyPress(ControlLeft))
  {
  }

  /** Handling a stream is handling its first part and then, from where that left off,
      the rest: nothing an earlier invocation did stops later events from being handled. */
  lemma {:induction false} ListenAppend(trigger: Key, d: Desk, xs: seq<Delivery>, ys: seq<Delivery>)
    ensures Listen(trigger, d, xs + ys) == Listen(trigger, Listen(trigger, d, xs), ys)
    decreases |xs|
  {
    if xs == [] {
      assert xs + ys == ys;
    } else {
      assert (xs + ys)[0] == xs[0];
      assert (xs + ys)[1..] == xs[1..] + ys;
      ListenAppend(trigger, Step(trigger, d, xs[0]), xs[1..], ys);
    }
  }

  /** A stream with no trigger press leaves the clipboard and the log untouched. */
  lemma {:induction false} ListenIgnoresOtherEvents(trigger: Key, d: Desk, xs: seq<Delivery>)
    requires forall k :: 0 <= k < |xs| ==> xs[k].event != KeyPress(trigger)
    ensures Listen(trigger, d, xs) == d
  {
    if xs != [] {
      assert xs[0].event != KeyPress(trigger);
      ListenIgnoresOtherEvents(trigger, d, xs[1..]);
    }
  }

  /** The log only ever grows: handling events never retracts a recorded call. */
  lemma {:induction false} ListenExtendsLog(trigger: Key, d: Desk, xs: seq<Delivery>)
    ensures d.log <= Listen(trigger, d, xs).log
    decreases |xs|
  {
    if xs != [] {
      var d1 := Step(trigger, d, xs[0]);
      assert d.log <= d1.log;
      ListenExtendsLog(trigger, d1, xs[1..]);
    }
  }

  /** However the earlier invocations ended, a trigger press that follows them starts a
      new invocation, the effect of which is appended to the log. */
  lemma TriggerAfterAnyHistoryRuns(trigger: Key, d: Desk, xs: seq<Delivery>, host: Host)
    ensures var before := Listen(trigger, d, xs);
      var after := Listen(trigger, d, xs + [Delivery(KeyPress(trigger), host)]);
      var r := Invocation(before.clipboard, host);
      after == Desk(r.clipboard, before.log + r.effects) &&
      |after.log| > |before.log| && after.log[|before.log|] == Simulated(KeyPress(ControlLeft))
  {
    var before := Listen(trigger, d, xs);
    var x := Delivery(KeyPress(trigger), host);
    ListenAppend(trigger, d, xs, [x]);
    assert [x][1..] == [];
    StepOnlyOnTriggerPress(trigger, before, x);
  }

  /** The listener's callback, holding the trigger key chosen at startup. */
  class Listener {
    const trigger: Key

    constructor (trigger: Key)
      ensures this.trigger == trigger
    {
      this.trigger := trigger;
    }

    /** Runs the pipeline when `event` is a press of the trigger key and ignores every
        other event; the pipeline's outcome is not passed on. */
    method Callback(desktop: Desktop, event: EventType, host: Host)
      modifies desktop
      ensures Desk(desktop.clipboard, desktop.log) ==
        Step(trigger, Desk(old(desktop.clipboard), old(desktop.log)), Delivery(event, host))
    {
      if event.KeyPress? && event.key == trigger {
        var outcome := desktop.RemoveNewlinesAndPaste(host);
      }
    }
  }
}
