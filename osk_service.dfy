/**
 * The D-Bus side of the OSK daemon: the object exported at /sm/puri/OSK0
 * with interface sm.puri.OSK0, its one method SetVisible(b) and its one
 * property Visible.
 *
 * The side effects of a method call are recorded in a trace: one attempt to
 * signal the renderer and one PropertiesChanged notification per change of
 * visibility. The /proc snapshot the renderer lookup sees is part of each
 * call, since it is whatever the system holds at that moment.
 */
module OskService {
  import opened Wrappers
  import opened ProcScan

  /** The method and property names of interface sm.puri.OSK0. */
  const SetVisibleMethod: string := "SetVisible"
  const VisibleProperty: string := "Visible"

  /** A side effect of a method call. */
  datatype Event =
    | SignalAttempt(outcome: SignalOutcome)  // send_signal_to_wvkbd: kill(pid, SIGRTMIN), or "not found"
    | Notify(visible: bool)                  // PropertiesChanged on sm.puri.OSK0 carrying {"Visible": visible}

  /** The reply sent back to the caller. */
  datatype Reply = Ok | UnknownMethod

  /**
   * An incoming method call: its name, the boolean argument (read only for
   * SetVisible) and the /proc snapshot the renderer lookup would see.
   */
  datatype Call = Call(methodName: string, visible: bool, proc: Proc)

  /** The effect of handling one call: the new visibility, the reply and the side effects in order. */
  datatype Outcome = Outcome(visible: bool, reply: Reply, events: seq<Event>)

  /** The published state after a sequence of calls: current visibility and the whole trace. */
  datatype Session = Session(visible: bool, trace: seq<Event>)

  /** handle_method_call as a transition on the visible flag. */
  function Step(visible: bool, call: Call): (o: Outcome)
    ensures o.reply == Ok <==> call.methodName == SetVisibleMethod
    ensures o.reply == Ok ==> o.visible == call.visible
    ensures o.reply == UnknownMethod ==> o.visible == visible && o.events == []
    ensures o.events != [] <==> o.visible != visible
    ensures o.events != [] ==> o.events == [SignalAttempt(RendererSignal(call.proc)), Notify(o.visible)]
  {
    if call.methodName == SetVisibleMethod then
      if visible != call.visible then
        Outcome(call.visible, Ok, [SignalAttempt(RendererSignal(call.proc)), Notify(call.visible)])
      else
        Outcome(visible, Ok, [])
    else
      Outcome(visible, UnknownMethod, [])
  }

  /** The session reached from visibility v0 by handling calls in order. */
  function Run(v0: bool, calls: seq<Call>): (r: Session)
    ensures |r.trace| <= 2 * |calls|
    ensures r.visible != v0 ==> Requests(calls) != []
  {
    if calls == [] then Session(v0, [])
    else
      var before := Run(v0, calls[..|calls| - 1]);
      var o := Step(before.visible, calls[|calls| - 1]);
      Session(o.visible, before.trace + o.events)
  }

  // ------------------------------------------------ reference definitions

  /** The arguments of the SetVisible calls among calls, in order. */
  function Requests(calls: seq<Call>): seq<bool> {
    if calls == [] then []
    else
      var c := calls[|calls| - 1];
      Requests(calls[..|calls| - 1]) + (if c.methodName == SetVisibleMethod then [c.visible] else [])
  }

  /** The last element of vs, or d when vs is empty. */
  function LastOr(d: bool, vs: seq<bool>): bool {
    if vs == [] then d else vs[|vs| - 1]
  }

  /** How often the value changes along vs, starting from prev. */
  function FlipCount(prev: bool, vs: seq<bool>): nat
    decreases |vs|
  {
    if vs == [] then 0 else (if vs[0] != prev then 1 else 0) + FlipCount(vs[0], vs[1..])
  }

  /** Each value differs from the one before it, the first from prev. */
  predicate Alternates(prev: bool, vs: seq<bool>) {
    (vs != [] ==> vs[0] != prev) && forall i | 0 < i < |vs| :: vs[i] != vs[i - 1]
  }

  /** The values carried by the notifications of a trace, in order. */
  function Notifications(trace: seq<Event>): seq<bool> {
    if trace == [] then []
    else
      var e := trace[|trace| - 1];
      Notifications(trace[..|trace| - 1]) + (if e.Notify? then [e.visible] else [])
  }

  /** The trace is a sequence of pairs: a signal attempt, then a notification. */
  predicate Paired(trace: seq<Event>) {
    |trace| % 2 == 0 && forall i | 0 <= i < |trace| :: trace[i].SignalAttempt? <==> i % 2 == 0
  }

  // ---------------------------------------------------------- one call

  /** Setting the value the flag already has changes nothing and produces no side effect, yet succeeds. */
  lemma SetVisibleUnchanged(visible: bool, proc: Proc)
    ensures Step(visible, Call(SetVisibleMethod, visible, proc)) == Outcome(visible, Ok, [])
  {
  }

  /**
   * Setting a different value stores it and produces exactly one signal
   * attempt followed by exactly one notification of the new value.
   */
  lemma SetVisibleChanged(visible: bool, proc: Proc)
    ensures Step(visible, Call(SetVisibleMethod, !visible, proc))
         == Outcome(!visible, Ok, [SignalAttempt(RendererSignal(proc)), Notify(!visible)])
  {
  }

  /** Any other method name is refused and leaves the flag and the trace alone. */
  lemma OtherMethodRefused(visible: bool, call: Call)
    requires call.methodName != SetVisibleMethod
    ensures Step(visible, call) == Outcome(visible, UnknownMethod, [])
  {
  }

  /**
   * The renderer signal does not depend on the direction: showing and
   * hiding on the same /proc snapshot make the same attempt. That the
   * signal is SIGRTMIN in both cases is guaranteed by the type OsSignal,
   * which has no other value.
   */
  lemma SignalIndependentOfDirection(proc: Proc)
    ensures Step(false, Call(SetVisibleMethod, true, proc)).events[0]
         == Step(true, Call(SetVisibleMethod, false, proc)).events[0]
  {
  }

  /** Two SetVisible calls with the same value in a row signal and notify at most once. */
  lemma SetVisibleTwice(visible: bool, v: bool, p1: Proc, p2: Proc)
    ensures var first := Step(visible, Call(SetVisibleMethod, v, p1));
            var second := Step(first.visible, Call(SetVisibleMethod, v, p2));
            second == Outcome(v, Ok, []) && |first.events + second.events| <= 2
  {
  }

  // ------------------------------------------------- sequences of calls

  lemma RunUnfold(v0: bool, calls: seq<Call>, c: Call)
    ensures (calls + [c])[..|calls|] == calls
    ensures Run(v0, calls + [c]) == Session(Step(Run(v0, calls).visible, c).visible,
                                           Run(v0, calls).trace + Step(Run(v0, calls).visible, c).events)
    ensures Requests(calls + [c]) == Requests(calls) + (if c.methodName == SetVisibleMethod then [c.visible] else [])
  {
  }

  /** Appending a pair of events to a trace appends the one notification's value. */
  lemma NotificationsOfPair(trace: seq<Event>, o: SignalOutcome, v: bool)
    ensures Notifications(trace + [SignalAttempt(o), Notify(v)]) == Notifications(trace) + [v]
  {
    var t := trace + [SignalAttempt(o), Notify(v)];
    assert t[..|t| - 1] == trace + [SignalAttempt(o)];
    assert (trace + [SignalAttempt(o)])[..|trace|] == trace;
  }

  /** Flips are counted one request at a time from the end, too. */
  lemma {:induction false} FlipCountSnoc(prev: bool, vs: seq<bool>, v: bool)
    ensures FlipCount(prev, vs + [v]) == FlipCount(prev, vs) + (if v != LastOr(prev, vs) then 1 else 0)
    decreases |vs|
  {
    if vs != [] {
      assert (vs + [v])[1..] == vs[1..] + [v];
      FlipCountSnoc(vs[0], vs[1..], v);
      if |vs| > 1 {
        assert LastOr(vs[0], vs[1..]) == LastOr(prev, vs);
      }
    }
  }

  /**
   * The state after any calls is the argument of the last SetVisible among
   * them, or the starting value when there was none; and the last
   * notification published (or the starting value when none was) is the
   * current state.
   */
  lemma {:induction false} RunVisibleIsLastRequest(v0: bool, calls: seq<Call>)
    ensures Run(v0, calls).visible == LastOr(v0, Requests(calls))
    ensures LastOr(v0, Notifications(Run(v0, calls).trace)) == Run(v0, calls).visible
  {
    if calls != [] {
      var init, c := calls[..|calls| - 1], calls[|calls| - 1];
      assert calls == init + [c];
      RunUnfold(v0, init, c);
      RunVisibleIsLastRequest(v0, init);
      var before := Run(v0, init);
      var o := Step(before.visible, c);
      if o.events != [] {
        NotificationsOfPair(before.trace, RendererSignal(c.proc), o.visible);
        assert Run(v0, calls).trace == before.trace + [SignalAttempt(RendererSignal(c.proc)), Notify(o.visible)];
        assert Notifications(Run(v0, calls).trace) == Notifications(before.trace) + [o.visible];
      } else {
        assert Run(v0, calls) == Session(before.visible, before.trace);
      }
    }
  }

  /**
   * Every change of the requested value, and only a change, produces one
   * notification: the notifications are as many as the flips of the
   * requests and each one differs from the value published before it.
   */
  lemma {:induction false} RunNotifiesEachFlip(v0: bool, calls: seq<Call>)
    ensures |Notifications(Run(v0, calls).trace)| == FlipCount(v0, Requests(calls))
    ensures Alternates(v0, Notifications(Run(v0, calls).trace))
  {
    if calls != [] {
      var init, c := calls[..|calls| - 1], calls[|calls| - 1];
      assert calls == init + [c];
      RunUnfold(v0, init, c);
      RunNotifiesEachFlip(v0, init);
      RunVisibleIsLastRequest(v0, init);
      var before := Run(v0, init);
      var o := Step(before.visible, c);
      var ns := Notifications(before.trace);
      if c.methodName == SetVisibleMethod {
        FlipCountSnoc(v0, Requests(init), c.visible);
      } else {
        assert Requests(calls) == Requests(init);
      }
      if o.events != [] {
        NotificationsOfPair(before.trace, RendererSignal(c.proc), o.visible);
        AlternatesSnoc(v0, ns, o.visible);
      } else {
        assert Run(v0, calls) == Session(before.visible, before.trace);
      }
    }
  }

  /** A value that differs from the last one keeps a sequence alternating. */
  lemma AlternatesSnoc(prev: bool, vs: seq<bool>, v: bool)
    requires Alternates(prev, vs) && v != LastOr(prev, vs)
    ensures Alternates(prev, vs + [v])
  {
  }

  /** Every signal attempt is immediately followed by its notification, and nothing else is in the trace. */
  lemma {:induction false} RunTraceIsPaired(v0: bool, calls: seq<Call>)
    ensures Paired(Run(v0, calls).trace)
  {
    if calls != [] {
      var init, c := calls[..|calls| - 1], calls[|calls| - 1];
      assert calls == init + [c];
      RunUnfold(v0, init, c);
      RunTraceIsPaired(v0, init);
      var before := Run(v0, init);
      var t := Run(v0, calls).trace;
      assert forall i | 0 <= i < |before.trace| :: t[i] == before.trace[i];
    }
  }

  /** Any trace leaves exactly as many signal attempts as notifications. */
  lemma {:induction false} PairedCounts(trace: seq<Event>)
    requires Paired(trace)
    ensures |Notifications(trace)| * 2 == |trace|
  {
    if trace != [] {
      var init := trace[..|trace| - 2];
      assert trace == init + [trace[|trace| - 2], trace[|trace| - 1]];
      assert forall i | 0 <= i < |init| :: init[i] == trace[i];
      PairedCounts(init);
      assert trace[|trace| - 2].SignalAttempt? && trace[|trace| - 1].Notify?;
      NotificationsOfPair(init, trace[|trace| - 2].outcome, trace[|trace| - 1].visible);
    }
  }

  // ------------------------------------------------ the exported object

  /** OSKData: the per-connection state registered with the object at /sm/puri/OSK0. */
  class Osk {
    var visible: bool
    /** The side effects produced so far, in order. */
    var trace: seq<Event>
    /** The calls handled so far. */
    ghost var history: seq<Call>

    ghost predicate Valid()
      reads this
    {
      Run(false, history) == Session(visible, trace)
    }

    /** on_bus_acquired: the keyboard starts hidden, before any call. */
    constructor ()
      ensures Valid()
      ensures !visible && trace == [] && history == []
    {
      visible := false;
      trace := [];
      history := [];
    }

    /**
     * handle_method_call: SetVisible stores its argument, and when that
     * changes the flag signals the renderer and then emits PropertiesChanged;
     * it always succeeds. Any other method is refused.
     */
    method HandleMethodCall(call: Call) returns (reply: Reply)
      requires Valid()
      modifies this
      ensures Valid()
      ensures history == old(history) + [call]
      ensures visible == Step(old(visible), call).visible
      ensures reply == Step(old(visible), call).reply
      ensures trace == old(trace) + Step(old(visible), call).events
    {
      if call.methodName == SetVisibleMethod {
        if visible != call.visible {
          visible := call.visible;
          var outcome := SendSignalToRenderer(call.proc);
          trace := trace + [SignalAttempt(outcome)];
          trace := trace + [Notify(call.visible)];
        }
        reply := Ok;
      } else {
        reply := UnknownMethod;
      }
      RunUnfold(false, history, call);
      history := history + [call];
    }

    /** handle_get_property: the value of Visible, and no value for any other name. */
    function GetProperty(name: string): (r: Option<bool>)
      reads this
      ensures r.Some? <==> name == VisibleProperty
      ensures r.Some? ==> r.value == visible
    {
      if name == VisibleProperty then Some(visible) else None
    }

    /**
     * What a client reading Visible sees agrees with what was published:
     * the last notification, or false when none was sent; and the number of
     * notifications is the number of flips of the requested values.
     */
    lemma PublishedMatchesProperty()
      requires Valid()
      ensures GetProperty(VisibleProperty) == Some(LastOr(false, Notifications(trace)))
      ensures GetProperty(VisibleProperty) == Some(LastOr(false, Requests(history)))
      ensures |Notifications(trace)| == FlipCount(false, Requests(history))
      ensures Paired(trace)
    {
      RunVisibleIsLastRequest(false, history);
      RunNotifiesEachFlip(false, history);
      RunTraceIsPaired(false, history);
    }
  }
}
