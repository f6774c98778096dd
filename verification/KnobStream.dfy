/**
 Knob streaming: the leading-edge throttle of knob broadcasts and the trailing timer that must not lose a final value.
 A knob write and a timer's flush are atomic steps; the clock is read where the source reads it.
*/
module KnobStream {
  import opened Reals
  import opened Wrappers

  const INTERVAL := 0.1
  const MIN_DELAY := 0.01

  datatype Status = Resolved | Refused(reason: string)

  /** A `knob_update` event as every browser receives it. */
  datatype Frame = Frame(name: string, status: Status, value: Option<real>, at: real)

  // ---------------------------------------------------------------------
  // One knob
  // ---------------------------------------------------------------------

  /** All there is to one knob: `due` is when its trailing timer fires, `last` when it was last broadcast (or 0). */
  datatype Knob = Knob(value: Option<real>, status: Option<Status>, last: real, due: Option<real>, frames: seq<Frame>)

  const UNTOUCHED := Knob(None, None, 0.0, None, [])

  function Touched(k: Knob, v: real, status: Status): Knob {
    k.(value := if status.Resolved? then Some(v) else k.value, status := Some(status))
  }

  function Shown(k: Knob, name: string, now: real): Knob {
    var status := if k.status.Some? then k.status.value else Resolved;
    k.(due := None, last := now, frames := k.frames + [Frame(name, status, k.value, now)])
  }

  function Armed(k: Knob, later: real): Knob {
    if k.due.Some? then k else k.(due := Some(later + Max(MIN_DELAY, INTERVAL - (later - k.last))))
  }

  function SetKnob(k: Knob, name: string, v: real, status: Status, now: real, later: real): Knob {
    var touched := Touched(k, v, status);
    if now - k.last >= INTERVAL then Shown(touched, name, now) else Armed(touched, later)
  }

  // ---------------------------------------------------------------------
  // The dictionaries
  // ---------------------------------------------------------------------

  function Get<V>(m: map<string, V>, name: string): Option<V> {
    if name in m then Some(m[name]) else None
  }

  function FramesOf(log: seq<Frame>, name: string): seq<Frame>
    decreases |log|
  {
    if log == [] then []
    else FramesOf(log[..|log| - 1], name) + (if log[|log| - 1].name == name then [log[|log| - 1]] else [])
  }

  lemma FramesOfSnoc(log: seq<Frame>, f: Frame, name: string)
    ensures FramesOf(log + [f], name) == FramesOf(log, name) + (if f.name == name then [f] else [])
  {
    assert (log + [f])[..|log|] == log;
  }

  lemma FramesOfAll(log: seq<Frame>, f: Frame)
    ensures forall name ::
      FramesOf(log + [f], name) == if f.name == name then FramesOf(log, name) + [f] else FramesOf(log, name)
  {
    forall name
      ensures FramesOf(log + [f], name) == if f.name == name then FramesOf(log, name) + [f] else FramesOf(log, name)
    {
      FramesOfSnoc(log, f, name);
    }
  }

  class Knobs {
    var knobValues: map<string, real>
    var lastStatus: map<string, Status>
    var lastBroadcast: map<string, real>
    var trailing: map<string, real>
    var log: seq<Frame>

    ghost function View(name: string): Knob
      reads this
    {
      Knob(Get(knobValues, name), Get(lastStatus, name), LastOf(name), Get(trailing, name), FramesOf(log, name))
    }

    function LastOf(name: string): real
      reads this
    {
      if name in lastBroadcast then lastBroadcast[name] else 0.0
    }

    constructor ()
      ensures forall name :: View(name) == UNTOUCHED
    {
      knobValues, lastStatus, lastBroadcast, trailing, log := map[], map[], map[], map[], [];
    }

    method Broadcast(name: string, now: real)
      modifies `lastBroadcast, `trailing, `log
      ensures View(name) == Shown(old(View(name)), name, now)
      ensures forall other :: other != name ==> View(other) == old(View(other))
    {
      var status := if name in lastStatus then lastStatus[name] else Resolved;
      var f := Frame(name, status, Get(knobValues, name), now);
      trailing := trailing - {name};
      lastBroadcast := lastBroadcast[name := now];
      FramesOfAll(log, f);
      log := log + [f];
    }

    /** `_schedule_knob_trailing`, up to the timer's callback */
    method Arm(name: string, later: real)
      modifies `trailing
      ensures View(name) == Armed(old(View(name)), later)
      ensures forall other :: other != name ==> View(other) == old(View(other))
    {
      if name in trailing { return; }
      trailing := trailing[name := later + Max(MIN_DELAY, INTERVAL - (later - LastOf(name)))];
    }

    /**
     `knob_set`: `now` and `later` are the clock at the throttle test and where the timer is armed.  No `value` stands
     for one that is no number; `isKnob` says whether the macro has a knob step.
    */
    method KnobSet(name: string, isKnob: bool, value: Option<real>, status: Status, now: real, later: real)
      returns (accepted: bool)
      modifies this
      ensures accepted <==> isKnob && value.Some?
      ensures View(name) == if accepted then SetKnob(old(View(name)), name, Clamp01(value.value), status, now, later)
                            else old(View(name))
      ensures forall other :: other != name ==> View(other) == old(View(other))
    {
      if !isKnob || value.None? { return false; }
      if status.Resolved? { knobValues := knobValues[name := Clamp01(value.value)]; }
      lastStatus := lastStatus[name := status];
      assert View(name) == Touched(old(View(name)), Clamp01(value.value), status);
      if now - LastOf(name) >= INTERVAL {
        Broadcast(name, now);
      } else {
        Arm(name, later);
      }
      accepted := true;
    }

    /** The trailing timer's callback. */
    method Flush(name: string, now: real)
      modifies `lastBroadcast, `trailing, `log
      ensures View(name) == Shown(old(View(name)), name, now)
      ensures forall other :: other != name ==> View(other) == old(View(other))
    {
      Broadcast(name, now);
    }
  }

  // ---------------------------------------------------------------------
  // Runs of one knob
  // ---------------------------------------------------------------------

  datatype Event = Set(v: real, status: Status, now: real, later: real) | Fire(at: real)

  function Step(k: Knob, name: string, e: Event): Knob {
    match e
    case Set(v, status, now, later) => SetKnob(k, name, v, status, now, later)
    case Fire(at) => Shown(k, name, at)
  }

  function Run(name: string, es: seq<Event>): Knob
    decreases |es|
  {
    if es == [] then UNTOUCHED else Step(Run(name, es[..|es| - 1]), name, es[|es| - 1])
  }

  /** A timer fires only while armed; what the wall clock reads then is another matter. */
  predicate CanHappen(k: Knob, e: Event) { e.Fire? ==> k.due.Some? }

  predicate Legal(name: string, es: seq<Event>)
    decreases |es|
  {
    es != [] ==> Legal(name, es[..|es| - 1]) && CanHappen(Run(name, es[..|es| - 1]), es[|es| - 1])
  }

  /** What the knob ought to show: the last write that resolved, and the last status. */
  function Newest(es: seq<Event>): Option<real>
    decreases |es|
  {
    if es == [] then None
    else match es[|es| - 1]
      case Set(v, Resolved, _, _) => Some(v)
      case _ => Newest(es[..|es| - 1])
  }

  function NewestStatus(es: seq<Event>): Option<Status>
    decreases |es|
  {
    if es == [] then None
    else match es[|es| - 1]
      case Set(_, status, _, _) => Some(status)
      case _ => NewestStatus(es[..|es| - 1])
  }

  lemma {:induction false} StateIsNewest(name: string, es: seq<Event>)
    ensures Run(name, es).value == Newest(es) && Run(name, es).status == NewestStatus(es)
    decreases |es|
  {
    if es != [] { StateIsNewest(name, es[..|es| - 1]); }
  }

  /**
   Nothing is lost: in every reachable state a trailing timer is pending, or every browser was last sent exactly the
   newest value and status (or the knob was never touched).
  */
  lemma {:induction false} NewestIsShownOrPending(name: string, es: seq<Event>)
    requires Legal(name, es)
    ensures var k := Run(name, es);
      k.due.Some? || es == []
      || (k.frames != [] && var f := k.frames[|k.frames| - 1];
          f.name == name && f.value == Newest(es) && Some(f.status) == NewestStatus(es))
    decreases |es|
  {
    StateIsNewest(name, es);
    if es != [] {
      StateIsNewest(name, es[..|es| - 1]);
      if es[|es| - 1].Fire? { PendingMeansTouched(name, es[..|es| - 1]); }
    }
  }

  lemma {:induction false} PendingMeansTouched(name: string, es: seq<Event>)
    requires Legal(name, es) && Run(name, es).due.Some?
    ensures Run(name, es).status.Some?
    decreases |es|
  {
    if es != [] && Run(name, es[..|es| - 1]).due.Some? { PendingMeansTouched(name, es[..|es| - 1]); }
  }

  /** The timestamp on record is the last frame's, and a pending timer is never due before the window closes. */
  lemma {:induction false} NeverDueEarly(name: string, es: seq<Event>)
    requires Legal(name, es)
    ensures var k := Run(name, es);
      && k.last == (if k.frames == [] then 0.0 else k.frames[|k.frames| - 1].at)
      && (k.due.Some? ==> k.due.value >= k.last + INTERVAL)
    decreases |es|
  {
    if es != [] { NeverDueEarly(name, es[..|es| - 1]); }
  }

  /** When the last frame went out, or 0. */
  function LastAt(frames: seq<Frame>): real { if frames == [] then 0.0 else frames[|frames| - 1].at }

  /** The frame that carries a run's newest value and status. */
  function FrameOf(name: string, es: seq<Event>, at: real): Frame
    requires NewestStatus(es).Some?
  {
    Frame(name, NewestStatus(es).value, Newest(es), at)
  }

  /**
   The throttle's leading edge: a write 0.1 s or more after the last frame goes out at once, as one frame with the
   newest value and status, and leaves no timer.  Inside the window it sends nothing and leaves a timer, the one pending
   or one due at the end of the window, but no sooner than in 10 ms.
  */
  lemma {:induction false} WritesGoOutAtTheLeadingEdge(name: string, es: seq<Event>, write: Event)
    requires Legal(name, es) && write.Set?
    ensures NewestStatus(es + [write]) == Some(write.status)
    ensures Newest(es + [write]) == if write.status == Resolved then Some(write.v) else Newest(es)
    ensures var before, after := Run(name, es), Run(name, es + [write]);
      if write.now - LastAt(before.frames) >= 0.1
      then after.frames == before.frames + [FrameOf(name, es + [write], write.now)] && after.due == None
      else after.frames == before.frames && after.due == if before.due.Some? then before.due
             else Some(Max(write.later + 0.01, LastAt(before.frames) + 0.1))
  {
    assert (es + [write])[..|es|] == es;
    NeverDueEarly(name, es);
    StateIsNewest(name, es + [write]);
    StateIsNewest(name, es);
  }

  /** And its trailing edge: the timer sends one frame with the newest value and status, and none is pending then. */
  lemma {:induction false} TimersSendTheNewest(name: string, es: seq<Event>, at: real)
    requires Legal(name, es) && Run(name, es).due.Some?
    ensures NewestStatus(es).Some?
    ensures var after := Run(name, es + [Fire(at)]);
      after.frames == Run(name, es).frames + [FrameOf(name, es, at)] && after.due == None
  {
    assert (es + [Fire(at)])[..|es|] == es;
    StateIsNewest(name, es);
    PendingMeansTouched(name, es);
  }

  predicate Spaced(frames: seq<Frame>) {
    forall i :: 0 < i < |frames| ==> frames[i].at - frames[i - 1].at >= INTERVAL
  }

  /** No timer after the first broadcast reads a clock that puts it inside the throttle window still. */
  predicate ClockHolds(name: string, es: seq<Event>)
    decreases |es|
  {
    es != [] ==>
      var k := Run(name, es[..|es| - 1]);
      && ClockHolds(name, es[..|es| - 1])
      && (es[|es| - 1].Fire? && k.frames != [] ==> es[|es| - 1].at >= k.last + INTERVAL)
  }

  lemma {:induction false} FramesOnlyGrow(name: string, es: seq<Event>)
    requires es != []
    ensures var before, after := Run(name, es[..|es| - 1]).frames, Run(name, es).frames;
      |before| <= |after| && after[..|before|] == before
  {}

  /**
   Consecutive broadcasts of a knob are at least the interval apart exactly when the clock holds: a write never crowds
   the last broadcast, however the clock is set, but a timer does if it is set back between arming and firing.
  */
  lemma {:induction false} BroadcastsAreSpaced(name: string, es: seq<Event>)
    requires Legal(name, es)
    ensures Spaced(Run(name, es).frames) <==> ClockHolds(name, es)
    decreases |es|
  {
    if es != [] {
      var init := es[..|es| - 1];
      BroadcastsAreSpaced(name, init);
      NeverDueEarly(name, init);
      FramesOnlyGrow(name, es);
      SpacedNext(Run(name, init).frames, Run(name, es).frames);
    }
  }

  lemma SpacedNext(before: seq<Frame>, after: seq<Frame>)
    requires |before| <= |after| <= |before| + 1 && after[..|before|] == before
    ensures Spaced(after) <==>
      (Spaced(before)
       && (|after| > |before| && before != [] ==> after[|before|].at - before[|before| - 1].at >= INTERVAL))
  {
    assert forall i :: 0 <= i < |before| ==> after[i] == before[i];
  }

  /** What a caller can rely on: timers that read the clock no earlier than they are due keep broadcasts apart. */
  lemma {:induction false} PromptTimersKeepTheClock(name: string, es: seq<Event>)
    requires Legal(name, es)
    requires forall i :: 0 <= i < |es| && es[i].Fire? ==>
      Run(name, es[..i]).due.Some? && es[i].at >= Run(name, es[..i]).due.value
    ensures ClockHolds(name, es) && Spaced(Run(name, es).frames)
    decreases |es|
  {
    BroadcastsAreSpaced(name, es);
    if es != [] {
      var init := es[..|es| - 1];
      forall i | 0 <= i < |init| && init[i].Fire?
        ensures Run(name, init[..i]).due.Some? && init[i].at >= Run(name, init[..i]).due.value
      {
        assert init[..i] == es[..i];
      }
      PromptTimersKeepTheClock(name, init);
      NeverDueEarly(name, init);
    }
  }

  // ---------------------------------------------------------------------
  // Latency
  // ---------------------------------------------------------------------

  function Time(e: Event): real { if e.Set? then e.now else e.at }

  /** The clock runs forward, and arming the timer follows its write within 90 ms. */
  predicate Punctual(e: Event) {
    Time(e) >= 0.0 && (e.Set? ==> e.now <= e.later <= e.now + INTERVAL - MIN_DELAY)
  }

  predicate InOrder(es: seq<Event>)
    decreases |es|
  {
    es != [] ==>
      && Punctual(es[|es| - 1]) && InOrder(es[..|es| - 1])
      && (|es| > 1 ==> Time(es[|es| - 2]) <= Time(es[|es| - 1]))
  }

  /** A pending timer is due within the interval from now, and the last broadcast is not in the future. */
  lemma {:induction false} DueSoon(name: string, es: seq<Event>)
    requires Legal(name, es) && InOrder(es) && es != []
    ensures var k, t := Run(name, es), Time(es[|es| - 1]);
      k.last <= t && (k.due.Some? ==> k.due.value <= t + INTERVAL)
    decreases |es|
  {
    if |es| > 1 {
      DueSoon(name, es[..|es| - 1]);
    } else {
      assert es[..|es| - 1] == [];
    }
  }

  /** No broadcast has gone out since before event `i`. */
  predicate Unshown(name: string, es: seq<Event>, i: nat)
    requires i < |es|
  {
    |Run(name, es).frames| == |Run(name, es[..i]).frames|
  }

  lemma {:induction false} FramesGrow(name: string, es: seq<Event>, i: nat)
    requires i <= |es|
    ensures |Run(name, es[..i]).frames| <= |Run(name, es).frames|
    decreases |es|
  {
    if i == |es| {
      assert es[..i] == es;
    } else {
      assert es[..|es| - 1][..i] == es[..i];
      FramesGrow(name, es[..|es| - 1], i);
    }
  }

  /** A write that no broadcast has followed yet has a timer due within 0.1 s of that write. */
  lemma {:induction false} ShownWithinTheInterval(name: string, es: seq<Event>, i: nat)
    requires Legal(name, es) && InOrder(es) && i < |es| && es[i].Set? && Unshown(name, es, i)
    ensures Run(name, es).due.Some? && Run(name, es).due.value <= es[i].now + INTERVAL
    decreases |es|
  {
    var init := es[..|es| - 1];
    DueSoon(name, es);
    if i == |init| {
      assert es[..i] == init;
    } else {
      assert init[..i] == es[..i];
      FramesGrow(name, init, i);
      assert |Run(name, init).frames| <= |Run(name, es).frames|;
      ShownWithinTheInterval(name, init, i);
    }
  }
}
