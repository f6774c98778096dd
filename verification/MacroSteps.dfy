/**
 The step loop of a macro on the classic protocol, with its guaranteed restores and the guard on raw submix selections.
 The device lock makes one macro's steps an uninterrupted sequence of sends.
*/
module MacroSteps {
  import opened ClassicDevice
  import opened PhysicalTable
  import opened TargetResolver
  import opened Wrappers

  /** A step's stored value: the trigger's parameter, a number, or something that is no number. */
  datatype StepValue = Param | Number(v: real) | NotANumber

  /** An entry `operation` may be missing, be null, or be a record (an empty one emits nothing). */
  datatype Operation = NoOperation | Broken | Proper

  /** `osc` is absent when there is no address or an empty one; `knob` steps are sent over the global transport. */
  datatype Step = Step(osc: Option<Addr>, target: Option<Target>, knob: bool, operation: Operation, value: StepValue)

  /** How a step ends: on to the next, the macro aborted, or an exception out of the loop. */
  datatype End = Next | Abort | Crash

  function ValueOf(v: StepValue, param: real): Option<real> {
    match v
    case Param => Some(param)
    case Number(n) => Some(n)
    case NotANumber => None
  }

  predicate Modulates(s: Step) { s.operation.Proper? && s.value.Param? }

  /** A null for an operation raises as soon as the loop looks into it. */
  predicate Breaks(s: Step) { s.operation.Broken? && s.value.Param? }

  // ---------------------------------------------------------------------
  // Raw steps
  // ---------------------------------------------------------------------

  /** The guard: an integer that is a measured output. */
  predicate Allowed(s: Step, param: real, a: Answers) {
    var v := ValueOf(s.value, param);
    v.Some? && Measured(Msg(SetSubmix, v.value), a.table)
  }

  function Stream(addr: Addr, values: seq<real>): seq<Msg> {
    seq(|values|, i requires 0 <= i < |values| => Msg(addr, values[i]))
  }

  /** A write of a stored value, unless it is no number. */
  function Static(addr: Addr, v: Option<real>): seq<Msg> { if v.Some? then [Msg(addr, v.value)] else [] }

  predicate Refused(s: Step, param: real, a: Answers) {
    s.target.None? && !s.knob && s.osc == Some(SetSubmix) && !Allowed(s, param, a)
  }

  function RawSends(s: Step, param: real, a: Answers): seq<Msg> {
    if s.osc.None? || Refused(s, param, a) || Breaks(s) then []
    else if Modulates(s) then Stream(s.osc.value, a.emitted)
    else Static(s.osc.value, ValueOf(s.value, param))
  }

  // ---------------------------------------------------------------------
  // Target steps
  // ---------------------------------------------------------------------

  /** What the loop takes for a button and for channel detail, by the name as it is stored. */
  predicate IsButton(t: Target) { (t.kind.Fx? || t.kind.Detail?) && t.kind.button && !t.padded }

  predicate IsDetail(t: Target) { t.kind.Detail? && !t.padded }

  /** The address a target step writes to: the live one, the stored one without feedback, none when refused. */
  function AddrFor(s: Step, r: Resolution): Option<Addr> {
    match r
    case Resolved(addr) => Some(addr)
    case NoFeedback => s.osc
    case _ => None
  }

  ghost function WriteTo(s: Step, t: Target, a: Answers): Option<Addr> { AddrFor(s, Outcome(t, a)) }

  function ModulationSends(t: Target, addr: Addr, a: Answers): seq<Msg> {
    if !IsButton(t) then Stream(addr, a.emitted)
    else if ButtonSeen(a).None? then ReadSends(t, a)
    else ReadSends(t, a) + EdgePresses(addr, ButtonSeen(a).value, a.emitted)
  }

  function StaticSends(t: Target, addr: Addr, v: Option<real>, a: Answers): seq<Msg> {
    if v.None? then []
    else if IsButton(t) then ReadSends(t, a) + PressSends(addr, ButtonSeen(a), Wants(v.value))
    else [Msg(addr, v.value)]
  }

  function WriteSends(s: Step, t: Target, addr: Addr, param: real, a: Answers): seq<Msg> {
    if Breaks(s) then []
    else if Modulates(s) then ModulationSends(t, addr, a)
    else StaticSends(t, addr, ValueOf(s.value, param), a)
  }

  /** A button under modulation whose state cannot be read: the step ends there, its bank not restored. */
  predicate Unreadable(s: Step, t: Target, a: Answers) { Modulates(s) && IsButton(t) && ButtonSeen(a).None? }

  /** The step ends before the loop gets to restore the bank. */
  predicate Unfinished(s: Step, t: Target, a: Answers) { Breaks(s) || Unreadable(s, t, a) }

  /** The wait for that state raises, which nothing in the loop catches. */
  predicate Interrupts(s: Step, t: Target, a: Answers) { Modulates(s) && IsButton(t) && a.button.Interrupted? }

  predicate RestoresBank(s: Step, t: Target, a: Answers) { IsDetail(t) && !Unfinished(s, t, a) }

  const BANK_HOME := [Msg(BankStart, 0.0)]

  /** What a target step sends once its target is resolved to `r`. */
  function TailSends(s: Step, t: Target, r: Resolution, param: real, a: Answers): seq<Msg> {
    var addr := AddrFor(s, r);
    if addr.None? then []
    else WriteSends(s, t, addr.value, param, a) + (if RestoresBank(s, t, a) then BANK_HOME else [])
  }

  function TailDirty(s: Step, t: Target, r: Resolution, a: Answers, dirty: bool): bool {
    if !IsDetail(t) || AddrFor(s, r).None? then dirty else Unfinished(s, t, a)
  }

  ghost function TargetSends(s: Step, t: Target, param: real, a: Answers): seq<Msg> {
    AimSends(t, a) + TailSends(s, t, Outcome(t, a), param, a)
  }

  // ---------------------------------------------------------------------
  // Any step
  // ---------------------------------------------------------------------

  /** Knob steps, and targets while the global transport is up, send nothing here. */
  predicate Elsewhere(s: Step, a: Answers) { s.knob || (s.target.Some? && a.global) }

  ghost function StepSends(s: Step, param: real, a: Answers): seq<Msg> {
    if Elsewhere(s, a) then []
    else if s.target.Some? then TargetSends(s, s.target.value, param, a)
    else RawSends(s, param, a)
  }

  function TargetEnd(s: Step, t: Target, r: Resolution, a: Answers): End {
    if r.Raised? || (AddrFor(s, r).Some? && (Breaks(s) || Interrupts(s, t, a))) then Crash else Next
  }

  ghost function StepEnd(s: Step, param: real, a: Answers): End {
    if Elsewhere(s, a) then (if a.raises then Crash else Next)
    else if s.target.Some? then TargetEnd(s, s.target.value, Outcome(s.target.value, a), a)
    else if Refused(s, param, a) then Abort
    else if s.osc.Some? && Breaks(s) then Crash else Next
  }

  /** `_bank_dirty` after a step. */
  ghost function DirtyAfter(s: Step, a: Answers, dirty: bool): bool {
    if Elsewhere(s, a) || s.target.None? then dirty
    else TailDirty(s, s.target.value, Outcome(s.target.value, a), a, dirty)
  }

  method Emit(device: Device, addr: Addr, values: seq<real>)
    requires device.Valid()
    modifies device
    ensures device.Valid() && device.start == old(device.start)
    ensures device.sent == old(device.sent) + Stream(addr, values)
  {
    var i := 0;
    while i < |values|
      invariant i <= |values| && device.Valid() && device.start == old(device.start)
      invariant device.sent == old(device.sent) + Stream(addr, values[..i])
    {
      device.Send(addr, values[i]);
      assert Stream(addr, values[..i + 1]) == Stream(addr, values[..i]) + [Msg(addr, values[i])];
      i := i + 1;
    }
    assert values[..i] == values;
  }

  /** An operation's values through the edge-trigger shim. */
  method EmitEdges(device: Device, addr: Addr, initial: bool, values: seq<real>)
    requires device.Valid()
    modifies device
    ensures device.Valid() && device.start == old(device.start)
    ensures device.sent == old(device.sent) + EdgePresses(addr, initial, values)
  {
    var client := new EdgeToggle(device, addr, initial);
    ghost var before := device.sent;
    var i := 0;
    while i < |values|
      invariant i <= |values| && device.Valid() && device.start == old(device.start)
      invariant client.device == device && client.addr == addr && client.on == LastWanted(initial, values[..i])
      invariant device.sent == before + EdgePresses(addr, initial, values[..i])
      modifies device, client
    {
      ghost var presses := EdgePresses(addr, initial, values[..i]);
      ghost var more := if Wants(values[i]) != client.on then [Msg(addr, 1.0)] else [];
      assert values[..i + 1][..i] == values[..i];
      assert before + presses + more == before + (presses + more);
      client.Send(addr, values[i]);
      i := i + 1;
    }
    assert values[..i] == values;
  }

  method Modulate(device: Device, t: Target, addr: Addr, a: Answers) returns (read: bool)
    requires device.Valid()
    modifies device
    ensures device.Valid() && device.start == old(device.start)
    ensures device.sent == old(device.sent) + ModulationSends(t, addr, a)
    ensures read <==> !(IsButton(t) && ButtonSeen(a).None?)
  {
    if !IsButton(t) {
      Emit(device, addr, a.emitted);
      return true;
    }
    ghost var before := device.sent;
    var initial := ReadButton(device, t, a);
    if initial.None? {
      assert ReadSends(t, a) + [] == ReadSends(t, a);
      return false;
    }
    EmitEdges(device, addr, initial.value, a.emitted);
    assert device.sent == before + (ReadSends(t, a) + EdgePresses(addr, initial.value, a.emitted));
    read := true;
  }

  method WriteStatic(device: Device, t: Target, addr: Addr, v: Option<real>, a: Answers)
    requires device.Valid()
    modifies device
    ensures device.Valid() && device.start == old(device.start)
    ensures device.sent == old(device.sent) + StaticSends(t, addr, v, a)
  {
    if v.None? { return; }
    if IsButton(t) {
      var ok := SetButton(device, addr, t, Wants(v.value), a);
    } else {
      device.Send(addr, v.value);
    }
  }

  /** The writes of a resolved target step, and the bank's way home. */
  method WriteTarget(device: Device, s: Step, t: Target, addr: Addr, param: real, a: Answers, dirty: bool)
    returns (dirty': bool)
    requires device.Valid()
    modifies device
    ensures device.Valid() && device.start == old(device.start)
    ensures device.sent == old(device.sent)
      + (WriteSends(s, t, addr, param, a) + (if RestoresBank(s, t, a) then BANK_HOME else []))
    ensures dirty' == if IsDetail(t) then Unfinished(s, t, a) else dirty
  {
    ghost var before, writes := device.sent, WriteSends(s, t, addr, param, a);
    dirty' := dirty || IsDetail(t);
    assert writes + [] == writes;
    if Breaks(s) { return; }
    var go := true;
    if Modulates(s) {
      go := Modulate(device, t, addr, a);
    } else {
      WriteStatic(device, t, addr, ValueOf(s.value, param), a);
    }
    if go && IsDetail(t) {
      device.Send(BankStart, 0.0);
      assert device.sent == before + (writes + BANK_HOME);
      dirty' := false;
    }
  }

  method FinishTarget(device: Device, s: Step, t: Target, r: Resolution, param: real, a: Answers, dirty: bool)
    returns (end: End, dirty': bool)
    requires device.Valid() && !r.Raised?
    modifies device
    ensures device.Valid() && device.start == old(device.start)
    ensures device.sent == old(device.sent) + TailSends(s, t, r, param, a)
    ensures end == TargetEnd(s, t, r, a) && dirty' == TailDirty(s, t, r, a, dirty)
  {
    var addr := if r.Resolved? then Some(r.addr) else if r.NoFeedback? then s.osc else None;
    assert addr == AddrFor(s, r);
    if addr.None? { return Next, dirty; }
    dirty' := WriteTarget(device, s, t, addr.value, param, a, dirty);
    end := if Breaks(s) || Interrupts(s, t, a) then Crash else Next;
  }

  method RunTarget(device: Device, s: Step, t: Target, param: real, a: Answers, dirty: bool)
    returns (end: End, dirty': bool)
    requires device.Valid() && s.target == Some(t) && !Elsewhere(s, a)
    modifies device
    ensures device.Valid() && device.start == old(device.start)
    ensures device.sent == old(device.sent) + TargetSends(s, t, param, a)
    ensures end == StepEnd(s, param, a) && dirty' == DirtyAfter(s, a, dirty)
  {
    ghost var before := device.sent;
    var r := ResolveTarget(device, t, a);
    Regroup(before, AimSends(t, a), TailSends(s, t, r, param, a));
    if r.Raised? { return Crash, dirty; }
    end, dirty' := FinishTarget(device, s, t, r, param, a, dirty);
  }

  method RunStep(device: Device, s: Step, param: real, a: Answers, dirty: bool) returns (end: End, dirty': bool)
    requires device.Valid()
    modifies device
    ensures device.Valid() && device.start == old(device.start)
    ensures device.sent == old(device.sent) + StepSends(s, param, a)
    ensures end == StepEnd(s, param, a) && dirty' == DirtyAfter(s, a, dirty)
  {
    if s.knob || (s.target.Some? && a.global) { return if a.raises then Crash else Next, dirty; }
    if s.target.Some? {
      end, dirty' := RunTarget(device, s, s.target.value, param, a, dirty);
      return;
    }
    if s.osc == Some(SetSubmix) && !Allowed(s, param, a) { return Abort, dirty; }
    if s.osc.None? { return Next, dirty; }
    if Breaks(s) { return Crash, dirty; }
    if Modulates(s) {
      Emit(device, s.osc.value, a.emitted);
    } else {
      var v := ValueOf(s.value, param);
      if v.Some? { device.Send(s.osc.value, v.value); }
    }
    return Next, dirty;
  }

  // ---------------------------------------------------------------------
  // Runs
  // ---------------------------------------------------------------------

  /** One firing: `globalAtStart` is whether the global transport was up when the loop was entered. */
  datatype Run = Run(steps: seq<Step>, param: real, answers: seq<Answers>, globalAtStart: bool)

  predicate Fits(r: Run) { |r.answers| == |r.steps| }

  /** What one step amounts to: its sends, how it ended, and the dirty flag as a function of the one before. */
  datatype Done = Done(sends: seq<Msg>, end: End, flag: bool -> bool)

  /** Step `i` of a log is reached: every one before it went on to the next. */
  ghost predicate LogReached(log: seq<Done>, i: nat)
    requires i <= |log|
  {
    forall j: nat :: j < i ==> log[j].end == Next
  }

  ghost function LogSends(log: seq<Done>, n: nat): seq<Msg>
    requires n <= |log|
  {
    if n == 0 then [] else LogSends(log, n - 1) + (if LogReached(log, n - 1) then log[n - 1].sends else [])
  }

  ghost function LogDirty(log: seq<Done>, n: nat): bool
    requires n <= |log|
  {
    if n == 0 then false
    else if LogReached(log, n - 1) then log[n - 1].flag(LogDirty(log, n - 1)) else LogDirty(log, n - 1)
  }

  /** Nothing more is sent once a step did not go on. */
  lemma {:induction false} StoppedLog(log: seq<Done>, i: nat, n: nat)
    requires i < n <= |log| && log[i].end != Next
    ensures LogSends(log, n) == LogSends(log, i + 1) && LogDirty(log, n) == LogDirty(log, i + 1)
    decreases n
  {
    if n > i + 1 {
      StoppedLog(log, i, n - 1);
      assert !LogReached(log, n - 1);
      assert LogSends(log, n - 1) + [] == LogSends(log, n - 1);
    }
  }

  ghost function Log(r: Run): (log: seq<Done>)
    requires Fits(r)
    ensures |log| == |r.steps|
  {
    seq(|r.steps|, i requires 0 <= i < |r.steps| =>
      Done(StepSends(r.steps[i], r.param, r.answers[i]), StepEnd(r.steps[i], r.param, r.answers[i]),
           dirty => DirtyAfter(r.steps[i], r.answers[i], dirty)))
  }

  ghost function EndOf(r: Run, i: nat): End
    requires Fits(r) && i < |r.steps|
  {
    Log(r)[i].end
  }

  ghost predicate Reached(r: Run, i: nat)
    requires Fits(r) && i <= |r.steps|
  {
    LogReached(Log(r), i)
  }

  ghost function Sends(r: Run, i: nat): seq<Msg>
    requires Fits(r) && i < |r.steps|
  {
    if Reached(r, i) then Log(r)[i].sends else []
  }

  ghost function LoopSends(r: Run, n: nat): seq<Msg>
    requires Fits(r) && n <= |r.steps|
  {
    LogSends(Log(r), n)
  }

  ghost function Dirty(r: Run, n: nat): bool
    requires Fits(r) && n <= |r.steps|
  {
    LogDirty(Log(r), n)
  }

  predicate OffInputRow(s: Step) {
    s.target.Some? && (s.target.value.row.PlaybackRow? || s.target.value.row.OutputRow?)
  }

  /** `_row_dirty`, computed once before the loop. */
  predicate RowDirty(r: Run) { !r.globalAtStart && exists i :: 0 <= i < |r.steps| && OffInputRow(r.steps[i]) }

  function Homing(bank: bool, row: bool): seq<Msg> {
    (if bank then BANK_HOME else []) + (if row then [Msg(SelectRow(1, Inputs), 1.0)] else [])
  }

  ghost function MacroSends(r: Run): seq<Msg>
    requires Fits(r)
  {
    LoopSends(r, |r.steps|) + Homing(Dirty(r, |r.steps|), RowDirty(r))
  }

  lemma StoppedRunStaysStopped(r: Run, i: nat, n: nat)
    requires Fits(r) && i < n <= |r.steps| && EndOf(r, i) != Next
    ensures LoopSends(r, n) == LoopSends(r, i + 1) && Dirty(r, n) == Dirty(r, i + 1)
  {
    StoppedLog(Log(r), i, n);
  }

  lemma LoopNext(r: Run, i: nat, before: seq<Msg>)
    requires Fits(r) && i < |r.steps| && Reached(r, i)
    ensures before + LoopSends(r, i) + StepSends(r.steps[i], r.param, r.answers[i]) == before + LoopSends(r, i + 1)
    ensures Dirty(r, i + 1) == DirtyAfter(r.steps[i], r.answers[i], Dirty(r, i))
    ensures StepEnd(r.steps[i], r.param, r.answers[i]) == EndOf(r, i)
    ensures EndOf(r, i) == Next ==> Reached(r, i + 1)
  {
    var sofar := LoopSends(r, i);
    assert before + sofar + Sends(r, i) == before + (sofar + Sends(r, i));
  }

  /** What the first `n` steps sent behind `before`, and the flag they left. */
  ghost predicate Ran(r: Run, n: nat, before: seq<Msg>, sent: seq<Msg>, dirty: bool)
    requires Fits(r) && n <= |r.steps|
  {
    sent == before + LoopSends(r, n) && dirty == Dirty(r, n)
  }

  lemma RanNothing(r: Run, before: seq<Msg>)
    requires Fits(r)
    ensures Reached(r, 0) && Ran(r, 0, before, before, false)
  {}

  method RunNext(device: Device, r: Run, i: nat, dirty: bool, ghost before: seq<Msg>) returns (go: bool, dirty': bool)
    requires device.Valid() && Fits(r) && i < |r.steps| && Reached(r, i)
    requires Ran(r, i, before, device.sent, dirty)
    modifies device
    ensures device.Valid() && device.start == old(device.start)
    ensures if go then Reached(r, i + 1) && Ran(r, i + 1, before, device.sent, dirty')
            else Ran(r, |r.steps|, before, device.sent, dirty')
  {
    LoopNext(r, i, before);
    var end;
    end, dirty' := RunStep(device, r.steps[i], r.param, r.answers[i], dirty);
    go := end.Next?;
    if !go { StoppedRunStaysStopped(r, i, |r.steps|); }
  }

  method RunLoop(device: Device, r: Run) returns (dirty: bool)
    requires device.Valid() && Fits(r)
    modifies device
    ensures device.Valid() && device.start == old(device.start)
    ensures Ran(r, |r.steps|, old(device.sent), device.sent, dirty)
  {
    dirty := false;
    ghost var before := device.sent;
    RanNothing(r, before);
    var i := 0;
    while i < |r.steps|
      invariant i <= |r.steps| && device.Valid() && device.start == old(device.start)
      invariant Reached(r, i) && Ran(r, i, before, device.sent, dirty)
    {
      var go;
      go, dirty := RunNext(device, r, i, dirty, before);
      if !go { return; }
      i := i + 1;
    }
  }

  method GoHome(device: Device, bank: bool, row: bool)
    requires device.Valid()
    modifies device
    ensures device.Valid() && device.start == old(device.start)
    ensures device.sent == old(device.sent) + Homing(bank, row)
  {
    if bank { device.Send(BankStart, 0.0); }
    if row { device.Send(SelectRow(1, Inputs), 1.0); }
  }

  /** The step loop and its `finally`. */
  method RunSteps(device: Device, r: Run)
    requires device.Valid() && Fits(r)
    modifies device
    ensures device.Valid() && device.start == old(device.start)
    ensures device.sent == old(device.sent) + MacroSends(r)
  {
    var rowDirty := RowDirty(r);
    ghost var before := device.sent;
    var dirty := RunLoop(device, r);
    ghost var loop := LoopSends(r, |r.steps|);
    assert before + loop + Homing(dirty, rowDirty) == before + (loop + Homing(dirty, rowDirty));
    GoHome(device, dirty, rowDirty);
  }

  // ---------------------------------------------------------------------
  // Where each step leaves the device
  // ---------------------------------------------------------------------

  predicate Plain(addr: Addr) { addr.Param? }

  predicate Stays(aim: Aim, ms: seq<Msg>) { forall i :: 0 <= i < |ms| ==> Applied(aim, ms[i]) == aim }

  lemma {:induction false} StayingKeepsAim(aim: Aim, ms: seq<Msg>, k: nat)
    requires Stays(aim, ms) && k <= |ms|
    ensures AimAfter(aim, ms[..k]) == aim
    decreases k
  {
    if k > 0 {
      StayingKeepsAim(aim, ms, k - 1);
      assert ms[..k][..k - 1] == ms[..k - 1];
    }
  }

  lemma {:induction false} PressesStay(addr: Addr, on: bool, values: seq<real>, aim: Aim)
    requires Plain(addr)
    ensures Stays(aim, EdgePresses(addr, on, values))
    decreases |values|
  {
    if values != [] { PressesStay(addr, on, values[..|values| - 1], aim); }
  }

  /** The row mirror a button read nudges is the one already selected, and all else a step writes is no aim. */
  lemma WritesStay(s: Step, t: Target, addr: Addr, param: real, a: Answers, aim: Aim)
    requires Plain(addr) && (t.kind.Detail? ==> aim.row == RowFor(t.row))
    ensures Stays(aim, WriteSends(s, t, addr, param, a))
  {
    assert Stays(aim, ReadSends(t, a));
    if IsButton(t) && Modulates(s) && ButtonSeen(a).Some? {
      PressesStay(addr, ButtonSeen(a).value, a.emitted, aim);
    }
  }

  /**
   Every single write of a resolved step goes out while the device is aimed as `ResolvedMeansConfirmed` says: no other
   macro's aim, and none of the step's own messages, comes in between.
  */
  lemma WritesAreAimed(s: Step, t: Target, param: real, a: Answers, aim: Aim, k: nat)
    requires Outcome(t, a).Resolved? && k <= |WriteSends(s, t, Outcome(t, a).addr, param, a)|
    ensures AimAfter(aim, AimSends(t, a) + WriteSends(s, t, Outcome(t, a).addr, param, a)[..k]) == AimFor(t, a, aim)
  {
    var writes := WriteSends(s, t, Outcome(t, a).addr, param, a);
    ResolutionAims(t, a, aim);
    AimAfterBoth(aim, AimSends(t, a), writes[..k]);
    WritesStay(s, t, Outcome(t, a).addr, param, a, AimFor(t, a, aim));
    StayingKeepsAim(AimFor(t, a, aim), writes, k);
  }

  /** No stored address of the step moves the bank or the row. */
  predicate Tame(s: Step) { s.osc.Some? ==> !s.osc.value.BankStart? && !s.osc.value.SelectRow? }

  /** What a step does to bank and row, whatever it is and however it ends. */
  ghost function BankAfter(s: Step, a: Answers, bank: real): real {
    if !Aims(s, a) then bank
    else if LeavesWindow(s, a) then Channel(s.target.value, a).value.n as real
    else 0.0
  }

  /** The step aims the device over the classic protocol. */
  ghost predicate Aims(s: Step, a: Answers) {
    !Elsewhere(s, a) && s.target.Some? && Aimable(s.target.value, a)
  }

  /**
   The step aims page 2 and does not bring the bank back itself: the resolver raises, or the target resolves but the
   loop does not know it for channel detail, breaks off, or cannot read its button.
  */
  ghost predicate LeavesWindow(s: Step, a: Answers) {
    && Aims(s, a) && s.target.value.kind.Detail?
    && (a.raises || (AimConfirmed(s.target.value, a) && (s.target.value.padded || Unfinished(s, s.target.value, a))))
  }

  ghost predicate LeavesScrolled(s: Step, a: Answers) {
    LeavesWindow(s, a) && Channel(s.target.value, a).value.n != 0
  }

  ghost function RowAfter(s: Step, a: Answers, row: Row): Row {
    if Elsewhere(s, a) || s.target.None? || !Aimable(s.target.value, a) then row
    else if s.target.value.kind.Detail? && !a.raises && !AimConfirmed(s.target.value, a) then Inputs
    else RowFor(s.target.value.row)
  }

  predicate KeepsBankAndRow(m: Msg) { !m.addr.BankStart? && !m.addr.SelectRow? }

  lemma {:induction false} BankAndRowKept(aim: Aim, ms: seq<Msg>)
    requires forall i :: 0 <= i < |ms| ==> KeepsBankAndRow(ms[i])
    ensures AimAfter(aim, ms).bank == aim.bank && AimAfter(aim, ms).row == aim.row
    decreases |ms|
  {
    if ms != [] { BankAndRowKept(aim, ms[..|ms| - 1]); }
  }

  /** A stored address is only ever written as it stands, so a tame one moves neither bank nor row. */
  lemma StoredWrites(s: Step, t: Target, addr: Addr, param: real, a: Answers)
    requires !IsButton(t) && !addr.BankStart? && !addr.SelectRow?
    ensures forall i :: 0 <= i < |WriteSends(s, t, addr, param, a)| ==>
      KeepsBankAndRow(WriteSends(s, t, addr, param, a)[i])
  {}

  lemma {:induction false} TargetWritesKeep(s: Step, t: Target, param: real, a: Answers, aim: Aim)
    requires Tame(s) && WriteTo(s, t, a).Some? && (t.kind.Detail? ==> aim.row == RowFor(t.row))
    ensures var after := AimAfter(aim, WriteSends(s, t, WriteTo(s, t, a).value, param, a));
      after.bank == aim.bank && after.row == aim.row
  {
    var addr := WriteTo(s, t, a).value;
    if Plain(addr) {
      var writes := WriteSends(s, t, addr, param, a);
      WritesStay(s, t, addr, param, a, aim);
      StayingKeepsAim(aim, writes, |writes|);
      assert writes[..|writes|] == writes;
    } else {
      StoredWrites(s, t, addr, param, a);
      BankAndRowKept(aim, WriteSends(s, t, addr, param, a));
    }
  }

  lemma {:induction false} TailAims(s: Step, t: Target, param: real, a: Answers, aim: Aim)
    requires Tame(s) && (t.kind.Detail? && WriteTo(s, t, a).Some? ==> aim.row == RowFor(t.row))
    ensures var after := AimAfter(aim, TailSends(s, t, Outcome(t, a), param, a));
      && after.row == aim.row
      && after.bank == if WriteTo(s, t, a).Some? && RestoresBank(s, t, a) then 0.0 else aim.bank
  {
    if WriteTo(s, t, a).Some? {
      var writes := WriteSends(s, t, WriteTo(s, t, a).value, param, a);
      TargetWritesKeep(s, t, param, a, aim);
      if RestoresBank(s, t, a) {
        AimAfterBoth(aim, writes, BANK_HOME);
        AimAfterOne(AimAfter(aim, writes), BANK_HOME[0]);
      } else {
        assert writes + [] == writes;
      }
    }
  }

  lemma {:induction false} TargetStepAims(s: Step, t: Target, param: real, a: Answers, aim: Aim)
    requires s.target == Some(t) && Tame(s) && !Elsewhere(s, a)
    ensures var after := AimAfter(aim, TargetSends(s, t, param, a));
      after.bank == BankAfter(s, a, aim.bank) && after.row == RowAfter(s, a, aim.row)
  {
    ResolutionAims(t, a, aim);
    AimAfterBoth(aim, AimSends(t, a), TailSends(s, t, Outcome(t, a), param, a));
    TailAims(s, t, param, a, AimFor(t, a, aim));
  }

  lemma {:induction false} StepAims(s: Step, param: real, a: Answers, aim: Aim)
    requires Tame(s)
    ensures var after := AimAfter(aim, StepSends(s, param, a));
      after.bank == BankAfter(s, a, aim.bank) && after.row == RowAfter(s, a, aim.row)
  {
    if !Elsewhere(s, a) {
      if s.target.Some? {
        TargetStepAims(s, s.target.value, param, a, aim);
      } else {
        BankAndRowKept(aim, RawSends(s, param, a));
      }
    }
  }

  // ---------------------------------------------------------------------
  // The restores
  // ---------------------------------------------------------------------

  ghost predicate AllTame(r: Run) { forall s :: s in r.steps ==> Tame(s) }

  ghost function AimAt(r: Run, n: nat, aim: Aim): Aim
    requires Fits(r) && n <= |r.steps|
  {
    AimAfter(aim, LoopSends(r, n))
  }

  lemma {:induction false} AimNext(r: Run, n: nat, aim: Aim)
    requires Fits(r) && n < |r.steps| && AllTame(r)
    ensures var now, next := AimAt(r, n, aim), AimAt(r, n + 1, aim);
      if Reached(r, n) then next.bank == BankAfter(r.steps[n], r.answers[n], now.bank)
                         && next.row == RowAfter(r.steps[n], r.answers[n], now.row)
      else next == now
  {
    AimAfterBoth(aim, LoopSends(r, n), Sends(r, n));
    if Reached(r, n) { StepAims(r.steps[n], r.param, r.answers[n], AimAt(r, n, aim)); }
  }

  /** The last of the first `n` steps that aimed the device. */
  ghost function LastAim(r: Run, n: nat): (i: Option<nat>)
    requires Fits(r) && n <= |r.steps|
    ensures i.Some? ==> i.value < n && Reached(r, i.value) && Aims(r.steps[i.value], r.answers[i.value])
  {
    if n == 0 then None
    else if Reached(r, n - 1) && Aims(r.steps[n - 1], r.answers[n - 1]) then Some(n - 1) else LastAim(r, n - 1)
  }

  ghost predicate Scrolled(r: Run, n: nat)
    requires Fits(r) && n <= |r.steps|
  {
    var i := LastAim(r, n);
    i.Some? && LeavesScrolled(r.steps[i.value], r.answers[i.value])
  }

  ghost predicate BankKnown(r: Run, n: nat, aim: Aim)
    requires Fits(r) && n <= |r.steps|
  {
    AimAt(r, n, aim).bank == 0.0 <==> !Scrolled(r, n)
  }

  lemma BankAfterZero(s: Step, a: Answers, bank: real)
    ensures BankAfter(s, a, bank) == 0.0 <==> if Aims(s, a) then !LeavesScrolled(s, a) else bank == 0.0
  {}

  lemma BankNext(r: Run, n: nat, aim: Aim)
    requires Fits(r) && n < |r.steps| && AllTame(r) && BankKnown(r, n, aim)
    ensures BankKnown(r, n + 1, aim)
  {
    AimNext(r, n, aim);
    BankAfterZero(r.steps[n], r.answers[n], AimAt(r, n, aim).bank);
  }

  lemma BankAtStart(r: Run, aim: Aim)
    requires Fits(r) && aim.bank == 0.0
    ensures BankKnown(r, 0, aim)
  {}

  /** Between steps the bank is at 0 exactly when the last step that aimed the device did not leave it scrolled. */
  lemma {:induction false} BankBetweenSteps(r: Run, n: nat, aim: Aim)
    requires Fits(r) && n <= |r.steps| && AllTame(r) && aim.bank == 0.0
    ensures AimAt(r, n, aim).bank == 0.0 <==> !Scrolled(r, n)
    decreases n
  {
    assert BankKnown(r, n, aim) by {
      if n == 0 {
        BankAtStart(r, aim);
      } else {
        BankBetweenSteps(r, n - 1, aim);
        BankNext(r, n - 1, aim);
      }
    }
  }

  /** The loop writes to channel detail and so raises its dirty flag. */
  ghost predicate Flags(s: Step, a: Answers) {
    !Elsewhere(s, a) && s.target.Some? && IsDetail(s.target.value) && WriteTo(s, s.target.value, a).Some?
  }

  ghost function LastFlag(r: Run, n: nat): (i: Option<nat>)
    requires Fits(r) && n <= |r.steps|
    ensures i.Some? ==> i.value < n && Reached(r, i.value) && Flags(r.steps[i.value], r.answers[i.value])
  {
    if n == 0 then None
    else if Reached(r, n - 1) && Flags(r.steps[n - 1], r.answers[n - 1]) then Some(n - 1) else LastFlag(r, n - 1)
  }

  /** The last step that raised the flag broke off or could not read its button, and so did not lower it again. */
  ghost predicate FlagUp(r: Run, n: nat)
    requires Fits(r) && n <= |r.steps|
  {
    var i := LastFlag(r, n);
    i.Some? && Unfinished(r.steps[i.value], r.steps[i.value].target.value, r.answers[i.value])
  }

  lemma FlagAfter(s: Step, a: Answers, dirty: bool)
    ensures DirtyAfter(s, a, dirty) == if Flags(s, a) then Unfinished(s, s.target.value, a) else dirty
  {}

  lemma FlagNext(r: Run, n: nat)
    requires Fits(r) && n < |r.steps| && (Dirty(r, n) <==> FlagUp(r, n))
    ensures Dirty(r, n + 1) <==> FlagUp(r, n + 1)
  {
    FlagAfter(r.steps[n], r.answers[n], Dirty(r, n));
  }

  lemma {:induction false} DirtyExactly(r: Run, n: nat)
    requires Fits(r) && n <= |r.steps|
    ensures Dirty(r, n) <==> FlagUp(r, n)
    decreases n
  {
    if n > 0 {
      DirtyExactly(r, n - 1);
      FlagNext(r, n - 1);
    }
  }

  /**
   The bank is back at 0 after a run that starts there, however it ends, if and only if the last step that aimed the
   device did not leave page 2 aimed at another offset - by an exception, a padded name or a button that could not be
   read - or the dirty flag is still up for a step that did not finish.
  */
  lemma BankIsRestored(r: Run, aim: Aim)
    requires Fits(r) && AllTame(r) && aim.bank == 0.0
    ensures AimAfter(aim, MacroSends(r)).bank == 0.0 <==> !Scrolled(r, |r.steps|) || FlagUp(r, |r.steps|)
  {
    BankBetweenSteps(r, |r.steps|, aim);
    DirtyExactly(r, |r.steps|);
    HomingHomes(r, aim);
  }

  lemma {:induction false} HomingHomes(r: Run, aim: Aim)
    requires Fits(r)
    ensures var n := |r.steps|;
      AimAfter(aim, MacroSends(r)) ==
        Aim(if Dirty(r, n) then 0.0 else AimAt(r, n, aim).bank, if RowDirty(r) then Inputs else AimAt(r, n, aim).row,
            AimAt(r, n, aim).submix)
  {
    var bank := if Dirty(r, |r.steps|) then BANK_HOME else [];
    var row := if RowDirty(r) then [Msg(SelectRow(1, Inputs), 1.0)] else [];
    var end := AimAt(r, |r.steps|, aim);
    AimAfterBoth(aim, LoopSends(r, |r.steps|), bank + row);
    AimAfterBoth(end, bank, row);
    if bank != [] { AimAfterOne(end, BANK_HOME[0]); }
    if row != [] { AimAfterOne(AimAfter(end, bank), row[0]); }
  }

  /** A step that selects another row than the inputs' did so over the classic protocol. */
  predicate LeavesInputRow(s: Step, a: Answers) { OffInputRow(s) && !a.global }

  /** The row the last step that aimed the device left selected. */
  ghost function RowLeft(r: Run, n: nat): Row
    requires Fits(r) && n <= |r.steps|
  {
    if n == 0 then Inputs
    else if Reached(r, n - 1) then RowAfter(r.steps[n - 1], r.answers[n - 1], RowLeft(r, n - 1))
    else RowLeft(r, n - 1)
  }

  ghost predicate RowKnown(r: Run, n: nat, aim: Aim)
    requires Fits(r) && n <= |r.steps|
  {
    AimAt(r, n, aim).row == RowLeft(r, n)
  }

  lemma RowKnownAtStart(r: Run, aim: Aim)
    requires Fits(r) && aim.row == Inputs
    ensures RowKnown(r, 0, aim)
  {}

  lemma RowKnownNext(r: Run, n: nat, aim: Aim)
    requires Fits(r) && n < |r.steps| && AllTame(r) && RowKnown(r, n, aim)
    ensures RowKnown(r, n + 1, aim)
  {
    AimNext(r, n, aim);
  }

  lemma {:induction false} RowFollows(r: Run, n: nat, aim: Aim)
    requires Fits(r) && n <= |r.steps| && AllTame(r) && aim.row == Inputs
    ensures AimAt(r, n, aim).row == RowLeft(r, n)
    decreases n
  {
    assert AimAt(r, n, aim).row == RowLeft(r, n) by {
      if n == 0 {
        RowKnownAtStart(r, aim);
      } else {
        RowFollows(r, n - 1, aim);
        RowKnownNext(r, n - 1, aim);
      }
      assert RowKnown(r, n, aim);
    }
  }

  /**
   The exact condition: the input row is back if and only if some step of the macro was known at the start to need
   another row, or the last step that aimed the device left the input row selected.
  */
  lemma RowIsRestoredExactly(r: Run, aim: Aim)
    requires Fits(r) && AllTame(r) && aim.row == Inputs
    ensures AimAfter(aim, MacroSends(r)).row == Inputs <==> RowDirty(r) || RowLeft(r, |r.steps|) == Inputs
  {
    HomingHomes(r, aim);
    RowFollows(r, |r.steps|, aim);
  }

  /** The global transport did not go away between the start of the loop and a step that needed the row. */
  ghost predicate RowForeseen(r: Run)
    requires Fits(r)
  {
    r.globalAtStart ==> forall i :: 0 <= i < |r.steps| ==> !LeavesInputRow(r.steps[i], r.answers[i])
  }

  /** The input row is back after every run that starts there, refusals, aborts and exceptions included. */
  lemma RowIsRestored(r: Run, aim: Aim)
    requires Fits(r) && AllTame(r) && aim.row == Inputs && RowForeseen(r)
    ensures AimAfter(aim, MacroSends(r)).row == Inputs
  {
    RowIsRestoredExactly(r, aim);
    if !RowDirty(r) {
      forall i | 0 <= i < |r.steps| ensures !LeavesInputRow(r.steps[i], r.answers[i]) {}
      InputRowStays(r, |r.steps|);
    }
  }

  lemma {:induction false} InputRowStays(r: Run, n: nat)
    requires Fits(r) && n <= |r.steps| && forall i :: 0 <= i < |r.steps| ==> !LeavesInputRow(r.steps[i], r.answers[i])
    ensures RowLeft(r, n) == Inputs
    decreases n
  {
    if n > 0 { InputRowStays(r, n - 1); }
  }

  ghost predicate ComesHome(r: Run)
    requires Fits(r)
  {
    (!Scrolled(r, |r.steps|) || FlagUp(r, |r.steps|)) && (RowDirty(r) || RowLeft(r, |r.steps|) == Inputs)
  }

  /** Home to home, what the `finally` promises: over all runs, with the exact condition. */
  lemma MacroEndsHome(r: Run, aim: Aim)
    requires Fits(r) && AllTame(r) && aim.bank == 0.0 && aim.row == Inputs
    ensures AimAfter(aim, MacroSends(r)) == Aim(0.0, Inputs, AimAfter(aim, MacroSends(r)).submix) <==> ComesHome(r)
  {
    BankIsRestored(r, aim);
    RowIsRestoredExactly(r, aim);
  }

  /** When the last step to aim the device also raised the flag, it was the last to do so. */
  ghost predicate FlagWithAim(r: Run, n: nat)
    requires Fits(r) && n <= |r.steps|
  {
    LastAim(r, n).Some? && Flags(r.steps[LastAim(r, n).value], r.answers[LastAim(r, n).value]) ==>
      LastFlag(r, n) == LastAim(r, n)
  }

  lemma FlagWithAimNext(r: Run, n: nat)
    requires Fits(r) && n < |r.steps| && FlagWithAim(r, n)
    ensures FlagWithAim(r, n + 1)
  {
    if Flags(r.steps[n], r.answers[n]) { FlaggedStepAims(r.steps[n], r.answers[n]); }
  }

  lemma {:induction false} FlagFollowsAim(r: Run, n: nat)
    requires Fits(r) && n <= |r.steps|
    ensures FlagWithAim(r, n)
    decreases n
  {
    if n > 0 {
      FlagFollowsAim(r, n - 1);
      FlagWithAimNext(r, n - 1);
    }
  }

  lemma FlaggedStepAims(s: Step, a: Answers)
    requires Flags(s, a)
    ensures Aims(s, a)
  {}

  /** Surroundings in which no call raises before a step writes, and a needed row is foreseen. */
  ghost predicate Orderly(r: Run) {
    Fits(r) && RowForeseen(r) && forall i :: 0 <= i < |r.steps| ==> !r.answers[i].raises
  }

  /** Some surroundings let the loop go on to the next step. */
  predicate Passable(s: Step) {
    || s.knob || s.target.Some? || s.osc.None?
    || (!Breaks(s) && (s.osc != Some(SetSubmix) || s.value.Param? || (s.value.Number? && Whole(s.value.v))))
  }

  predicate Whole(v: real) { v == v.Floor as real }

  /** Channel detail on a row that can be aimed, under a name the loop does not know it by. */
  predicate PaddedDetail(s: Step) {
    && !s.knob && s.target.Some? && s.target.value.kind.Detail? && s.target.value.padded
    && s.target.value.row != PlaybackRow
  }

  /** Such a step, and nothing in front of it ends every run. */
  predicate Stranding(steps: seq<Step>, i: nat) {
    i < |steps| && PaddedDetail(steps[i]) && forall j :: 0 <= j < i ==> Passable(steps[j])
  }

  lemma NextIsPassable(s: Step, param: real, a: Answers)
    requires StepEnd(s, param, a) == Next
    ensures Passable(s)
  {}

  lemma ScrollsOnlyPadded(r: Run)
    requires Orderly(r) && Scrolled(r, |r.steps|) && !FlagUp(r, |r.steps|)
    ensures Stranding(r.steps, LastAim(r, |r.steps|).value)
  {
    var i := LastAim(r, |r.steps|).value;
    FlagFollowsAim(r, |r.steps|);
    if !r.steps[i].target.value.padded { UnfinishedStepFlags(r.steps[i], r.answers[i]); }
    forall j | 0 <= j < i ensures Passable(r.steps[j]) {
      assert EndOf(r, j) == Next;
      NextIsPassable(r.steps[j], r.param, r.answers[j]);
    }
  }

  lemma UnfinishedStepFlags(s: Step, a: Answers)
    requires LeavesWindow(s, a) && !a.raises && !s.target.value.padded
    ensures Flags(s, a) && Unfinished(s, s.target.value, a)
  {}

  /** Surroundings that let a passable step through at parameter 0: targets go elsewhere, a selection is measured. */
  function Passing(s: Step): Answers {
    var k := if s.value.Number? then s.value.v.Floor else 0;
    Answers(true, Some(Tables(map[], map[Hw(k) := []])), false, false, NoDump, None, false, None, Unknown, [])
  }

  /** Surroundings that know the step's channel at offset 1 and show it there. */
  function Showing(t: Target): Answers {
    var row := map[Hw(1) := [Strip(t.channel)]];
    Answers(false, Some(Tables(row, row)), true, false, Shows(t.channel), None, false, None, Unknown, [])
  }

  lemma PassingPasses(s: Step)
    requires Passable(s)
    ensures StepEnd(s, 0.0, Passing(s)) == Next && !Aims(s, Passing(s)) && !Flags(s, Passing(s))
  {
    assert 0.0 == (0.0).Floor as real;
  }

  lemma ElsewhereIdles(s: Step)
    ensures !Aims(s, Passing(s)) && !Flags(s, Passing(s))
  {}

  lemma ShowingStrands(s: Step)
    requires PaddedDetail(s)
    ensures LeavesScrolled(s, Showing(s.target.value)) && !Flags(s, Showing(s.target.value))
  {
    OneEntryRow(Hw(1), Strip(s.target.value.channel));
  }

  /** The run that shows a stranding step its channel and keeps every other step off the device. */
  function StrandedRun(steps: seq<Step>, i: nat): (r: Run)
    requires i < |steps| && PaddedDetail(steps[i])
    ensures Fits(r)
  {
    Run(steps, 0.0, seq(|steps|, j requires 0 <= j < |steps| =>
      if j == i then Showing(steps[i].target.value) else Passing(steps[j])), false)
  }

  lemma {:induction false} StrandedSoFar(steps: seq<Step>, i: nat, n: nat)
    requires Stranding(steps, i) && n <= |steps|
    ensures var r := StrandedRun(steps, i);
      && (n <= i ==> Reached(r, n)) && LastFlag(r, n).None?
      && LastAim(r, n) == if n <= i then None else Some(i)
    decreases n
  {
    if n > 0 {
      StrandedSoFar(steps, i, n - 1);
      var r := StrandedRun(steps, i);
      if n - 1 < i { PassingPasses(steps[n - 1]); }
      if n - 1 == i { ShowingStrands(steps[i]); } else { ElsewhereIdles(steps[n - 1]); }
      assert n <= i ==> EndOf(r, n - 1) == Next;
    }
  }

  lemma StrandedRunStrands(steps: seq<Step>, i: nat)
    requires Stranding(steps, i)
    ensures Orderly(StrandedRun(steps, i)) && !ComesHome(StrandedRun(steps, i))
  {
    StrandedSoFar(steps, i, |steps|);
    ShowingStrands(steps[i]);
  }

  /** Without an exception, and with its row foreseen, a run comes home unless it strands on a padded name. */
  lemma OrderlyRunComesHome(r: Run)
    requires Orderly(r) && AllTame(r) && forall i :: !Stranding(r.steps, i)
    ensures ComesHome(r)
  {
    var home := Aim(0.0, Inputs, None);
    RowIsRestored(r, home);
    RowIsRestoredExactly(r, home);
    if Scrolled(r, |r.steps|) && !FlagUp(r, |r.steps|) { ScrollsOnlyPadded(r); }
  }

  /**
   What can be told from the steps alone: a macro comes home in all orderly surroundings, whatever its parameter, if and
   only if it holds no padded channel detail behind steps that can all be passed.
  */
  lemma OrderlyMacroEndsHome(steps: seq<Step>)
    requires forall s :: s in steps ==> Tame(s)
    ensures (forall r: Run :: r.steps == steps && Orderly(r) ==> ComesHome(r)) <==> forall i :: !Stranding(steps, i)
  {
    if i :| Stranding(steps, i) {
      StrandedRunStrands(steps, i);
    } else {
      forall r: Run | r.steps == steps && Orderly(r) ensures ComesHome(r) { OrderlyRunComesHome(r); }
    }
  }

  /** When the global transport goes away the row can be lost: it was up at the start, so nothing restores the row. */
  lemma RowLostWhenGlobalGoesAway(s: Step, param: real, a: Answers, aim: Aim)
    requires Tame(s) && !s.knob && LeavesInputRow(s, a) && Aimable(s.target.value, a)
    requires s.target.value.kind.Detail? ==> a.raises || AimConfirmed(s.target.value, a)
    ensures AimAfter(aim, MacroSends(Run([s], param, [a], true))).row != Inputs
  {
    var r := Run([s], param, [a], true);
    HomingHomes(r, aim);
    AimNext(r, 0, aim);
  }

  // ---------------------------------------------------------------------
  // Scrolled banks between steps
  // ---------------------------------------------------------------------

  /** The step resolved and was written, and the device stays scrolled to another offset. */
  ghost predicate Strands(s: Step, a: Answers) {
    && !Elsewhere(s, a) && s.target.Some? && s.target.value.kind.Detail? && Outcome(s.target.value, a).Resolved?
    && !Breaks(s) && !Interrupts(s, s.target.value, a)
    && (s.target.value.padded || Unreadable(s, s.target.value, a))
    && Channel(s.target.value, a).Some? && Channel(s.target.value, a).value.n != 0
  }

  /**
   A step that is reached starts on bank 0, where raw page-1 writes are absolute, if and only if the last step before it
   that aimed the device was no channel detail at another offset with a padded name or an unreadable button.
  */
  lemma StepsStartOnBankZero(r: Run, n: nat, aim: Aim)
    requires Fits(r) && n <= |r.steps| && AllTame(r) && Reached(r, n) && aim.bank == 0.0
    ensures AimAt(r, n, aim).bank == 0.0 <==>
      LastAim(r, n).None? || !Strands(r.steps[LastAim(r, n).value], r.answers[LastAim(r, n).value])
  {
    BankBetweenSteps(r, n, aim);
    if LastAim(r, n).Some? {
      var i := LastAim(r, n).value;
      assert EndOf(r, i) == Next;
      ScrolledStepStrands(r.steps[i], r.param, r.answers[i]);
    }
  }

  lemma ScrolledStepStrands(s: Step, param: real, a: Answers)
    requires Aims(s, a) && StepEnd(s, param, a) == Next
    ensures LeavesScrolled(s, a) <==> Strands(s, a)
  {}

  /** One that strands the device scrolls the next step: its raw write lands `offset` strips away. */
  lemma {:induction false} UnreadableButtonScrollsTheNextStep(s: Step, next: Step, param: real, a: Answers,
                                                              b: Answers, aim: Aim)
    requires Tame(s) && Tame(next) && Strands(s, a)
    ensures var r := Run([s, next], param, [a, b], false);
      Reached(r, 1) && AimAt(r, 1, aim).bank == Channel(s.target.value, a).value.n as real != 0.0
  {
    var r := Run([s, next], param, [a, b], false);
    StrandedEnd(s, param, a);
    RanNothing(r, []);
    LoopNext(r, 0, []);
    AimNext(r, 0, aim);
  }

  lemma StrandedEnd(s: Step, param: real, a: Answers)
    requires Strands(s, a)
    ensures StepEnd(s, param, a) == Next && LeavesWindow(s, a)
  {}

  /** A name that is its own spelling, and the table and answers that know it at one offset and show it there. */
  function Known(name: string, k: int): Answers {
    Answers(false, Some(Tables(map[Hw(k) := [name]], map[])), true, false, Shows(name), None, false, None, Unknown,
            [])
  }

  function PaddedStep(name: string, path: string, v: real): Step {
    Step(None, Some(Target(Detail(path, false), true, InputRow, name, "")), false, NoOperation, Number(v))
  }

  lemma KnownChannel(name: string, k: int, path: string, v: real)
    requires Strip(name) == name
    ensures var t := PaddedStep(name, path, v).target.value;
      Channel(t, Known(name, k)) == Some(Hw(k)) && Outcome(t, Known(name, k)) == Resolved(Addr.Param(path))
  {
    OneEntryRow(Hw(k), name);
  }

  /**
   The padded case at a concrete input: one ordinary step on a channel at another offset, stored with a space behind its
   parameter's name, resolves, is written and ends the macro on that offset without any exception.
  */
  lemma {:induction false} PaddedNameStrandsTheBank(name: string, k: int, path: string, v: real, param: real,
                                                    submix: Option<real>)
    requires Strip(name) == name && k != 0
    ensures var r := Run([PaddedStep(name, path, v)], param, [Known(name, k)], false);
      && EndOf(r, 0) == Next && Msg(Addr.Param(path), v) in MacroSends(r)
      && AimAfter(Aim(0.0, Inputs, submix), MacroSends(r)) == Aim(k as real, Inputs, submix)
  {
    var s, a := PaddedStep(name, path, v), Known(name, k);
    var first, write := AimSends(s.target.value, a), Msg(Addr.Param(path), v);
    KnownChannel(name, k, path, v);
    PaddedSends(s, s.target.value, param, a, v);
    LoneStepSends(s, param, a);
    WrittenUnderAim(s.target.value, a, Aim(0.0, Inputs, submix), write);
    assert (first + [write])[|first|] == write;
  }

  lemma {:induction false} WrittenUnderAim(t: Target, a: Answers, aim: Aim, write: Msg)
    requires Plain(write.addr)
    ensures AimAfter(aim, AimSends(t, a) + [write]) == AimFor(t, a, aim)
  {
    ResolutionAims(t, a, aim);
    AimAfterBoth(aim, AimSends(t, a), [write]);
    AimAfterOne(AimFor(t, a, aim), write);
  }

  /** A macro of one step that ends well, on the input row and with the flag down, sends what the step does. */
  lemma {:induction false} LoneStepSends(s: Step, param: real, a: Answers)
    requires !OffInputRow(s) && !DirtyAfter(s, a, false)
    ensures var r := Run([s], param, [a], false);
      EndOf(r, 0) == StepEnd(s, param, a) && MacroSends(r) == StepSends(s, param, a)
  {
    var r, sends := Run([s], param, [a], false), StepSends(s, param, a);
    RanNothing(r, []);
    LoopNext(r, 0, []);
    assert [] + LoopSends(r, 1) == LoopSends(r, 1) && [] + [] + sends == sends;
    assert !Dirty(r, 1) && !RowDirty(r);
    assert LoopSends(r, 1) + [] == sends;
  }

  /** A padded name is written as a plain value: no button is read first, and no bank is brought back. */
  lemma PaddedSends(s: Step, t: Target, param: real, a: Answers, v: real)
    requires s.target == Some(t) && t.padded && !Elsewhere(s, a) && Outcome(t, a).Resolved?
    requires !Modulates(s) && !Breaks(s) && ValueOf(s.value, param) == Some(v)
    ensures StepSends(s, param, a) == AimSends(t, a) + [Msg(Outcome(t, a).addr, v)]
  {
    assert [Msg(Outcome(t, a).addr, v)] + [] == [Msg(Outcome(t, a).addr, v)];
  }

  /**
   So a button with a padded name is set only by chance: written 1 it flips whichever way it stood, written something
   else it stays, and it ends as the step wants it exactly when that happens to be right.
  */
  lemma {:induction false} PaddedButtonIsSetByChance(s: Step, t: Target, param: real, a: Answers, v: real, on: bool)
    requires s.target == Some(t) && t.padded && !Elsewhere(s, a) && Outcome(t, a).Resolved?
    requires !Modulates(s) && !Breaks(s) && ValueOf(s.value, param) == Some(v)
    ensures |AimSends(t, a)| <= |StepSends(s, param, a)|
    ensures var writes := StepSends(s, param, a)[|AimSends(t, a)|..];
      Toggled(on, writes) == Wants(v) <==> if v == 1.0 then !on else on == Wants(v)
  {
    PaddedSends(s, t, param, a, v);
    var write := [Msg(Outcome(t, a).addr, v)];
    assert (AimSends(t, a) + write)[|AimSends(t, a)|..] == write && write[..0] == [];
  }

  // ---------------------------------------------------------------------
  // What a step writes
  // ---------------------------------------------------------------------

  /** The step's own number, or the trigger's parameter in its place. */
  predicate Carries(s: Step, param: real, v: real) { s.value == Number(v) || (s.value.Param? && v == param) }

  /** The target resolved and is written over the classic protocol. */
  ghost predicate WritesTo(s: Step, t: Target, a: Answers, addr: Addr) {
    s.target == Some(t) && !Elsewhere(s, a) && !Breaks(s) && Outcome(t, a) == Resolved(addr)
  }

  /** Channel detail that the loop knows for such brings the bank home behind its write. */
  function HomeBehind(t: Target): seq<Msg> {
    if t.kind.Detail? && !t.padded then [Msg(BankStart, 0.0)] else []
  }

  /** A static step on anything but a toggling button writes its value once, as it is. */
  lemma StaticStepWritesItsValue(s: Step, t: Target, param: real, a: Answers, addr: Addr, v: real)
    requires WritesTo(s, t, a, addr) && Carries(s, param, v) && (s.operation.NoOperation? || s.value.Number?)
    requires t.padded || !(t.kind.Fx? || t.kind.Detail?) || !t.kind.button
    ensures StepSends(s, param, a) == AimSends(t, a) + [Msg(addr, v)] + HomeBehind(t)
  {
    assert WriteSends(s, t, addr, param, a) == [Msg(addr, v)];
    Regroup(AimSends(t, a), [Msg(addr, v)], HomeBehind(t));
  }

  /** A modulating one writes the operation's values in turn. */
  lemma ModulatedStepWritesItsValues(s: Step, t: Target, param: real, a: Answers, addr: Addr)
    requires WritesTo(s, t, a, addr) && s.operation.Proper? && s.value.Param?
    requires t.padded || !(t.kind.Fx? || t.kind.Detail?) || !t.kind.button
    ensures StepSends(s, param, a)
         == AimSends(t, a) + seq(|a.emitted|, i requires 0 <= i < |a.emitted| => Msg(addr, a.emitted[i]))
            + HomeBehind(t)
  {
    var values := seq(|a.emitted|, i requires 0 <= i < |a.emitted| => Msg(addr, a.emitted[i]));
    assert WriteSends(s, t, addr, param, a) == values;
    Regroup(AimSends(t, a), values, HomeBehind(t));
  }

  /** What a step sends once its button is read. */
  ghost function Presses(s: Step, t: Target, param: real, a: Answers): seq<Msg>
    requires |AimSends(t, a)| + |ReadSends(t, a)| <= |StepSends(s, param, a)|
  {
    StepSends(s, param, a)[|AimSends(t, a)| + |ReadSends(t, a)|..]
  }

  lemma BehindTwo(all: seq<Msg>, a: seq<Msg>, b: seq<Msg>, c: seq<Msg>)
    requires all == a + (b + c)
    ensures |a| + |b| <= |all| && all[|a| + |b|..] == c
  {}

  lemma {:induction false} PressesBehind(s: Step, t: Target, param: real, a: Answers, addr: Addr, presses: seq<Msg>)
    requires WritesTo(s, t, a, addr) && IsButton(t) && a.button.Stands?
    requires WriteSends(s, t, addr, param, a) == ReadSends(t, a) + presses
    ensures |AimSends(t, a)| + |ReadSends(t, a)| <= |StepSends(s, param, a)|
    ensures Presses(s, t, param, a) == presses + HomeBehind(t)
  {
    var sends := StepSends(s, param, a);
    assert sends == AimSends(t, a) + (ReadSends(t, a) + presses + HomeBehind(t));
    Regroup(ReadSends(t, a), presses, HomeBehind(t));
    BehindTwo(sends, AimSends(t, a), ReadSends(t, a), presses + HomeBehind(t));
  }

  lemma {:induction false} HomeIsNoPress(on: bool, presses: seq<Msg>, t: Target)
    ensures Toggled(on, presses + HomeBehind(t)) == Toggled(on, presses)
  {
    TogglesJoin(on, presses, HomeBehind(t));
    if HomeBehind(t) != [] { assert HomeBehind(t)[..0] == []; }
  }

  /** A toggling button that can be read ends on for a value of 0.5 and up and off below, whichever way it stood. */
  lemma {:induction false} StaticButtonEndsAsStored(s: Step, t: Target, param: real, a: Answers, addr: Addr, v: real,
                                                    on: bool)
    requires WritesTo(s, t, a, addr) && Carries(s, param, v) && (s.operation.NoOperation? || s.value.Number?)
    requires (t.kind.Fx? || t.kind.Detail?) && t.kind.button && !t.padded && a.button == Stands(on)
    ensures |AimSends(t, a)| + |ReadSends(t, a)| <= |StepSends(s, param, a)|
    ensures Toggled(on, Presses(s, t, param, a)) <==> v >= 0.5
  {
    var presses := PressSends(addr, Some(on), v >= 0.5);
    PressesBehind(s, t, param, a, addr, presses);
    HomeIsNoPress(on, presses, t);
    SetButtonSets(addr, on, v >= 0.5);
  }

  /** Under modulation it ends as the operation's last value says, or as it stood when there was none. */
  lemma {:induction false} ModulatedButtonEndsAsEmitted(s: Step, t: Target, param: real, a: Answers, addr: Addr,
                                                        on: bool)
    requires WritesTo(s, t, a, addr) && s.operation.Proper? && s.value.Param?
    requires (t.kind.Fx? || t.kind.Detail?) && t.kind.button && !t.padded && a.button == Stands(on)
    ensures |AimSends(t, a)| + |ReadSends(t, a)| <= |StepSends(s, param, a)|
    ensures Toggled(on, Presses(s, t, param, a)) <==>
      if a.emitted == [] then on else a.emitted[|a.emitted| - 1] >= 0.5
  {
    var presses := EdgePresses(addr, on, a.emitted);
    PressesBehind(s, t, param, a, addr, presses);
    HomeIsNoPress(on, presses, t);
    ButtonFollowsTheStream(addr, on, a.emitted);
  }

  /** A button that cannot be read is not pressed, whatever the step wants. */
  lemma UnreadButtonIsLeftAlone(s: Step, t: Target, param: real, a: Answers, addr: Addr)
    requires WritesTo(s, t, a, addr) && !a.button.Stands?
    requires (t.kind.Fx? || t.kind.Detail?) && t.kind.button && !t.padded
    ensures forall i :: |AimSends(t, a)| + |ReadSends(t, a)| <= i < |StepSends(s, param, a)| ==>
      StepSends(s, param, a)[i] == Msg(BankStart, 0.0)
  {}

  /** Without feedback a target's stored address takes the place of the live one. */
  lemma StoredAddressIsTheFallback(s: Step, t: Target, param: real, a: Answers, addr: Addr, v: real)
    requires s.target == Some(t) && !Elsewhere(s, a) && Outcome(t, a) == NoFeedback && s.osc == Some(addr)
    requires Carries(s, param, v) && (s.operation.NoOperation? || s.value.Number?)
    ensures StepSends(s, param, a) == AimSends(t, a) + [Msg(addr, v)]
  {
    assert WriteSends(s, t, addr, param, a) == [Msg(addr, v)];
    assert [Msg(addr, v)] + [] == [Msg(addr, v)];
  }

  /** A refused or unaimed target is not written at all. */
  lemma RefusedTargetsAreSkipped(s: Step, t: Target, param: real, a: Answers)
    requires s.target == Some(t) && !Elsewhere(s, a) && (Outcome(t, a) == NotInBank || Outcome(t, a) == Raised)
    ensures StepSends(s, param, a) == AimSends(t, a)
    ensures StepEnd(s, param, a) == if Outcome(t, a) == Raised then Crash else Next
  {
    assert AimSends(t, a) + [] == AimSends(t, a);
  }

  /** Knob steps, and targets while the global transport is up, send nothing on the classic protocol. */
  lemma ElsewhereSendsNothing(s: Step, param: real, a: Answers)
    requires s.knob || (s.target.Some? && a.global)
    ensures StepSends(s, param, a) == [] && StepEnd(s, param, a) == if a.raises then Crash else Next
  {}

  /** A macro whose targets are all on the input row, or any under the global transport, restores no row. */
  lemma InputRowMacrosRestoreNoRow(r: Run)
    requires Fits(r)
    requires r.globalAtStart || forall s :: s in r.steps && s.target.Some? ==>
      s.target.value.row != PlaybackRow && s.target.value.row != OutputRow
    ensures MacroSends(r) == LoopSends(r, |r.steps|) + (if Dirty(r, |r.steps|) then [Msg(BankStart, 0.0)] else [])
  {
    assert !RowDirty(r);
    assert Homing(Dirty(r, |r.steps|), false) == if Dirty(r, |r.steps|) then [Msg(BankStart, 0.0)] else [];
  }

  /** A raw step writes its value, or its operation's values, to the stored address. */
  lemma RawStepWrites(s: Step, param: real, a: Answers, addr: Addr, v: real)
    requires s.target.None? && !s.knob && s.osc == Some(addr) && addr != SetSubmix && !Breaks(s)
    ensures Carries(s, param, v) && (s.operation.NoOperation? || s.value.Number?) ==>
      StepSends(s, param, a) == [Msg(addr, v)]
    ensures s.operation.Proper? && s.value.Param? ==>
      StepSends(s, param, a) == seq(|a.emitted|, i requires 0 <= i < |a.emitted| => Msg(addr, a.emitted[i]))
    ensures s.value.NotANumber? ==> StepSends(s, param, a) == []
  {}

  // ---------------------------------------------------------------------
  // The submix guard
  // ---------------------------------------------------------------------

  /** A target whose stored address is never written: its resolution is not one that falls back without feedback. */
  predicate NeverFallsBack(t: Target) { t.kind.Fx? || t.kind.Detail? }

  /**
   The steps the guard protects: those that store no submix selection, knob steps, raw selections of a single value, and
   targets whose stored selection is never written, holds no number or breaks off before it.
  */
  predicate Guarded(s: Step) {
    || s.osc != Some(SetSubmix) || s.knob
    || (s.target.None? && !Modulates(s))
    || (s.target.Some? && (NeverFallsBack(s.target.value) || s.value.NotANumber? || Breaks(s)))
  }

  lemma PlainWrites(s: Step, t: Target, addr: Addr, param: real, a: Answers)
    requires addr != SetSubmix
    ensures SubmixesMeasured(WriteSends(s, t, addr, param, a), a.table)
  {
    if IsButton(t) && Modulates(s) && ButtonSeen(a).Some? {
      PressAddresses(addr, ButtonSeen(a).value, a.emitted);
    }
  }

  lemma {:induction false} PressAddresses(addr: Addr, on: bool, values: seq<real>)
    ensures forall i :: 0 <= i < |EdgePresses(addr, on, values)| ==> EdgePresses(addr, on, values)[i].addr == addr
    decreases |values|
  {
    if values != [] { PressAddresses(addr, on, values[..|values| - 1]); }
  }

  lemma TargetSubmixesAreMeasured(s: Step, t: Target, param: real, a: Answers)
    requires Guarded(s) && s.target == Some(t) && !s.knob
    ensures SubmixesMeasured(TargetSends(s, t, param, a), a.table)
  {
    ResolverSubmixesAreMeasured(t, a);
    var addr := WriteTo(s, t, a);
    if addr.Some? {
      if addr.value != SetSubmix {
        PlainWrites(s, t, addr.value, param, a);
      } else {
        assert Breaks(s) || (s.value.NotANumber? && !Modulates(s));
      }
    }
  }

  lemma StepSubmixesAreMeasured(s: Step, param: real, a: Answers)
    requires Guarded(s)
    ensures SubmixesMeasured(StepSends(s, param, a), a.table)
  {
    if !Elsewhere(s, a) && s.target.Some? { TargetSubmixesAreMeasured(s, s.target.value, param, a); }
  }

  /** Surroundings in which `/setSubmix` at an output is known for every submix name, and no listener runs. */
  function Deaf(submix: string, output: int, emitted: seq<real>): Answers {
    Answers(false, Some(Tables(map[], map[Hw(output) := [Strip(submix)]])), false, false, NoDump, None, false, None,
            Unknown, emitted)
  }

  /** The guard does not see what an operation emits: past an allowed parameter, any value goes out. */
  lemma ModulatedSelectionIsUnguarded(s: Step)
    requires s.osc == Some(SetSubmix) && s.target.None? && !s.knob && Modulates(s)
    ensures !SubmixesMeasured(StepSends(s, 0.0, Deaf("", 0, [0.5])), Deaf("", 0, [0.5]).table)
  {
    var a := Deaf("", 0, [0.5]);
    assert Allowed(s, 0.0, a);
    assert StepSends(s, 0.0, a)[0] == Msg(SetSubmix, 0.5);
  }

  lemma DeafFallsBack(t: Target, output: int, emitted: seq<real>)
    requires !NeverFallsBack(t)
    ensures Outcome(t, Deaf(t.submix, output, emitted)) == NoFeedback
  {
    if t.kind.Level? {
      OneEntryRow(Hw(output), Strip(t.submix));
    }
  }

  /** Nor does it see a target's stored address, which is written without feedback. */
  lemma StoredSelectionIsUnguarded(s: Step, t: Target) returns (param: real, a: Answers)
    requires s.osc == Some(SetSubmix) && s.target == Some(t) && !s.knob && !NeverFallsBack(t) && !s.value.NotANumber?
    requires !Breaks(s)
    ensures !SubmixesMeasured(StepSends(s, param, a), a.table)
  {
    param := 0.5;
    a := Deaf(t.submix, if s.value.Number? then s.value.v.Floor + 1 else 0, [0.5]);
    DeafFallsBack(t, if s.value.Number? then s.value.v.Floor + 1 else 0, [0.5]);
    var v := if s.value.Number? then s.value.v else 0.5;
    var sends := StepSends(s, param, a);
    assert WriteSends(s, t, SetSubmix, param, a) == [Msg(SetSubmix, v)];
    assert sends == AimSends(t, a) + ([Msg(SetSubmix, v)] + []);
    assert sends[|AimSends(t, a)|] == Msg(SetSubmix, v) && !Measured(Msg(SetSubmix, v), a.table);
  }

  /** In all surroundings and for every parameter a step selects measured outputs only, exactly when it is guarded. */
  lemma GuardedExactly(s: Step)
    ensures (forall param, a :: SubmixesMeasured(StepSends(s, param, a), a.table)) <==> Guarded(s)
  {
    if Guarded(s) {
      forall param, a ensures SubmixesMeasured(StepSends(s, param, a), a.table) {
        StepSubmixesAreMeasured(s, param, a);
      }
    } else if s.target.None? {
      ModulatedSelectionIsUnguarded(s);
    } else {
      var param, a := StoredSelectionIsUnguarded(s, s.target.value);
    }
  }

  /**
   Over a whole run every submix selection, raw or from a target, carries the number of an output measured in the table
   of that moment; and the restores add none.
  */
  lemma SubmixesStayMeasured(r: Run, i: nat)
    requires Fits(r) && (forall s :: s in r.steps ==> Guarded(s)) && i < |r.steps|
    ensures SubmixesMeasured(Sends(r, i), r.answers[i].table)
    ensures NoSubmix(Homing(Dirty(r, |r.steps|), RowDirty(r)))
  {
    StepSubmixesAreMeasured(r.steps[i], r.param, r.answers[i]);
  }

  /** After a refused raw submix selection nothing but the restores goes out. */
  lemma RefusalSilencesTheRest(r: Run, i: nat)
    requires Fits(r) && i < |r.steps| && Refused(r.steps[i], r.param, r.answers[i])
    ensures MacroSends(r) == LoopSends(r, i) + Homing(Dirty(r, i), RowDirty(r))
  {
    StoppedRunStaysStopped(r, i, |r.steps|);
    assert Sends(r, i) == [] && LoopSends(r, i) + [] == LoopSends(r, i);
  }

  /** `k` is a measured output and the step's value is that number. */
  predicate Names(s: Step, param: real, a: Answers, k: Hw) {
    ValueOf(s.value, param) == Some(k.n as real) && a.table.Some? && k in a.table.value.outputs
  }

  /**
   A raw selection that is reached decides the run: with the number of a measured output for its value it sends exactly
   that and the run goes on; with any other value it sends nothing, and neither does any step behind it.
  */
  lemma RawSelectionDecidesTheRun(r: Run, i: nat)
    requires Fits(r) && i < |r.steps| && Reached(r, i)
    requires r.steps[i].osc == Some(SetSubmix) && r.steps[i].target.None? && !r.steps[i].knob
    requires !Modulates(r.steps[i]) && !Breaks(r.steps[i])
    ensures forall k :: Names(r.steps[i], r.param, r.answers[i], k) ==>
      Reached(r, i + 1) && LoopSends(r, i + 1) == LoopSends(r, i) + [Msg(SetSubmix, k.n as real)]
    ensures (forall k :: !Names(r.steps[i], r.param, r.answers[i], k)) ==>
      !Reached(r, i + 1) && MacroSends(r) == LoopSends(r, i) + Homing(Dirty(r, i), RowDirty(r))
  {
    var s, a := r.steps[i], r.answers[i];
    if k :| Names(s, r.param, a, k) {
      NamedIsAllowed(s, r.param, a, k);
      LoopNext(r, i, []);
      assert forall j :: Names(s, r.param, a, j) ==> j.n as real == k.n as real;
      assert [] + LoopSends(r, i) == LoopSends(r, i) && [] + LoopSends(r, i + 1) == LoopSends(r, i + 1);
    } else {
      if Allowed(s, r.param, a) { assert Names(s, r.param, a, Hw(ValueOf(s.value, r.param).value.Floor)); }
      RefusalSilencesTheRest(r, i);
      assert EndOf(r, i) == Abort;
    }
  }

  lemma NamedIsAllowed(s: Step, param: real, a: Answers, k: Hw)
    requires Names(s, param, a, k)
    ensures Allowed(s, param, a)
  {
    assert (k.n as real).Floor == k.n;
    assert Hw(k.n) == k;
  }
}
