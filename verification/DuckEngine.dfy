/**
 The sidechain ducker: a key channel's level drives gain reduction on a knob's send.  The engine writes `base - gr` to
 the device and must not mistake echoes of its own writes for moves of the fader.
*/
module DuckEngine {
  import opened FaderLaw
  import opened Reals
  import opened Wrappers

  const FLOOR_DB := -65.0
  const EXTERNAL_EPS_DB := 0.75
  const WRITE_EPS_DB := 0.05
  const RESTORE_MIN_DB := 0.1
  const MAX_DEPTH := 40.0

  /**
   One control tick.  `attack` and `release` are the smoothing coefficients of this tick, from 0 up to but excluding 1;
   no `key` means no meter data, no `dev` an unknown device level.
  */
  datatype Input = Input(depth: real, threshold: real, attack: real, release: real, key: Option<real>,
                         dev: Option<real>)

  predicate Smooth(i: Input) { 0.0 <= i.attack < 1.0 && 0.0 <= i.release < 1.0 }

  predicate Silent(i: Input) { i.key.Some? ==> i.key.value <= i.threshold }

  /** A macro's runtime record; the entries start out absent, which for the two levels of reduction means 0. */
  datatype Rt = Rt(gr: real, base: Option<real>, written: Option<real>, applied: real, devSeen: Option<real>)

  const FRESH := Rt(0.0, None, None, 0.0, None)

  // ---------------------------------------------------------------------
  // Specification of a tick
  // ---------------------------------------------------------------------

  function Target(i: Input): real {
    if Silent(i) then 0.0 else Max(0.0, Min(MAX_DEPTH, i.depth))
  }

  function Part(d: real, alpha: real): real { d * alpha }

  function NextGr(gr: real, i: Input): real {
    var target := Target(i);
    var g := gr + Part(target - gr, if target > gr then i.attack else i.release);
    if target == 0.0 && g < 0.005 then 0.0 else g
  }

  /** A report that is no news: absent, the one seen last, or within reach of our own last write. */
  predicate Ignored(rt: Rt, dev: Option<real>) {
    || dev.None?
    || dev == rt.devSeen
    || (rt.written.Some? && Abs(dev.value - rt.written.value) <= EXTERNAL_EPS_DB)
  }

  function Heard(rt: Rt, dev: Option<real>): Rt {
    rt.(devSeen := if dev.Some? then dev else rt.devSeen, base := if Ignored(rt, dev) then rt.base else dev)
  }

  function Level(base: real, gr: real): real { Max(FLOOR_DB, base - gr) }

  /** The state before the output is decided: a device whose level is unknown to us is taken to sit at its base. */
  function Anchored(rt: Rt): Rt {
    if rt.base.None? then rt
    else if rt.base.value <= FLOOR_DB then rt.(written := None, applied := 0.0)
    else if rt.written.None? then rt.(written := rt.base, applied := 0.0)
    else rt
  }

  predicate Due(rt: Rt) {
    && rt.base.Some? && rt.base.value > FLOOR_DB && rt.written.Some?
    && Abs(Level(rt.base.value, rt.gr) - rt.written.value) > WRITE_EPS_DB
  }

  function Ready(rt: Rt, i: Input): Rt { Anchored(Heard(rt.(gr := NextGr(rt.gr, i)), i.dev)) }

  function Output(rt: Rt, i: Input): Option<real> {
    var r := Ready(rt, i);
    if Due(r) then Some(Level(r.base.value, r.gr)) else None
  }

  function Ticked(rt: Rt, i: Input): Rt {
    var r := Ready(rt, i);
    if Due(r) then r.(written := Output(rt, i), applied := r.gr) else r
  }

  function Seeded(rt: Rt, level: real): Rt { rt.(base := Some(level), written := Some(level), applied := 0.0) }

  // ---------------------------------------------------------------------
  // The engine
  // ---------------------------------------------------------------------

  class Duck {
    var gr: real
    var base: Option<real>
    var written: Option<real>
    var applied: real
    var devSeen: Option<real>

    ghost function State(): Rt
      reads this
    {
      Rt(gr, base, written, applied, devSeen)
    }

    constructor ()
      ensures State() == FRESH
    {
      gr, base, written, applied, devSeen := 0.0, None, None, 0.0, None;
    }

    /** The envelope follower at the head of `duck_tick`. */
    method MoveEnvelope(i: Input)
      modifies this`gr
      ensures gr == NextGr(old(gr), i)
    {
      var depth := Max(0.0, Min(MAX_DEPTH, i.depth));
      var over := i.key.Some? && i.key.value > i.threshold;
      var target := if over then depth else 0.0;
      var alpha := if target > gr then i.attack else i.release;
      gr := gr + Part(target - gr, alpha);
      if target == 0.0 && gr < 0.005 { gr := 0.0; }
    }

    /** `duck_tick` */
    method Tick(i: Input) returns (out: Option<real>)
      modifies this
      ensures State() == Ticked(old(State()), i) && out == Output(old(State()), i)
    {
      MoveEnvelope(i);
      if i.dev.Some? && i.dev != devSeen {
        devSeen := i.dev;
        if written.None? || Abs(i.dev.value - written.value) > EXTERNAL_EPS_DB {
          base := i.dev;
        }
      }
      if base.None? { return None; }
      if base.value <= FLOOR_DB {
        written, applied := None, 0.0;
        return None;
      }
      if written.None? {
        written, applied := base, 0.0;
      }
      var level := Max(FLOOR_DB, base.value - gr);
      if Abs(level - written.value) <= WRITE_EPS_DB { return None; }
      written, applied := Some(level), gr;
      return Some(level);
    }

    /** `DuckSupervisor.seed`: the bridge itself wrote the knob's target. */
    method Seed(level: real)
      modifies this
      ensures State() == Seeded(old(State()), level)
    {
      base, written, applied := Some(level), Some(level), 0.0;
    }

    /**
     `DuckSupervisor._restore`: nothing is sent when little is applied, when the macro has lost its step, when the
     global protocol is down, or when the target does not resolve.
    */
    method Restore(sqrt: real -> real, hasStep: bool, globalUp: bool, resolves: bool) returns (send: Option<real>)
      requires applied > RESTORE_MIN_DB ==> base.Some?
      ensures send == RestoreSend(sqrt, State(), hasStep && globalUp && resolves)
    {
      if applied <= RESTORE_MIN_DB { return None; }
      if !hasStep || !globalUp { return None; }
      if !resolves { return None; }
      return Some(FaderLin(sqrt, base.value));
    }
  }

  function RestoreSend(sqrt: real -> real, rt: Rt, reachable: bool): Option<real>
    requires rt.applied > RESTORE_MIN_DB ==> rt.base.Some?
  {
    if rt.applied <= RESTORE_MIN_DB || !reachable then None else Some(FaderLin(sqrt, rt.base.value))
  }

  // ---------------------------------------------------------------------
  // Runs
  // ---------------------------------------------------------------------

  datatype Event = Tick(input: Input) | Seed(level: real)

  function After(rt: Rt, e: Event): Rt {
    match e
    case Tick(i) => Ticked(rt, i)
    case Seed(level) => Seeded(rt, level)
  }

  function Run(rt: Rt, es: seq<Event>): Rt
    decreases |es|
  {
    if es == [] then rt else After(Run(rt, es[..|es| - 1]), es[|es| - 1])
  }

  /** Nobody moves the fader: a tick without news, or a knob move above the floor. */
  predicate Undisturbed(rt: Rt, e: Event) {
    match e
    case Tick(i) => Smooth(i) && Ignored(rt, i.dev)
    case Seed(level) => level > FLOOR_DB
  }

  ghost predicate Calm(rt: Rt, es: seq<Event>) {
    forall k :: 0 <= k < |es| ==> Undisturbed(Run(rt, es[..k]), es[k])
  }

  /** The last knob move of a run, or the base it started from. */
  function LastSeed(base: real, es: seq<Event>): real
    decreases |es|
  {
    if es == [] then base
    else match es[|es| - 1]
      case Seed(level) => level
      case Tick(_) => LastSeed(base, es[..|es| - 1])
  }

  predicate Bounded(rt: Rt) { 0.0 <= rt.gr <= MAX_DEPTH && 0.0 <= rt.applied <= MAX_DEPTH }

  /** The last write on record is exactly the base less the reduction on record. */
  predicate Settled(rt: Rt) {
    && Bounded(rt) && rt.base.Some? && rt.base.value > FLOOR_DB
    && rt.written == Some(Level(rt.base.value, rt.applied))
  }

  lemma Fraction(d: real, a: real)
    requires 0.0 <= d && 0.0 <= a < 1.0
    ensures 0.0 <= d * a <= d
  {
    assert 0.0 <= d * (1.0 - a);
  }

  lemma PartOf(d: real, a: real)
    requires 0.0 <= d && 0.0 <= a < 1.0
    ensures 0.0 <= Part(d, a) <= d
  {
    Fraction(d, a);
  }

  lemma PartOpposite(d: real, a: real)
    ensures Part(-d, a) == -Part(d, a)
  {}

  /** Smoothing moves toward the target and not past it. */
  lemma Blend(g: real, t: real, a: real)
    requires 0.0 <= a < 1.0
    ensures if t <= g then t <= g + Part(t - g, a) <= g else g <= g + Part(t - g, a) <= t
  {
    if t <= g {
      PartOf(g - t, a);
      PartOpposite(g - t, a);
    } else {
      PartOf(t - g, a);
    }
  }

  lemma GrStaysBounded(gr: real, i: Input)
    requires 0.0 <= gr <= MAX_DEPTH && Smooth(i)
    ensures 0.0 <= NextGr(gr, i) <= MAX_DEPTH
  {
    var t := Target(i);
    Blend(gr, t, if t > gr then i.attack else i.release);
  }

  /**
   The reduction stays within 0 and 40 dB in every run, disturbed or not, and a reduction on record has a base to go
   back to, so a restore always knows where.
  */
  lemma {:induction false} ReductionIsBounded(es: seq<Event>)
    requires forall k :: 0 <= k < |es| && es[k].Tick? ==> Smooth(es[k].input)
    ensures Bounded(Run(FRESH, es)) && (Run(FRESH, es).applied > 0.0 ==> Run(FRESH, es).base.Some?)
    decreases |es|
  {
    if es != [] {
      ReductionIsBounded(es[..|es| - 1]);
      var e := es[|es| - 1];
      if e.Tick? { GrStaysBounded(Run(FRESH, es[..|es| - 1]).gr, e.input); }
    }
  }

  lemma CalmStep(rt: Rt, e: Event)
    requires Settled(rt) && Undisturbed(rt, e)
    ensures Settled(After(rt, e))
    ensures After(rt, e).base == if e.Seed? then Some(e.level) else rt.base
  {
    if e.Tick? { GrStaysBounded(rt.gr, e.input); }
  }

  /** No ratchet: however long nobody but the knob moves the send, the base is the knob's last level. */
  lemma {:induction false} BaseMovesOnlyBySeeds(rt: Rt, es: seq<Event>)
    requires Settled(rt) && Calm(rt, es)
    ensures Settled(Run(rt, es)) && Run(rt, es).base == Some(LastSeed(rt.base.value, es))
    decreases |es|
  {
    if es != [] {
      var init := es[..|es| - 1];
      forall k | 0 <= k < |init| ensures Undisturbed(Run(rt, init[..k]), init[k]) {
        assert init[..k] == es[..k];
      }
      BaseMovesOnlyBySeeds(rt, init);
      CalmStep(Run(rt, init), es[|es| - 1]);
    }
  }

  /** Every write of such a run lies between the floor or 40 dB down and the base of the moment. */
  lemma {:induction false} WritesStayBelowTheBase(rt: Rt, es: seq<Event>, i: Input)
    requires Settled(rt) && Calm(rt, es) && Undisturbed(Run(rt, es), Tick(i))
    requires Output(Run(rt, es), i).Some?
    ensures var base := LastSeed(rt.base.value, es);
      Max(FLOOR_DB, base - MAX_DEPTH) <= Output(Run(rt, es), i).value <= base
  {
    BaseMovesOnlyBySeeds(rt, es);
    GrStaysBounded(Run(rt, es).gr, i);
  }

  /** The first report of a fresh macro settles it at the reported level, unless that is at or below the floor. */
  lemma FirstReportSettles(i: Input)
    requires Smooth(i) && i.dev.Some? && i.dev.value > FLOOR_DB
    ensures Settled(Ticked(FRESH, i)) && Ticked(FRESH, i).base == i.dev
  {
    GrStaysBounded(0.0, i);
  }

  /** From a macro's first report on, the base is that report until the knob moves. */
  lemma {:induction false} BaseFromTheFirstReport(first: Input, es: seq<Event>)
    requires Smooth(first) && first.dev.Some? && first.dev.value > FLOOR_DB && Calm(Ticked(FRESH, first), es)
    ensures var rt := Run(Ticked(FRESH, first), es);
      Settled(rt) && rt.base == Some(LastSeed(first.dev.value, es))
  {
    FirstReportSettles(first);
    BaseMovesOnlyBySeeds(Ticked(FRESH, first), es);
  }

  /** And any report that is news re-bases it, whatever happened before. */
  lemma NewsMovesTheBase(rt: Rt, i: Input)
    ensures Ticked(rt, i).base == rt.base <==> Ignored(rt, i.dev) || i.dev == rt.base
  {}

  /** A report not seen last is news exactly when it lies more than 0.75 dB from the last write, on either side. */
  lemma ReportsBeyondReachAreNews(rt: Rt, i: Input)
    requires i.dev.Some? && i.dev != rt.devSeen
    ensures Ticked(rt, i).base ==
      if rt.written.Some? && rt.written.value - 0.75 <= i.dev.value <= rt.written.value + 0.75 then rt.base else i.dev
  {}

  /** A send at or below the floor is left alone, and what was written to it before is forgotten. */
  lemma SilentBaseIsLeftAlone(rt: Rt, i: Input)
    requires Ticked(rt, i).base.Some? && Ticked(rt, i).base.value <= -65.0
    ensures Output(rt, i).None? && Ticked(rt, i).written.None? && Ticked(rt, i).applied == 0.0
  {}

  /** After every tick of an undisturbed run the last write on record is within 0.05 dB of the reduced base. */
  lemma {:induction false} WritesTrackTheReduction(rt: Rt, es: seq<Event>, i: Input)
    requires Settled(rt) && Calm(rt, es) && Undisturbed(Run(rt, es), Tick(i))
    ensures var end := Ticked(Run(rt, es), i);
      && end.base == Some(LastSeed(rt.base.value, es)) && end.written.Some?
      && Abs(end.written.value - Max(-65.0, end.base.value - end.gr)) <= 0.05
  {
    BaseMovesOnlyBySeeds(rt, es);
  }

  // ---------------------------------------------------------------------
  // The envelope
  // ---------------------------------------------------------------------

  /** Where the key drives the reduction: to the depth, from 0 to 40 dB, while it is over the threshold, else to 0. */
  function Goal(i: Input): real {
    if i.key.Some? && i.key.value > i.threshold
    then (if i.depth < 0.0 then 0.0 else if i.depth > 40.0 then 40.0 else i.depth)
    else 0.0
  }

  lemma Remainder(goal: real, gr: real, c: real)
    ensures goal - (gr + Part(goal - gr, c)) == (goal - gr) * (1.0 - c)
  {}

  /**
   Every tick leaves the part `1 - c` of the way to the key's goal, with `c` the attack on the way up and the release on
   the way down; on the way to 0 the last 0.005 dB are cut.
  */
  lemma ReductionFollowsTheKey(rt: Rt, i: Input)
    ensures var c := if Goal(i) > rt.gr then i.attack else i.release;
      var after, rest := Ticked(rt, i).gr, (Goal(i) - rt.gr) * (1.0 - c);
      if Goal(i) == 0.0 && -rest < 0.005 then after == 0.0 else Goal(i) - after == rest
  {
    Remainder(Goal(i), rt.gr, if Goal(i) > rt.gr then i.attack else i.release);
  }

  /** What one tick leaves of `x`, and what `n` ticks leave. */
  function Left(x: real, c: real): real { x * (1.0 - c) }

  function LeftAfter(x: real, c: real, n: nat): real { if n == 0 then x else Left(LeftAfter(x, c, n - 1), c) }

  /** The key is over the threshold throughout, under settings that do not change. */
  ghost predicate Loud(es: seq<Event>, goal: real, attack: real) {
    forall k :: 0 <= k < |es| ==>
      es[k].Tick? && Smooth(es[k].input) && Goal(es[k].input) == goal && es[k].input.attack == attack
  }

  lemma LoudTickApproaches(rt: Rt, i: Input)
    requires 0.0 <= rt.gr <= Goal(i) && Smooth(i) && Goal(i) > 0.0
    ensures rt.gr <= Ticked(rt, i).gr <= Goal(i) && Goal(i) - Ticked(rt, i).gr == Left(Goal(i) - rt.gr, i.attack)
  {
    Blend(rt.gr, Goal(i), if Goal(i) > rt.gr then i.attack else i.release);
    ReductionFollowsTheKey(rt, i);
  }

  /** A key that stays loud brings the reduction to the depth: what is missing shrinks by the attack with every tick. */
  lemma {:induction false} LoudRunApproachesTheDepth(rt: Rt, es: seq<Event>, goal: real, attack: real)
    requires 0.0 <= rt.gr <= goal && goal > 0.0 && Loud(es, goal, attack)
    ensures rt.gr <= Run(rt, es).gr <= goal && goal - Run(rt, es).gr == LeftAfter(goal - rt.gr, attack, |es|)
    decreases |es|
  {
    if es != [] {
      var before := Run(rt, es[..|es| - 1]);
      LoudRunApproachesTheDepth(rt, es[..|es| - 1], goal, attack);
      LoudTickApproaches(before, es[|es| - 1].input);
      assert Run(rt, es) == Ticked(before, es[|es| - 1].input);
    }
  }

  // ---------------------------------------------------------------------
  // Echoes
  // ---------------------------------------------------------------------

  /** The level the device reports after a write of `level`, which travels as a fader position. */
  function Echo(sqrt: real -> real, level: real): real { FaderDb(FaderLin(sqrt, level)) }

  /**
   An echo of the last write is recognised exactly when it does not come back as the snap to silence, which every
   write at or below -64.9 dB does and no write a ten-millionth above it.
  */
  lemma {:induction false} EchoRecognisedUnlessSilent(sqrt: real -> real, rt: Rt)
    requires IsSqrt(sqrt) && rt.written.Some? && FLOOR_DB <= rt.written.value <= 6.0
    requires rt.devSeen != Some(OFF_DB)
    ensures var echo := Echo(sqrt, rt.written.value);
      && (Ignored(rt, Some(echo)) <==> echo != OFF_DB)
      && (rt.written.value <= SNAP_DB ==> echo == OFF_DB)
      && (rt.written.value >= AUDIBLE_DB ==> echo != OFF_DB)
  {
    if rt.written.value > SNAP_DB { ReverseTrip(sqrt, rt.written.value); }
  }

  /** So a send ducked all the way down loses its base to the echo and is never released. */
  lemma DeepDuckForgetsItsBase(sqrt: real -> real, rt: Rt, i: Input)
    requires IsSqrt(sqrt) && Settled(rt) && rt.written.value <= SNAP_DB && rt.devSeen != Some(OFF_DB)
    requires i.dev == Some(Echo(sqrt, rt.written.value))
    ensures Ticked(rt, i).base == Some(OFF_DB) && Output(rt, i).None?
    ensures RestoreSend(sqrt, Ticked(rt, i), true).None?
  {}

  /** Nothing but echoes: no report, the last one again, or what the device makes of the last write. */
  predicate EchoOnly(sqrt: real -> real, rt: Rt, dev: Option<real>) {
    || dev.None? || dev == rt.devSeen
    || (rt.written.Some? && dev == Some(Echo(sqrt, rt.written.value)))
  }

  /** Even reduced by `most` the level is heard, or a reduction of `most` is too little to be written at all. */
  predicate Clear(level: real, most: real) {
    AUDIBLE_DB <= level <= 6.0 && (AUDIBLE_DB <= level - most || most <= WRITE_EPS_DB)
  }

  /** A tick that hears only echoes at an effective depth of at most `most`, or a knob move to a level clear of it. */
  predicate Echoes(sqrt: real -> real, rt: Rt, e: Event, most: real) {
    match e
    case Tick(i) => Smooth(i) && Min(MAX_DEPTH, i.depth) <= most && EchoOnly(sqrt, rt, i.dev)
    case Seed(level) => Clear(level, most)
  }

  ghost predicate EchoRun(sqrt: real -> real, rt: Rt, es: seq<Event>, most: real) {
    forall k :: 0 <= k < |es| ==> Echoes(sqrt, Run(rt, es[..k]), es[k], most)
  }

  predicate ClearlySettled(rt: Rt, most: real) {
    && Settled(rt) && rt.gr <= most && rt.applied <= most
    && Clear(rt.base.value, most) && AUDIBLE_DB <= rt.written.value
  }

  lemma GrStaysShallow(gr: real, i: Input, most: real)
    requires 0.0 <= gr <= most && Min(MAX_DEPTH, i.depth) <= most && Smooth(i)
    ensures NextGr(gr, i) <= most
  {
    var t := Target(i);
    Blend(gr, t, if t > gr then i.attack else i.release);
  }

  lemma EchoIsIgnored(sqrt: real -> real, rt: Rt, dev: Option<real>, most: real)
    requires IsSqrt(sqrt) && ClearlySettled(rt, most) && EchoOnly(sqrt, rt, dev)
    ensures Ignored(rt, dev)
  {
    ReverseTrip(sqrt, rt.written.value);
  }

  lemma EchoStep(sqrt: real -> real, rt: Rt, e: Event, most: real)
    requires IsSqrt(sqrt) && 0.0 <= most && ClearlySettled(rt, most) && Echoes(sqrt, rt, e, most)
    ensures Undisturbed(rt, e) && ClearlySettled(After(rt, e), most)
  {
    if e.Tick? {
      EchoIsIgnored(sqrt, rt, e.input.dev, most);
      GrStaysShallow(rt.gr, e.input, most);
    }
    CalmStep(rt, e);
  }

  lemma {:induction false} EchoRunIsCalm(sqrt: real -> real, rt: Rt, es: seq<Event>, most: real)
    requires IsSqrt(sqrt) && 0.0 <= most && ClearlySettled(rt, most) && EchoRun(sqrt, rt, es, most)
    ensures Calm(rt, es) && ClearlySettled(Run(rt, es), most)
    decreases |es|
  {
    if es != [] {
      var init := es[..|es| - 1];
      forall k | 0 <= k < |init| ensures Echoes(sqrt, Run(rt, init[..k]), init[k], most) {
        assert init[..k] == es[..k];
      }
      EchoRunIsCalm(sqrt, rt, init, most);
      assert es[..|init|] == init;
      EchoStep(sqrt, Run(rt, init), es[|init|], most);
      forall k | 0 <= k < |es| ensures Undisturbed(Run(rt, es[..k]), es[k]) {
        if k < |init| { assert init[..k] == es[..k]; }
      }
    }
  }

  /**
   Echoes of its own writes never move the base, over whole runs, as long as every level the knob is set to stays clear
   of silence by the configured depth, or the depth is too small to be written.
  */
  lemma {:induction false} EchoesKeepTheBase(sqrt: real -> real, rt: Rt, es: seq<Event>, most: real)
    requires IsSqrt(sqrt) && 0.0 <= most && ClearlySettled(rt, most) && EchoRun(sqrt, rt, es, most)
    ensures Run(rt, es).base == Some(LastSeed(rt.base.value, es))
  {
    EchoRunIsCalm(sqrt, rt, es, most);
    BaseMovesOnlyBySeeds(rt, es);
  }

  /** A send at rest on its base. */
  function Resting(level: real): Rt { Rt(0.0, Some(level), Some(level), 0.0, Some(level)) }

  /** A reduction that is written, stays short of `most`, and reaches the snap from `level`. */
  function Reach(level: real, most: real): real { (Max(WRITE_EPS_DB, level - SNAP_DB) + most) / 2.0 }

  function LoudTick(level: real, most: real): Input
    requires most > 0.0
  {
    Input(most, -30.0, Reach(level, most) / most, 0.5, Some(0.0), None)
  }

  /** A tick that hears the echo of a write at or below the snap. */
  const HEARS_SILENCE := Input(0.0, -30.0, 0.5, 0.5, None, Some(OFF_DB))

  /** Where the depth reaches past silence two ticks lose the base: one to duck past the snap, one to hear it. */
  function LosingRun(level: real, most: real): seq<Event>
    requires most > 0.0 || level <= SNAP_DB
  {
    if level <= SNAP_DB then [Tick(HEARS_SILENCE)] else [Tick(LoudTick(level, most)), Tick(HEARS_SILENCE)]
  }

  lemma Rejoined(x: real, d: real)
    requires d > 0.0
    ensures Part(d, x / d) == x
  {}

  lemma WholePart(d: real, a: real)
    requires d > 0.0
    ensures a >= 1.0 ==> Part(d, a) >= d
    ensures a < 0.0 ==> Part(d, a) < 0.0
  {
    if a >= 1.0 { WholeProduct(d, a); }
  }

  lemma WholeProduct(d: real, a: real)
    requires d > 0.0 && a >= 1.0
    ensures d * a >= d
  {
    assert 0.0 <= d * (a - 1.0);
  }

  /** The setting reaches past silence, from a level that does not read as silence itself. */
  predicate Deep(level: real, most: real) {
    SNAP_DB < level && level - most < SNAP_DB && WRITE_EPS_DB < most <= MAX_DEPTH
  }

  lemma ReachWorks(level: real, most: real)
    requires Deep(level, most)
    ensures var g, a := Reach(level, most), LoudTick(level, most).attack;
      0.0 <= a < 1.0 && Part(most, a) == g && WRITE_EPS_DB < g < most && level - g < SNAP_DB
  {
    var g := Reach(level, most);
    Rejoined(g, most);
    WholePart(most, g / most);
  }

  lemma LoudTickReachesTheSnap(level: real, most: real)
    requires Deep(level, most) && Smooth(LoudTick(level, most))
    requires Part(most, LoudTick(level, most).attack) == Reach(level, most)
    requires WRITE_EPS_DB < Reach(level, most) < most && level - Reach(level, most) < SNAP_DB
    ensures var rt := Ticked(Resting(level), LoudTick(level, most));
      Settled(rt) && rt.written.value < SNAP_DB && rt.devSeen == Some(level)
  {
    var loud := LoudTick(level, most);
    assert Target(loud) == most && NextGr(0.0, loud) == 0.0 + Part(most - 0.0, loud.attack);
  }

  lemma DeepRunLosesTheBase(sqrt: real -> real, level: real, most: real)
    requires IsSqrt(sqrt) && Deep(level, most)
    ensures EchoRun(sqrt, Resting(level), LosingRun(level, most), most)
    ensures Run(Resting(level), LosingRun(level, most)).base == Some(OFF_DB)
  {
    var rt, loud, es := Resting(level), LoudTick(level, most), LosingRun(level, most);
    ReachWorks(level, most);
    LoudTickReachesTheSnap(level, most);
    var rt' := Ticked(rt, loud);
    assert es[..0] == [] && es[..1] == [Tick(loud)] && [Tick(loud)][..0] == [];
    assert Run(rt, es[..1]) == rt' && es[..2] == es;
    forall k | 0 <= k < 2 ensures Echoes(sqrt, Run(rt, es[..k]), es[k], most) {
      if k == 1 { assert Some(OFF_DB) == Some(Echo(sqrt, rt'.written.value)); }
    }
    DeepDuckForgetsItsBase(sqrt, rt', HEARS_SILENCE);
  }

  lemma SilentLevelLosesTheBase(sqrt: real -> real, level: real, most: real)
    requires IsSqrt(sqrt) && FLOOR_DB < level <= SNAP_DB && 0.0 <= most
    ensures EchoRun(sqrt, Resting(level), LosingRun(level, most), most)
    ensures Run(Resting(level), LosingRun(level, most)).base == Some(OFF_DB)
  {
    var es := LosingRun(level, most);
    assert es[..0] == [] && Run(Resting(level), es[..0]) == Resting(level);
    assert Some(OFF_DB) == Some(Echo(sqrt, level));
    DeepDuckForgetsItsBase(sqrt, Resting(level), HEARS_SILENCE);
  }

  /**
   And it is lost, from a send at rest and to nothing but echoes, from every level that reads as silence itself and
   wherever a depth large enough to be written reaches past silence.  Between this and `Clear` lies a band of 1e-7 dB.
  */
  lemma DeepSettingsLoseTheBase(sqrt: real -> real, level: real, most: real)
    requires IsSqrt(sqrt) && FLOOR_DB < level && 0.0 <= most <= MAX_DEPTH
    requires level <= SNAP_DB || (level - most < SNAP_DB && most > WRITE_EPS_DB)
    ensures Settled(Resting(level)) && EchoRun(sqrt, Resting(level), LosingRun(level, most), most)
    ensures Run(Resting(level), LosingRun(level, most)).base == Some(OFF_DB)
  {
    if level <= SNAP_DB { SilentLevelLosesTheBase(sqrt, level, most); } else { DeepRunLosesTheBase(sqrt, level, most); }
  }

  /** Only the last write is known: an echo of an older one, 0.75 dB or more away, pulls the base down to it. */
  lemma StaleEchoRatchets(rt: Rt, i: Input)
    requires Settled(rt) && i.dev.Some? && i.dev != rt.devSeen
    requires i.dev.value < rt.written.value - EXTERNAL_EPS_DB
    ensures Ticked(rt, i).base == i.dev && i.dev.value < rt.base.value - EXTERNAL_EPS_DB
  {}

  // ---------------------------------------------------------------------
  // Release
  // ---------------------------------------------------------------------

  lemma Product(x: real, y: real, lo: real, a: real)
    requires x >= lo > 0.0 && y >= a > 0.0
    ensures x * y >= lo * a
  {
    assert x * y >= lo * y >= lo * a;
  }

  lemma Decay(g: real, r: real, a: real)
    requires 0.005 <= g && 0.0 < a <= r
    ensures Part(0.0 - g, r) <= -(0.005 * a)
  {
    PartOpposite(g, r);
    Product(g, r, 0.005, a);
  }

  /** A silent tick reaches 0 or takes a fixed amount off. */
  lemma SilentTick(gr: real, i: Input, a: real)
    requires 0.0 <= gr && Silent(i) && Smooth(i) && 0.0 < a <= i.release
    ensures NextGr(gr, i) == 0.0 || 0.005 <= NextGr(gr, i) <= gr - 0.005 * a
  {
    Blend(gr, 0.0, i.release);
    var g := gr + Part(0.0 - gr, i.release);
    assert NextGr(gr, i) == if g < 0.005 then 0.0 else g;
    if g >= 0.005 { Decay(gr, i.release, a); }
  }

  predicate Releasing(i: Input, a: real) { Silent(i) && Smooth(i) && a <= i.release }

  ghost predicate AllReleasing(es: seq<Event>, a: real) {
    forall k :: 0 <= k < |es| ==> es[k].Tick? && Releasing(es[k].input, a)
  }

  /** What `n` silent ticks take off at least. */
  function Drop(n: nat, a: real): real { if n == 0 then 0.0 else Drop(n - 1, a) + 0.005 * a }

  lemma {:induction false} DropIsProportional(n: nat, a: real)
    ensures Drop(n, a) == n as real * (0.005 * a)
  {
    if n > 0 {
      DropIsProportional(n - 1, a);
      var step := 0.005 * a;
      assert n as real * step == (n - 1) as real * step + step;
    }
  }

  lemma {:induction false} ReductionFalls(rt: Rt, es: seq<Event>, a: real)
    requires 0.0 <= rt.gr && 0.0 < a && AllReleasing(es, a)
    ensures Run(rt, es).gr == 0.0 || 0.0 <= Run(rt, es).gr <= rt.gr - Drop(|es|, a)
    decreases |es|
  {
    if es != [] {
      var init := es[..|es| - 1];
      ReductionFalls(rt, init, a);
      SilentTick(Run(rt, init).gr, es[|es| - 1].input, a);
    }
  }

  /** A silent tick with no reduction left puts the send back on its base, but for 0.05 dB. */
  lemma {:induction false} ReleasedTick(rt: Rt, i: Input)
    requires Settled(rt) && Undisturbed(rt, Tick(i)) && rt.gr == 0.0 && Silent(i)
    ensures var end := Ticked(rt, i);
      end.gr == 0.0 && end.base == rt.base && end.written.Some?
      && Abs(end.written.value - rt.base.value) <= WRITE_EPS_DB
  {
    assert Part(0.0 - 0.0, i.release) == 0.0;
  }

  lemma GrReachesZero(rt: Rt, es: seq<Event>, a: real)
    requires 0.0 <= rt.gr <= MAX_DEPTH && 0.0 < a && AllReleasing(es, a) && Drop(|es|, a) > MAX_DEPTH
    ensures Run(rt, es).gr == 0.0
  {
    ReductionFalls(rt, es, a);
  }

  /**
   Silence releases: with a release coefficient of at least `a` the reduction is exactly 0 after any number of silent
   ticks over `40 / (0.005 a)` (what `n` ticks take off is `DropIsProportional`), and one more tick has the last write
   on record within 0.05 dB of the base.  What the send makes of that write is `SilenceFreesTheSend`.
  */
  lemma {:induction false} SilenceReleases(rt: Rt, es: seq<Event>, last: Input, a: real)
    requires Settled(rt) && Calm(rt, es) && Undisturbed(Run(rt, es), Tick(last))
    requires 0.0 < a && AllReleasing(es, a) && Silent(last) && Drop(|es|, a) > MAX_DEPTH
    ensures Run(rt, es).gr == 0.0
    ensures var end := Ticked(Run(rt, es), last);
      end.gr == 0.0 && end.base == rt.base && end.written.Some?
      && Abs(end.written.value - rt.base.value) <= WRITE_EPS_DB
  {
    GrReachesZero(rt, es, a);
    BaseMovesOnlyBySeeds(rt, es);
    NoSeeds(rt.base.value, es);
    ReleasedTick(Run(rt, es), last);
  }

  lemma {:induction false} NoSeeds(base: real, es: seq<Event>)
    requires forall k :: 0 <= k < |es| ==> es[k].Tick?
    ensures LastSeed(base, es) == base
    decreases |es|
  {
    if es != [] { NoSeeds(base, es[..|es| - 1]); }
  }

  // ---------------------------------------------------------------------
  // The send
  // ---------------------------------------------------------------------

  /**
   The engine's record beside the send it is about: `told` is the level of the last write that got through, `device`
   where the send stands.  A write is lost when its target does not resolve or sending raises, and stays on record all
   the same.  Nobody but the engine and the knob moves the send.
  */
  datatype World = World(rt: Rt, told: real, device: real)

  function Told(sqrt: real -> real, w: World, rt: Rt, out: Option<real>, through: bool): World {
    if out.Some? && through then World(rt, out.value, Echo(sqrt, out.value)) else w.(rt := rt)
  }

  /** A knob move is on the device already when the engine learns of it. */
  function WorldAfter(sqrt: real -> real, w: World, e: Event, through: bool): World {
    match e
    case Tick(i) => Told(sqrt, w, Ticked(w.rt, i), Output(w.rt, i), through)
    case Seed(level) => World(Seeded(w.rt, level), level, level)
  }

  /** `through` says of every event whether a write of it arrives. */
  function WorldRun(sqrt: real -> real, w: World, es: seq<Event>, through: seq<bool>): (w': World)
    requires |through| == |es|
    ensures w'.rt == Run(w.rt, es)
    decreases |es|
  {
    if es == [] then w
    else
      var n := |es| - 1;
      WorldAfter(sqrt, WorldRun(sqrt, w, es[..n], through[..n]), es[n], through[n])
  }

  /** The send stands on its base, or where the last write that got through put it. */
  predicate Placed(sqrt: real -> real, w: World) {
    && Settled(w.rt) && FLOOR_DB <= w.told <= w.rt.base.value
    && (w.device == Echo(sqrt, w.told) || w.device == w.told == w.rt.base.value)
  }

  /** A fresh macro's first report places its send. */
  lemma {:induction false} FirstReportPlaces(sqrt: real -> real, i: Input, through: bool)
    requires Smooth(i) && i.dev.Some? && i.dev.value > FLOOR_DB
    ensures var w := WorldAfter(sqrt, World(FRESH, i.dev.value, i.dev.value), Tick(i), through);
      Placed(sqrt, w) && (Current(w) <==> Output(FRESH, i).None? || through)
  {
    GrStaysBounded(0.0, i);
  }

  lemma PlacedStep(sqrt: real -> real, w: World, e: Event, through: bool)
    requires Placed(sqrt, w) && Undisturbed(w.rt, e)
    ensures Placed(sqrt, WorldAfter(sqrt, w, e, through))
  {
    CalmStep(w.rt, e);
    if e.Tick? { GrStaysBounded(w.rt.gr, e.input); }
  }

  lemma CalmPrefix(rt: Rt, es: seq<Event>)
    requires Calm(rt, es) && es != []
    ensures Calm(rt, es[..|es| - 1]) && Undisturbed(Run(rt, es[..|es| - 1]), es[|es| - 1])
  {
    var init := es[..|es| - 1];
    forall k | 0 <= k < |init| ensures Undisturbed(Run(rt, init[..k]), init[k]) {
      assert init[..k] == es[..k];
    }
  }

  lemma {:induction false} PlacedRun(sqrt: real -> real, w: World, es: seq<Event>, through: seq<bool>)
    requires |through| == |es| && Placed(sqrt, w) && Calm(w.rt, es)
    ensures Placed(sqrt, WorldRun(sqrt, w, es, through))
    decreases |es|
  {
    if es != [] {
      var n := |es| - 1;
      CalmPrefix(w.rt, es);
      PlacedRun(sqrt, w, es[..n], through[..n]);
      PlacedStep(sqrt, WorldRun(sqrt, w, es[..n], through[..n]), es[n], through[n]);
    }
  }

  /** The last write on record got through. */
  predicate Current(w: World) { w.rt.written == Some(w.told) }

  /** The last event of a run that wrote, the knob's moves included, got through; `before` if none did. */
  function LastArrived(rt: Rt, es: seq<Event>, through: seq<bool>, before: bool): bool
    requires |through| == |es|
    decreases |es|
  {
    if es == [] then before
    else
      var n := |es| - 1;
      match es[n]
      case Seed(_) => true
      case Tick(i) =>
        if Output(Run(rt, es[..n]), i).Some? then through[n] else LastArrived(rt, es[..n], through[..n], before)
  }

  lemma CurrentStep(sqrt: real -> real, w: World, e: Event, through: bool)
    requires Settled(w.rt) && Undisturbed(w.rt, e)
    requires e.Seed? || (if Output(w.rt, e.input).Some? then through else Current(w))
    ensures Current(WorldAfter(sqrt, w, e, through))
  {}

  lemma {:induction false} ArrivedIsCurrent(sqrt: real -> real, w: World, es: seq<Event>, through: seq<bool>)
    requires |through| == |es| && Settled(w.rt) && Calm(w.rt, es)
    requires LastArrived(w.rt, es, through, Current(w))
    ensures Current(WorldRun(sqrt, w, es, through))
    decreases |es|
  {
    if es != [] {
      var n := |es| - 1;
      CalmPrefix(w.rt, es);
      BaseMovesOnlyBySeeds(w.rt, es[..n]);
      if es[n].Tick? && Output(Run(w.rt, es[..n]), es[n].input).None? {
        ArrivedIsCurrent(sqrt, w, es[..n], through[..n]);
      }
      CurrentStep(sqrt, WorldRun(sqrt, w, es[..n], through[..n]), es[n], through[n]);
    }
  }

  /** The last write that got through is at most `reach` below the base and heard as a level. */
  predicate Back(sqrt: real -> real, w: World, reach: real)
    requires w.rt.base.Some?
  {
    w.rt.base.value - w.told <= reach && Echo(sqrt, w.told) != OFF_DB
  }

  /** Positions are exact but for this much. */
  const ECHO_EPS := 0.0000001

  /** What is known of a send's distance from its base: within `reach` of it or beyond, but for the echo's rounding. */
  predicate Stands(device: real, base: real, reach: real, back: bool) {
    if back then Abs(device - base) <= reach + ECHO_EPS else Abs(device - base) > reach - ECHO_EPS
  }

  lemma PlacedStands(sqrt: real -> real, w: World, reach: real)
    requires IsSqrt(sqrt) && Placed(sqrt, w) && AUDIBLE_DB <= w.rt.base.value <= 6.0 && 0.0 <= reach <= 1.0
    ensures Stands(w.device, w.rt.base.value, reach, Back(sqrt, w, reach))
  {
    if w.told > SNAP_DB { ReverseTrip(sqrt, w.told); }
  }

  /** A send that was told of a level within reach of an audible base is back when that base keeps clear of the snap. */
  lemma ClearBaseIsBack(sqrt: real -> real, w: World, reach: real)
    requires IsSqrt(sqrt) && Placed(sqrt, w) && AUDIBLE_DB + reach <= w.rt.base.value <= 6.0
    requires w.rt.base.value - w.told <= reach
    ensures Back(sqrt, w, reach)
  {
    ReverseTrip(sqrt, w.told);
  }

  /**
   After silence as long as in `SilenceReleases` the send is within 0.05 dB of its base if and only if the last write
   that got through was, and is heard.  It is, when the last write got through and the base keeps 0.05 dB clear of what
   may read as silence.
  */
  lemma {:induction false} SilenceFreesTheSend(sqrt: real -> real, w: World, es: seq<Event>, through: seq<bool>,
                                               last: Input, arrives: bool, a: real)
    requires IsSqrt(sqrt) && Placed(sqrt, w) && AUDIBLE_DB <= w.rt.base.value <= 6.0 && |through| == |es|
    requires Calm(w.rt, es + [Tick(last)]) && Silent(last)
    requires 0.0 < a && AllReleasing(es, a) && Drop(|es|, a) > MAX_DEPTH
    ensures var end := WorldRun(sqrt, w, es + [Tick(last)], through + [arrives]);
      && end.rt.base == w.rt.base && end.rt.gr == 0.0
      && Stands(end.device, w.rt.base.value, WRITE_EPS_DB, Back(sqrt, end, WRITE_EPS_DB))
      && ((LastArrived(w.rt, es + [Tick(last)], through + [arrives], Current(w))
           && AUDIBLE_DB + WRITE_EPS_DB <= w.rt.base.value)
          ==> Back(sqrt, end, WRITE_EPS_DB))
  {
    var all, arrived := es + [Tick(last)], through + [arrives];
    var end := WorldRun(sqrt, w, all, arrived);
    assert all[..|es|] == es;
    CalmPrefix(w.rt, all);
    SilenceReleases(w.rt, es, last, a);
    assert end.rt == Ticked(Run(w.rt, es), last);
    PlacedRun(sqrt, w, all, arrived);
    PlacedStands(sqrt, end, WRITE_EPS_DB);
    if LastArrived(w.rt, all, arrived, Current(w)) && AUDIBLE_DB + WRITE_EPS_DB <= w.rt.base.value {
      ArrivedIsCurrent(sqrt, w, all, arrived);
      ClearBaseIsBack(sqrt, end, WRITE_EPS_DB);
    }
  }

  /** Where the send stands after a restore that did or did not get through. */
  function Restored(sqrt: real -> real, w: World, reachable: bool): real
    requires Settled(w.rt)
  {
    var send := RestoreSend(sqrt, w.rt, reachable);
    if send.Some? then FaderDb(send.value) else w.device
  }

  /** A restore that sends, or a last write that got through close to the base and is heard. */
  predicate ComesBack(sqrt: real -> real, w: World, reachable: bool)
    requires w.rt.base.Some?
  {
    (reachable && w.rt.applied > RESTORE_MIN_DB) || Back(sqrt, w, RESTORE_MIN_DB)
  }

  /** A restore leaves the send within 0.1 dB of its base if and only if the send `ComesBack`, over all calm runs. */
  lemma {:induction false} RestoreReturnsToTheBase(sqrt: real -> real, w: World, es: seq<Event>, through: seq<bool>,
                                                   reachable: bool)
    requires IsSqrt(sqrt) && Placed(sqrt, w) && Calm(w.rt, es) && |through| == |es|
    requires AUDIBLE_DB <= LastSeed(w.rt.base.value, es) <= 6.0
    ensures var end := WorldRun(sqrt, w, es, through);
      && Settled(end.rt) && end.rt.base == Some(LastSeed(w.rt.base.value, es))
      && Stands(Restored(sqrt, end, reachable), end.rt.base.value, RESTORE_MIN_DB, ComesBack(sqrt, end, reachable))
  {
    var end := WorldRun(sqrt, w, es, through);
    BaseMovesOnlyBySeeds(w.rt, es);
    PlacedRun(sqrt, w, es, through);
    PlacedStands(sqrt, end, RESTORE_MIN_DB);
    ReverseTrip(sqrt, end.rt.base.value);
  }

  /**
   When the last write got through, that condition is one on the record: the restore sends, or there is next to nothing
   to restore and the last write is heard, which it is on any base 0.1 dB clear of what may read as silence.
  */
  lemma {:induction false} ComesBackByTheRecord(sqrt: real -> real, w: World, es: seq<Event>, through: seq<bool>,
                                                reachable: bool)
    requires IsSqrt(sqrt) && Placed(sqrt, w) && Calm(w.rt, es) && |through| == |es|
    requires AUDIBLE_DB <= LastSeed(w.rt.base.value, es) <= 6.0 && LastArrived(w.rt, es, through, Current(w))
    ensures var end := WorldRun(sqrt, w, es, through);
      && Settled(end.rt)
      && (ComesBack(sqrt, end, reachable)
          <==> if end.rt.applied > RESTORE_MIN_DB then reachable else Echo(sqrt, end.rt.written.value) != OFF_DB)
      && (AUDIBLE_DB + RESTORE_MIN_DB <= end.rt.base.value
          ==> (ComesBack(sqrt, end, reachable) <==> reachable || end.rt.applied <= RESTORE_MIN_DB))
  {
    var end := WorldRun(sqrt, w, es, through);
    BaseMovesOnlyBySeeds(w.rt, es);
    PlacedRun(sqrt, w, es, through);
    ArrivedIsCurrent(sqrt, w, es, through);
    RecordDecides(sqrt, end, reachable);
  }

  lemma RecordDecides(sqrt: real -> real, w: World, reachable: bool)
    requires IsSqrt(sqrt) && Placed(sqrt, w) && Current(w) && AUDIBLE_DB <= w.rt.base.value <= 6.0
    ensures ComesBack(sqrt, w, reachable)
       <==> if w.rt.applied > RESTORE_MIN_DB then reachable else Echo(sqrt, w.rt.written.value) != OFF_DB
    ensures AUDIBLE_DB + RESTORE_MIN_DB <= w.rt.base.value
        ==> (ComesBack(sqrt, w, reachable) <==> reachable || w.rt.applied <= RESTORE_MIN_DB)
  {
    if AUDIBLE_DB + RESTORE_MIN_DB <= w.rt.base.value && w.rt.applied <= RESTORE_MIN_DB {
      ClearBaseIsBack(sqrt, w, RESTORE_MIN_DB);
    }
  }

  // ---------------------------------------------------------------------
  // Sends that stay down
  // ---------------------------------------------------------------------

  /** A send of which the engine believes that it rests on its base. */
  predicate ThoughtAtRest(rt: Rt) { Settled(rt) && rt.gr == 0.0 && rt.applied == 0.0 }

  lemma RestingTick(sqrt: real -> real, w: World, i: Input, through: bool)
    requires ThoughtAtRest(w.rt) && Undisturbed(w.rt, Tick(i)) && Silent(i)
    ensures var w' := WorldAfter(sqrt, w, Tick(i), through);
      ThoughtAtRest(w'.rt) && w'.told == w.told && w'.device == w.device
  {
    assert Part(0.0 - 0.0, i.release) == 0.0;
  }

  /**
   A lost write is never repeated: once the record says the send rests on its base no silence, however long, writes
   again, and a restore sends nothing either, wherever the send stands.
  */
  lemma {:induction false} LostWritesAreNotRepeated(sqrt: real -> real, w: World, es: seq<Event>, through: seq<bool>,
                                                    a: real, reachable: bool)
    requires |through| == |es| && ThoughtAtRest(w.rt) && Calm(w.rt, es) && AllReleasing(es, a)
    ensures var end := WorldRun(sqrt, w, es, through);
      ThoughtAtRest(end.rt) && end.told == w.told && Restored(sqrt, end, reachable) == w.device
    decreases |es|
  {
    if es != [] {
      var n := |es| - 1;
      CalmPrefix(w.rt, es);
      LostWritesAreNotRepeated(sqrt, w, es[..n], through[..n], a, reachable);
      RestingTick(sqrt, WorldRun(sqrt, w, es[..n], through[..n]), es[n].input, through[n]);
    }
  }

  /** Three sends that stay down although every tick was calm, each with a base the restore's guarantee admits. */
  function Ducked(base: real, gr: real, applied: real, sqrt: real -> real): World {
    World(Rt(gr, Some(base), Some(base - applied), applied, None), base - applied, Echo(sqrt, base - applied))
  }

  const SHALLOW := Input(0.16, -30.0, 0.5, 0.5, Some(0.0), None)
  const SILENCE := Input(0.16, -30.0, 0.5, 0.9999, None, None)

  /** The reduction is too little to be restored and its write reads as silence. */
  lemma RestoreSkipsASilentSend(sqrt: real -> real)
    requires IsSqrt(sqrt)
    ensures var w := Ducked(-64.85, 0.0, 0.0, sqrt);
      var end := WorldRun(sqrt, w, [Tick(SHALLOW)], [true]);
      && Placed(sqrt, w) && Current(w) && Calm(w.rt, [Tick(SHALLOW)])
      && end.rt.applied == 0.08 && Restored(sqrt, end, true) == OFF_DB
  {
    assert Part(0.16 - 0.0, 0.5) == 0.08;
  }

  /** The last write reads as silence and is within 0.05 dB of the base, so the release writes nothing. */
  lemma ReleaseSkipsASilentSend(sqrt: real -> real)
    requires IsSqrt(sqrt)
    ensures var w := Ducked(-64.88, 0.045, 0.045, sqrt);
      var end := WorldRun(sqrt, w, [Tick(SILENCE)], [true]);
      && Placed(sqrt, w) && Current(w) && Calm(w.rt, [Tick(SILENCE)])
      && end.rt.gr == 0.0 && end.device == OFF_DB && Restored(sqrt, end, true) == OFF_DB
  {
    assert Part(0.0 - 0.045, 0.9999) == -0.0449955;
  }

  /** The write that releases a send from 10 dB of reduction is lost: it stays 10 dB down for good. */
  lemma LostReleaseStaysDown(sqrt: real -> real)
    requires IsSqrt(sqrt)
    ensures var w := Ducked(-10.0, 10.0, 10.0, sqrt);
      var end := WorldRun(sqrt, w, [Tick(SILENCE)], [false]);
      && Placed(sqrt, w) && Current(w) && Calm(w.rt, [Tick(SILENCE)])
      && end.rt.written == Some(-10.0) && ThoughtAtRest(end.rt)
      && Abs(Restored(sqrt, end, true) - -20.0) <= ECHO_EPS
  {
    assert Part(0.0 - 10.0, 0.9999) == -9.999;
    ReverseTrip(sqrt, -20.0);
  }
}
