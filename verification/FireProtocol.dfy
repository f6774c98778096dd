/**
 The firing protocol of `run_macro`: the fire-mode guard taken under the macro
 lock, the single device lock, and the clean-up that re-fires a held trigger.

 `FireGuard` is the lock-protected state with its two critical sections.  `Sys`
 is the whole system: any number of threads inside `run_macro`, interleaved at
 lock granularity, with the configuration editable between any two steps.
*/
module FireProtocol {
  import opened Wrappers

  type Name = string
  type EventId = nat

  /** `Unrecognised` stands for every other string found in the configuration. */
  datatype FireMode = Ignore | Queue | Restart | Unrecognised

  /** `forced` is `force_switch`: the macro may switch workspace or snapshot beside other running macros. */
  datatype MacroConfig = MacroConfig(mode: FireMode, debounceMs: int, forced: bool)

  /** One call of `run_macro`.  The token tells calls apart. */
  datatype Trigger = Trigger(token: nat, name: Name, param: real, bpm: Option<real>)

  datatype Verdict =
    | DroppedIgnore
    | DroppedDebounce
    | Held(displaced: Option<Trigger>)
    | Admitted(event: EventId)

  // ---------------------------------------------------------------------
  // The lock-protected state
  // ---------------------------------------------------------------------

  datatype Guard = Guard(
    running: set<Name>,
    queued: map<Name, Trigger>,
    events: map<Name, EventId>,
    suppress: int,
    lastTrigger: map<Name, int>,
    nextEvent: EventId,
    signalled: set<EventId>)

  const INITIAL_GUARD := Guard({}, map[], map[], 0, map[], 0, {})

  function LastTrigger(g: Guard, name: Name): int {
    if name in g.lastTrigger then g.lastTrigger[name] else 0
  }

  function Hold(g: Guard, t: Trigger): Guard {
    g.(queued := g.queued[t.name := t])
  }

  function HeldFor(g: Guard, name: Name): Option<Trigger> {
    if name in g.queued then Some(g.queued[name]) else None
  }

  function Admission(g: Guard, cfg: MacroConfig, t: Trigger, now: int): (Guard, Verdict) {
    var busy := t.name in g.running;
    if busy && cfg.mode == Ignore then
      (g, DroppedIgnore)
    else if busy && cfg.mode == Queue then
      (Hold(g, t), Held(HeldFor(g, t.name)))
    else if busy && cfg.mode == Restart then
      var h := Hold(g, t);
      (if t.name in g.events then h.(signalled := h.signalled + {g.events[t.name]}) else h,
       Held(HeldFor(g, t.name)))
    else if cfg.debounceMs > 0 && now - LastTrigger(g, t.name) < cfg.debounceMs then
      (g, DroppedDebounce)
    else
      (g.(suppress := g.suppress + 1,
          nextEvent := g.nextEvent + 1,
          events := g.events[t.name := g.nextEvent],
          running := g.running + {t.name}),
       Admitted(g.nextEvent))
  }

  function Retirement(g: Guard, name: Name): (Guard, Option<Trigger>) {
    (g.(suppress := if g.suppress - 1 > 0 then g.suppress - 1 else 0,
        events := g.events - {name},
        running := g.running - {name},
        queued := g.queued - {name}),
     HeldFor(g, name))
  }

  /** `_running_macros`, `_queued_params`, `_cancel_events` and `_suppress_count`. */
  class FireGuard {
    var running: set<Name>
    var queued: map<Name, Trigger>
    var events: map<Name, EventId>
    var suppress: int
    var lastTrigger: map<Name, int>
    var nextEvent: EventId
    var signalled: set<EventId>

    ghost function State(): Guard
      reads this
    {
      Guard(running, queued, events, suppress, lastTrigger, nextEvent, signalled)
    }

    constructor ()
      ensures State() == INITIAL_GUARD
    {
      running, queued, events, suppress := {}, map[], map[], 0;
      lastTrigger, nextEvent, signalled := map[], 0, {};
    }

    /** Guard and registration, one critical section. */
    method Admit(cfg: MacroConfig, t: Trigger, now: int) returns (v: Verdict)
      modifies this
      ensures (State(), v) == Admission(old(State()), cfg, t, now)
    {
      if t.name in running {
        var displaced := if t.name in queued then Some(queued[t.name]) else None;
        if cfg.mode == Ignore {
          return DroppedIgnore;
        } else if cfg.mode == Queue {
          queued := queued[t.name := t];
          return Held(displaced);
        } else if cfg.mode == Restart {
          queued := queued[t.name := t];
          if t.name in events {
            signalled := signalled + {events[t.name]};
          }
          return Held(displaced);
        }
      }
      if cfg.debounceMs > 0 {
        var last := if t.name in lastTrigger then lastTrigger[t.name] else 0;
        if now - last < cfg.debounceMs {
          return DroppedDebounce;
        }
      }
      suppress := suppress + 1;
      v := Admitted(nextEvent);
      events := events[t.name := nextEvent];
      nextEvent := nextEvent + 1;
      running := running + {t.name};
    }

    /** The `finally` section: unregister and pop the held trigger. */
    method Retire(name: Name) returns (refire: Option<Trigger>)
      modifies this
      ensures (State(), refire) == Retirement(old(State()), name)
    {
      suppress := if suppress - 1 > 0 then suppress - 1 else 0;
      events := events - {name};
      running := running - {name};
      refire := if name in queued then Some(queued[name]) else None;
      queued := queued - {name};
    }
  }

  // ---------------------------------------------------------------------
  // The system: threads interleaved at lock granularity
  // ---------------------------------------------------------------------

  /** A thread between its start and the guard. */
  datatype Entry =
    | Spawned(t: Trigger)
    | Configured(t: Trigger, cfg: MacroConfig)

  /** Inside the device lock an instance first learns whether it may run; a refused one leaves without a step. */
  datatype Phase = AwaitingDevice | InDevice | Running | Refused | Leaving

  predicate Holding(p: Phase) { p.InDevice? || p.Running? || p.Refused? }

  datatype Instance = Instance(t: Trigger, event: EventId, forced: bool, phase: Phase)

  datatype Event = Arrived(t: Trigger) | Began(t: Trigger)

  datatype Sys = Sys(
    guard: Guard,
    config: map<Name, MacroConfig>,
    entering: map<nat, Entry>,
    live: map<nat, Instance>,
    device: Option<nat>,
    log: seq<Event>,
    ignored: set<Trigger>,
    debounced: set<Trigger>,
    superseded: set<Trigger>,
    rejected: set<Trigger>,
    ran: set<Trigger>,
    refused: set<Trigger>)

  datatype Step =
    | Arrive(t: Trigger)
    | ReadConfig(token: nat)
    | PassGuard(token: nat, now: int)
    | AcquireDevice(token: nat)
    | Decide(token: nat, onTarget: bool)
    | ReleaseDevice(token: nat, stamp: Option<int>)
    | Retire(token: nat)
    | EditConfig(config: map<Name, MacroConfig>)

  function Initial(config: map<Name, MacroConfig>): Sys {
    Sys(INITIAL_GUARD, config, map[], map[], None, [], {}, {}, {}, {}, {}, {})
  }

  predicate Enabled(s: Sys, step: Step) {
    match step
    case Arrive(t) => forall e :: e in s.log ==> e.t.token != t.token
    case ReadConfig(k) => k in s.entering && s.entering[k].Spawned?
    case PassGuard(k, _) => k in s.entering && s.entering[k].Configured?
    case AcquireDevice(k) => k in s.live && s.live[k].phase == AwaitingDevice && s.device == None
    case Decide(k, _) => k in s.live && s.live[k].phase == InDevice
    case ReleaseDevice(k, stamp) =>
      && k in s.live && s.device == Some(k)
      && (s.live[k].phase == Running || (s.live[k].phase == Refused && stamp.None?))
    case Retire(k) => k in s.live && s.live[k].phase == Leaving
    case EditConfig(_) => true
  }

  /** Where a trigger ends up once the guard has given its verdict. */
  function Settle(s: Sys, t: Trigger, forced: bool, v: Verdict): Sys {
    match v
    case DroppedIgnore => s.(ignored := s.ignored + {t})
    case DroppedDebounce => s.(debounced := s.debounced + {t})
    case Held(displaced) =>
      if displaced.Some? then s.(superseded := s.superseded + {displaced.value}) else s
    case Admitted(e) =>
      s.(live := s.live[t.token := Instance(t, e, forced, AwaitingDevice)], log := s.log + [Began(t)])
  }

  function AfterGuard(s: Sys, k: nat, now: int): Sys
    requires Enabled(s, PassGuard(k, now))
  {
    var entry := s.entering[k];
    var (g, v) := Admission(s.guard, entry.cfg, entry.t, now);
    Settle(s.(guard := g, entering := s.entering - {k}), entry.t, entry.cfg.forced, v)
  }

  /** A macro that is neither forced nor already on its workspace and snapshot does not run beside another one. */
  predicate MayRun(s: Sys, k: nat, onTarget: bool)
    requires k in s.live
  {
    onTarget || s.live[k].forced || |s.guard.running| <= 1
  }

  function Apply(s: Sys, step: Step): Sys
    requires Enabled(s, step)
  {
    match step
    case Arrive(t) =>
      s.(entering := s.entering[t.token := Spawned(t)], log := s.log + [Arrived(t)])
    case ReadConfig(k) =>
      var t := s.entering[k].t;
      if t.name in s.config then
        s.(entering := s.entering[k := Configured(t, s.config[t.name])])
      else
        s.(entering := s.entering - {k}, rejected := s.rejected + {t})
    case PassGuard(k, now) =>
      AfterGuard(s, k, now)
    case AcquireDevice(k) =>
      s.(device := Some(k), live := s.live[k := s.live[k].(phase := InDevice)])
    case Decide(k, onTarget) =>
      if MayRun(s, k, onTarget)
      then s.(live := s.live[k := s.live[k].(phase := Running)], ran := s.ran + {s.live[k].t})
      else s.(live := s.live[k := s.live[k].(phase := Refused)], refused := s.refused + {s.live[k].t})
    case ReleaseDevice(k, stamp) =>
      var name := s.live[k].t.name;
      s.(device := None, live := s.live[k := s.live[k].(phase := Leaving)],
         guard := match stamp
                  case Some(at) => s.guard.(lastTrigger := s.guard.lastTrigger[name := at])
                  case None => s.guard)
    case Retire(k) =>
      var (g, refire) := Retirement(s.guard, s.live[k].t.name);
      s.(guard := g, live := s.live - {k},
         entering := match refire
                     case Some(q) => s.entering[q.token := Spawned(q)]
                     case None => s.entering)
    case EditConfig(config) =>
      s.(config := config)
  }

  predicate ValidRun(s: Sys, steps: seq<Step>)
    decreases |steps|
  {
    steps == [] || (Enabled(s, steps[0]) && ValidRun(Apply(s, steps[0]), steps[1..]))
  }

  function Final(s: Sys, steps: seq<Step>): Sys
    requires ValidRun(s, steps)
    decreases |steps|
  {
    if steps == [] then s else Final(Apply(s, steps[0]), steps[1..])
  }

  // ---------------------------------------------------------------------
  // Conservation of triggers, and the suppress counter: any modes, any edits
  // ---------------------------------------------------------------------

  function One(b: bool): nat { if b then 1 else 0 }

  predicate InSlot(s: Sys, t: Trigger) { t.name in s.guard.queued && s.guard.queued[t.name] == t }

  predicate InFlight(s: Sys, t: Trigger) { t.token in s.entering && s.entering[t.token].t == t }

  /** In how many of the places a trigger can be this one is found. */
  function Places(s: Sys, t: Trigger): nat {
    One(Began(t) in s.log) + One(t in s.ignored) + One(t in s.debounced) + One(t in s.superseded)
    + One(t in s.rejected) + One(InSlot(s, t)) + One(InFlight(s, t))
  }

  ghost predicate Conserved(s: Sys) {
    && (forall t: Trigger :: Places(s, t) == One(Arrived(t) in s.log))
    && (forall a: Trigger, b: Trigger :: Arrived(a) in s.log && Arrived(b) in s.log && a.token == b.token ==> a == b)
    && (forall k :: k in s.entering ==> s.entering[k].t.token == k)
    && (forall n :: n in s.guard.queued ==> s.guard.queued[n].name == n)
    && (forall k :: k in s.live ==> s.live[k].t.token == k && Began(s.live[k].t) in s.log)
  }

  /** Every trigger begins at most once. */
  ghost predicate BeginsOnce(log: seq<Event>) {
    forall i, j :: 0 <= i < j < |log| && log[i].Began? && log[j].Began? ==> log[i] != log[j]
  }

  ghost predicate Counted(s: Sys) {
    && s.guard.suppress == |s.live|
    && (forall k :: k in s.live ==> (Holding(s.live[k].phase) <==> s.device == Some(k)))
    && (s.device.Some? ==> s.device.value in s.live)
  }

  ghost predicate Sound(s: Sys) {
    Conserved(s) && BeginsOnce(s.log) && Counted(s)
  }

  lemma ArrivedWhere(s: Sys, t: Trigger)
    requires Conserved(s) && Places(s, t) > 0
    ensures Arrived(t) in s.log && Places(s, t) == 1
  {
    assert Places(s, t) == One(Arrived(t) in s.log);
  }

  /** The trigger a live instance runs has begun, so it is nowhere else. */
  lemma LiveIsNowhereElse(s: Sys, k: nat)
    requires Conserved(s) && k in s.live
    ensures k !in s.entering
  {
    var t := s.live[k].t;
    assert Places(s, t) > 0;
    ArrivedWhere(s, t);
    if k in s.entering {
      var u := s.entering[k].t;
      assert InFlight(s, u);
      ArrivedWhere(s, u);
    }
  }

  /** A held trigger's token is not that of a thread on its way in. */
  lemma HeldIsNotInFlight(s: Sys, n: Name)
    requires Conserved(s) && n in s.guard.queued
    ensures Arrived(s.guard.queued[n]) in s.log && Places(s, s.guard.queued[n]) == 1
    ensures s.guard.queued[n].token !in s.entering
  {
    var q := s.guard.queued[n];
    assert InSlot(s, q);
    ArrivedWhere(s, q);
    if q.token in s.entering {
      var u := s.entering[q.token].t;
      assert InFlight(s, u);
      ArrivedWhere(s, u);
    }
  }

  lemma InFlightArrived(s: Sys, k: nat)
    requires Conserved(s) && k in s.entering
    ensures Arrived(s.entering[k].t) in s.log && Places(s, s.entering[k].t) == 1
  {
    assert InFlight(s, s.entering[k].t);
    ArrivedWhere(s, s.entering[k].t);
  }

  lemma PlacesAfterArrive(s: Sys, t: Trigger, u: Trigger)
    requires Enabled(s, Arrive(t)) && t.token !in s.entering
    requires Places(s, t) == 0
    ensures Places(Apply(s, Arrive(t)), u) == Places(s, u) + One(u == t)
  {}

  lemma ConservedArrive(s: Sys, t: Trigger)
    requires Conserved(s) && Enabled(s, Arrive(t))
    ensures Conserved(Apply(s, Arrive(t)))
  {
    var s' := Apply(s, Arrive(t));
    assert Arrived(t) !in s.log;
    assert Places(s, t) == One(Arrived(t) in s.log);
    if t.token in s.entering {
      InFlightArrived(s, t.token);
    }
    forall u: Trigger ensures Places(s', u) == One(Arrived(u) in s'.log) {
      assert Places(s, u) == One(Arrived(u) in s.log);
      PlacesAfterArrive(s, t, u);
    }
  }

  lemma ConservedReadConfig(s: Sys, k: nat)
    requires Conserved(s) && Enabled(s, ReadConfig(k))
    ensures Conserved(Apply(s, ReadConfig(k)))
  {
    var s' := Apply(s, ReadConfig(k));
    InFlightArrived(s, k);
    forall u: Trigger ensures Places(s', u) == One(Arrived(u) in s'.log) {
      assert Places(s, u) == One(Arrived(u) in s.log);
    }
  }

  /** What the guard can do to its own state. */
  lemma {:induction false} AdmissionCases(g: Guard, cfg: MacroConfig, t: Trigger, now: int)
    ensures var (g', v) := Admission(g, cfg, t, now);
            match v
            case Held(displaced) =>
              && displaced == HeldFor(g, t.name) && t.name in g.running && g'.queued == g.queued[t.name := t]
              && g'.running == g.running && g'.events == g.events && g'.suppress == g.suppress
            case Admitted(e) =>
              && e == g.nextEvent && g'.queued == g.queued && g'.suppress == g.suppress + 1
              && g'.running == g.running + {t.name} && g'.events == g.events[t.name := e]
            case _ => g' == g
  {}

  /** A trigger that leaves the way in appears in exactly one other place. */
  lemma PlacesAfterSettling(s: Sys, s1: Sys, t: Trigger, forced: bool, v: Verdict, u: Trigger)
    requires InFlight(s, t) && Places(s, t) == 1
    requires s1 == s.(guard := s1.guard, entering := s.entering - {t.token})
    requires !v.Held? ==> s1.guard.queued == s.guard.queued
    requires v.Held? ==> s1.guard.queued == s.guard.queued[t.name := t] && v.displaced == HeldFor(s.guard, t.name)
    requires v.Held? && v.displaced.Some? ==> v.displaced.value.name == t.name && Places(s, v.displaced.value) == 1
    ensures Places(Settle(s1, t, forced, v), u) == Places(s, u)
  {
    var s' := Settle(s1, t, forced, v);
    assert InFlight(s', u) <==> InFlight(s, u) && u != t;
    match v
    case Held(displaced) =>
      assert InSlot(s', u) <==> u == t || (InSlot(s, u) && u.name != t.name);
      if displaced.Some? {
        assert InSlot(s, displaced.value);
      }
    case Admitted(_) =>
      assert Began(u) in s'.log <==> Began(u) in s.log || u == t;
    case _ =>
  }

  lemma ConservedPassGuard(s: Sys, k: nat, now: int)
    requires Conserved(s) && Enabled(s, PassGuard(k, now))
    ensures Conserved(AfterGuard(s, k, now))
  {
    var s', t, cfg := AfterGuard(s, k, now), s.entering[k].t, s.entering[k].cfg;
    var (g, v) := Admission(s.guard, cfg, t, now);
    var s1 := s.(guard := g, entering := s.entering - {k});
    AdmissionCases(s.guard, cfg, t, now);
    InFlightArrived(s, k);
    if t.name in s.guard.queued {
      HeldIsNotInFlight(s, t.name);
    }
    assert forall u: Trigger :: Arrived(u) in s'.log <==> Arrived(u) in s.log;
    forall u: Trigger ensures Places(s', u) == One(Arrived(u) in s'.log) {
      assert Places(s, u) == One(Arrived(u) in s.log);
      PlacesAfterSettling(s, s1, t, cfg.forced, v, u);
    }
    forall j | j in s'.live ensures s'.live[j].t.token == j && Began(s'.live[j].t) in s'.log {
      if v.Admitted? && j == k {
        assert s'.log[|s.log|] == Began(t);
      } else {
        assert Began(s.live[j].t) in s.log;
      }
    }
  }

  lemma PlacesAfterRetire(s: Sys, k: nat, u: Trigger)
    requires Conserved(s) && Enabled(s, Retire(k))
    ensures Places(Apply(s, Retire(k)), u) == Places(s, u)
  {
    var name := s.live[k].t.name;
    if name in s.guard.queued {
      HeldIsNotInFlight(s, name);
    }
  }

  lemma ConservedRetire(s: Sys, k: nat)
    requires Conserved(s) && Enabled(s, Retire(k))
    ensures Conserved(Apply(s, Retire(k)))
  {
    var s' := Apply(s, Retire(k));
    forall u: Trigger ensures Places(s', u) == One(Arrived(u) in s'.log) {
      assert Places(s, u) == One(Arrived(u) in s.log);
      PlacesAfterRetire(s, k, u);
    }
  }

  /** Nothing that says where a trigger is differs between the two states. */
  ghost predicate SamePlaces(s: Sys, s': Sys) {
    && s'.log == s.log && s'.guard.queued == s.guard.queued && s'.entering == s.entering
    && s'.ignored == s.ignored && s'.debounced == s.debounced && s'.superseded == s.superseded
    && s'.rejected == s.rejected && s'.live.Keys == s.live.Keys
    && forall k :: k in s.live ==> s'.live[k].t == s.live[k].t
  }

  lemma DeviceMovesNoTrigger(s: Sys, step: Step)
    requires Enabled(s, step)
    requires step.AcquireDevice? || step.Decide? || step.ReleaseDevice? || step.EditConfig?
    ensures SamePlaces(s, Apply(s, step))
  {}

  lemma ConservedElsewhere(s: Sys, s': Sys)
    requires Conserved(s) && SamePlaces(s, s')
    ensures Conserved(s')
  {
    forall u: Trigger ensures Places(s', u) == One(Arrived(u) in s'.log) {
      assert Places(s, u) == One(Arrived(u) in s.log);
    }
  }

  lemma ConservedStep(s: Sys, step: Step)
    requires Conserved(s) && Enabled(s, step)
    ensures Conserved(Apply(s, step))
  {
    match step
    case Arrive(t) => ConservedArrive(s, t);
    case ReadConfig(k) => ConservedReadConfig(s, k);
    case PassGuard(k, now) => ConservedPassGuard(s, k, now);
    case Retire(k) => ConservedRetire(s, k);
    case _ =>
      DeviceMovesNoTrigger(s, step);
      ConservedElsewhere(s, Apply(s, step));
  }

  lemma BeginsOnceStep(s: Sys, step: Step)
    requires Conserved(s) && BeginsOnce(s.log) && Enabled(s, step)
    ensures BeginsOnce(Apply(s, step).log)
  {
    if step.PassGuard? {
      InFlightArrived(s, step.token);
      assert Began(s.entering[step.token].t) !in s.log;
    }
  }

  lemma CountedPassGuard(s: Sys, k: nat, now: int)
    requires Counted(s) && Enabled(s, PassGuard(k, now)) && k !in s.live && s.entering[k].t.token == k
    ensures Counted(AfterGuard(s, k, now))
  {
    var s' := AfterGuard(s, k, now);
    AdmissionCases(s.guard, s.entering[k].cfg, s.entering[k].t, now);
    assert s'.live.Keys == s.live.Keys || s'.live.Keys == s.live.Keys + {k};
  }

  lemma CountedRetire(s: Sys, k: nat)
    requires Counted(s) && Enabled(s, Retire(k))
    ensures Counted(Apply(s, Retire(k)))
  {
    assert s.live.Keys == Apply(s, Retire(k)).live.Keys + {k};
  }

  lemma CountedElsewhere(s: Sys, step: Step)
    requires Counted(s) && Enabled(s, step) && !step.PassGuard? && !step.Retire?
    ensures Counted(Apply(s, step))
  {
    assert Apply(s, step).live.Keys == s.live.Keys;
  }

  lemma CountedStep(s: Sys, step: Step)
    requires Conserved(s) && Counted(s) && Enabled(s, step)
    ensures Counted(Apply(s, step))
  {
    match step
    case PassGuard(k, now) =>
      if k in s.live { LiveIsNowhereElse(s, k); }
      CountedPassGuard(s, k, now);
    case Retire(k) => CountedRetire(s, k);
    case _ => CountedElsewhere(s, step);
  }

  lemma SoundStep(s: Sys, step: Step)
    requires Sound(s) && Enabled(s, step)
    ensures Sound(Apply(s, step))
  {
    ConservedStep(s, step);
    BeginsOnceStep(s, step);
    CountedStep(s, step);
  }

  /** Whatever the modes and edits, every reachable state accounts for every trigger. */
  lemma {:induction false} SoundRun(s: Sys, steps: seq<Step>)
    requires Sound(s) && ValidRun(s, steps)
    ensures Sound(Final(s, steps))
    decreases |steps|
  {
    if steps != [] {
      SoundStep(s, steps[0]);
      SoundRun(Apply(s, steps[0]), steps[1..]);
    }
  }

  lemma InitiallySound(config: map<Name, MacroConfig>)
    ensures Sound(Initial(config))
  {
    var s := Initial(config);
    forall t: Trigger ensures Places(s, t) == One(Arrived(t) in s.log) {}
  }

  /**
   Conservation over whole runs: every trigger that ever arrived is in exactly one place - begun, dropped by
   `ignore`, dropped by the debounce, overwritten in the slot, rejected as unknown, held in the slot, or on its
   way in - and one that never arrived is in none.  It begins at most once.  The suppress counter is the number
   of running instances, so the clip at zero in the clean-up never bites.
  */
  lemma {:induction false} TriggersAreConserved(config: map<Name, MacroConfig>, steps: seq<Step>)
    requires ValidRun(Initial(config), steps)
    ensures var s := Final(Initial(config), steps);
            && (forall t: Trigger :: Places(s, t) == One(Arrived(t) in s.log))
            && BeginsOnce(s.log)
            && s.guard.suppress == |s.live|
            && (forall k :: k in s.live ==> s.guard.suppress > 0)
  {
    InitiallySound(config);
    SoundRun(Initial(config), steps);
    var s := Final(Initial(config), steps);
    if k :| k in s.live {
      assert k in s.live.Keys;
    }
  }

  /** No two instances are ever inside the device section together. */
  lemma OneInstanceHoldsTheDevice(config: map<Name, MacroConfig>, steps: seq<Step>, j: nat, k: nat)
    requires ValidRun(Initial(config), steps)
    requires var live := Final(Initial(config), steps).live;
             j in live && k in live && Holding(live[j].phase) && Holding(live[k].phase)
    ensures j == k
  {
    InitiallySound(config);
    SoundRun(Initial(config), steps);
  }

  // ---------------------------------------------------------------------
  // One instance per name: exactly the recognised fire modes
  // ---------------------------------------------------------------------

  ghost predicate IsLive(s: Sys, n: Name) {
    exists k :: k in s.live && s.live[k].t.name == n
  }

  /** The running set, the cancel events, the live instances and the slot agree about `n`. */
  ghost predicate Exclusive(s: Sys, n: Name) {
    && (forall j, k :: j in s.live && k in s.live && s.live[j].t.name == n && s.live[k].t.name == n ==> j == k)
    && (n in s.guard.running <==> IsLive(s, n))
    && (n in s.guard.events <==> n in s.guard.running)
    && (forall k :: k in s.live && s.live[k].t.name == n && n in s.guard.events ==>
          s.guard.events[n] == s.live[k].event)
    && (n in s.guard.queued ==> n in s.guard.running)
  }

  /** Every configuration a thread can be holding for `n` names one of the three modes. */
  ghost predicate Recognised(s: Sys, n: Name) {
    && (n in s.config ==> s.config[n].mode != Unrecognised)
    && (forall k :: k in s.entering && s.entering[k].Configured? && s.entering[k].t.name == n ==>
          s.entering[k].cfg.mode != Unrecognised)
  }

  predicate EditRecognises(step: Step, n: Name) {
    step.EditConfig? && n in step.config ==> step.config[n].mode != Unrecognised
  }

  lemma RecognisedStep(s: Sys, step: Step, n: Name)
    requires Recognised(s, n) && Enabled(s, step) && EditRecognises(step, n)
    ensures Recognised(Apply(s, step), n)
  {}

  lemma ExclusivePassGuard(s: Sys, k: nat, now: int, n: Name)
    requires Conserved(s) && Recognised(s, n) && Exclusive(s, n) && Enabled(s, PassGuard(k, now))
    ensures Exclusive(AfterGuard(s, k, now), n)
  {
    var s', t := AfterGuard(s, k, now), s.entering[k].t;
    var (g, v) := Admission(s.guard, s.entering[k].cfg, t, now);
    AdmissionCases(s.guard, s.entering[k].cfg, t, now);
    if k in s.live { LiveIsNowhereElse(s, k); }
    if v.Admitted? {
      assert s'.live == s.live[k := Instance(t, v.event, s.entering[k].cfg.forced, AwaitingDevice)];
      if t.name == n {
        assert n !in s.guard.running;
        assert s'.live[k].t.name == n;
      } else if IsLive(s, n) {
        var j :| j in s.live && s.live[j].t.name == n;
        assert s'.live[j].t.name == n;
      }
    } else {
      assert s'.live == s.live;
      assert IsLive(s', n) <==> IsLive(s, n);
    }
  }

  lemma ExclusiveRetire(s: Sys, k: nat, n: Name)
    requires Exclusive(s, n) && Enabled(s, Retire(k))
    ensures Exclusive(Apply(s, Retire(k)), n)
  {
    var s' := Apply(s, Retire(k));
    if s.live[k].t.name != n && IsLive(s, n) {
      var j :| j in s.live && s.live[j].t.name == n;
      assert j in s'.live;
    }
  }

  lemma ExclusiveElsewhere(s: Sys, step: Step, n: Name)
    requires Exclusive(s, n) && Enabled(s, step) && !step.PassGuard? && !step.Retire?
    ensures Exclusive(Apply(s, step), n)
  {
    var s' := Apply(s, step);
    assert s'.live.Keys == s.live.Keys;
    assert forall k :: k in s.live ==> s'.live[k].t == s.live[k].t && s'.live[k].event == s.live[k].event;
    if IsLive(s, n) {
      var j :| j in s.live && s.live[j].t.name == n;
      assert s'.live[j].t.name == n;
    }
  }

  lemma ExclusiveStep(s: Sys, step: Step, n: Name)
    requires Conserved(s) && Recognised(s, n) && Exclusive(s, n) && Enabled(s, step)
    ensures Exclusive(Apply(s, step), n)
  {
    match step
    case PassGuard(k, now) => ExclusivePassGuard(s, k, now, n);
    case Retire(k) => ExclusiveRetire(s, k, n);
    case _ => ExclusiveElsewhere(s, step, n);
  }

  /** The agreement holds over every run whose edits all keep a recognised mode for `n`. */
  lemma {:induction false} ExclusiveRun(s: Sys, steps: seq<Step>, n: Name)
    requires Sound(s) && Recognised(s, n) && Exclusive(s, n) && ValidRun(s, steps)
    requires forall step :: step in steps ==> EditRecognises(step, n)
    ensures Exclusive(Final(s, steps), n)
    decreases |steps|
  {
    if steps != [] {
      assert steps[0] in steps;
      SoundStep(s, steps[0]);
      RecognisedStep(s, steps[0], n);
      ExclusiveStep(s, steps[0], n);
      assert forall step :: step in steps[1..] ==> step in steps;
      ExclusiveRun(Apply(s, steps[0]), steps[1..], n);
    }
  }

  /** Runs are extended at their end. */
  lemma {:induction false} Extend(s: Sys, steps: seq<Step>, step: Step)
    requires ValidRun(s, steps) && Enabled(Final(s, steps), step)
    ensures ValidRun(s, steps + [step])
    ensures Final(s, steps + [step]) == Apply(Final(s, steps), step)
    decreases |steps|
  {
    if steps == [] {
      assert [step][1..] == [];
    } else {
      Extend(Apply(s, steps[0]), steps[1..], step);
      assert (steps + [step])[1..] == steps[1..] + [step];
    }
  }

  predicate NoEdits(steps: seq<Step>) {
    forall step :: step in steps ==> !step.EditConfig?
  }

  ghost predicate AlwaysExclusive(config: map<Name, MacroConfig>) {
    forall steps, n :: ValidRun(Initial(config), steps) && NoEdits(steps) ==>
      Exclusive(Final(Initial(config), steps), n)
  }

  predicate OnlyKnownModes(config: map<Name, MacroConfig>) {
    forall n :: n in config ==> config[n].mode != Unrecognised
  }

  /** One fresh trigger walked to the far side of the guard. */
  lemma {:induction false} WalkIn(config: map<Name, MacroConfig>, steps: seq<Step>, t: Trigger, now: int)
    returns (longer: seq<Step>)
    requires ValidRun(Initial(config), steps) && NoEdits(steps) && t.name in config
    requires Final(Initial(config), steps).config == config
    requires forall e :: e in Final(Initial(config), steps).log ==> e.t.token != t.token
    ensures ValidRun(Initial(config), longer) && NoEdits(longer)
    ensures var s, s' := Final(Initial(config), steps), Final(Initial(config), longer);
            var (g, v) := Admission(s.guard, config[t.name], t, now);
            s' == Settle(s.(guard := g, entering := s.entering - {t.token}, log := s.log + [Arrived(t)]), t,
                         config[t.name].forced, v)
  {
    var s := Final(Initial(config), steps);
    var s1 := Apply(s, Arrive(t));
    var s2 := Apply(s1, ReadConfig(t.token));
    Extend(Initial(config), steps, Arrive(t));
    Extend(Initial(config), steps + [Arrive(t)], ReadConfig(t.token));
    longer := steps + [Arrive(t)] + [ReadConfig(t.token)];
    Extend(Initial(config), longer, PassGuard(t.token, now));
    longer := longer + [PassGuard(t.token, now)];
    assert s2.entering - {t.token} == s.entering - {t.token};
  }

  function FirstCall(n: Name): Trigger { Trigger(0, n, 0.5, None) }
  function SecondCall(n: Name): Trigger { Trigger(1, n, 0.9, None) }

  function Cooldown(cfg: MacroConfig): int { if cfg.debounceMs > 0 then cfg.debounceMs else 0 }

  /** The run every counterexample starts with: one call admitted on an idle system. */
  lemma FirstCallBegins(config: map<Name, MacroConfig>, n: Name) returns (steps: seq<Step>)
    requires n in config
    ensures ValidRun(Initial(config), steps) && NoEdits(steps)
    ensures Final(Initial(config), steps) ==
            Initial(config).(
              guard := INITIAL_GUARD.(running := {n}, events := map[n := 0], suppress := 1, nextEvent := 1),
              live := map[0 := Instance(FirstCall(n), 0, config[n].forced, AwaitingDevice)],
              log := [Arrived(FirstCall(n)), Began(FirstCall(n))])
  {
    assert ValidRun(Initial(config), []);
    steps := WalkIn(config, [], FirstCall(n), Cooldown(config[n]));
    var s := Final(Initial(config), steps);
    assert s.live == map[0 := Instance(FirstCall(n), 0, config[n].forced, AwaitingDevice)];
    assert s.guard.running == {n};
    assert s.log == [Arrived(FirstCall(n)), Began(FirstCall(n))];
  }

  /** An unrecognised mode falls through the guard and starts a second instance beside the first. */
  lemma UnrecognisedModeOverlaps(config: map<Name, MacroConfig>, n: Name) returns (steps: seq<Step>)
    requires n in config && config[n].mode == Unrecognised
    ensures ValidRun(Initial(config), steps) && NoEdits(steps)
    ensures !Exclusive(Final(Initial(config), steps), n)
  {
    steps := FirstCallBegins(config, n);
    steps := WalkIn(config, steps, SecondCall(n), Cooldown(config[n]));
    var s := Final(Initial(config), steps);
    assert s.live[0].t.name == n && s.live[1].t.name == n;
  }

  /** At most one instance per name, over all runs, exactly when every macro's fire mode is one of the three. */
  lemma ExclusiveExactlyForKnownModes(config: map<Name, MacroConfig>)
    ensures AlwaysExclusive(config) <==> OnlyKnownModes(config)
  {
    if OnlyKnownModes(config) {
      forall steps, n | ValidRun(Initial(config), steps) && NoEdits(steps)
        ensures Exclusive(Final(Initial(config), steps), n)
      {
        InitiallySound(config);
        ExclusiveRun(Initial(config), steps, n);
      }
    } else {
      var n :| n in config && config[n].mode == Unrecognised;
      var steps := UnrecognisedModeOverlaps(config, n);
    }
  }

  // ---------------------------------------------------------------------
  // Restart signals the running instance and no other
  // ---------------------------------------------------------------------

  /** Event identities are never reused. */
  ghost predicate FreshEvents(s: Sys) {
    && (forall e :: e in s.guard.signalled ==> e < s.guard.nextEvent)
    && (forall k :: k in s.live ==> s.live[k].event < s.guard.nextEvent)
    && (forall n :: n in s.guard.events ==> s.guard.events[n] < s.guard.nextEvent)
    && (forall j, k :: j in s.live && k in s.live && j != k ==> s.live[j].event != s.live[k].event)
  }

  lemma FreshEventsPassGuard(s: Sys, k: nat, now: int)
    requires FreshEvents(s) && Enabled(s, PassGuard(k, now))
    ensures FreshEvents(AfterGuard(s, k, now))
  {
    var s', t := AfterGuard(s, k, now), s.entering[k].t;
    var (g, v) := Admission(s.guard, s.entering[k].cfg, t, now);
    if v.Admitted? {
      assert s'.live == s.live[t.token := Instance(t, v.event, s.entering[k].cfg.forced, AwaitingDevice)];
    } else {
      assert s'.live == s.live;
    }
  }

  lemma FreshEventsStep(s: Sys, step: Step)
    requires FreshEvents(s) && Enabled(s, step)
    ensures FreshEvents(Apply(s, step))
  {
    if step.PassGuard? {
      FreshEventsPassGuard(s, step.token, step.now);
    }
  }

  lemma {:induction false} FreshEventsRun(s: Sys, steps: seq<Step>)
    requires FreshEvents(s) && ValidRun(s, steps)
    ensures FreshEvents(Final(s, steps))
    decreases |steps|
  {
    if steps != [] {
      FreshEventsStep(s, steps[0]);
      FreshEventsRun(Apply(s, steps[0]), steps[1..]);
    }
  }

  /** `e` is the cancel event of a live instance of `n`, and of no other live instance. */
  ghost predicate EventOfRunning(s: Sys, n: Name, e: EventId) {
    exists j :: j in s.live && s.live[j].t.name == n && s.live[j].event == e
                && (forall m :: m in s.live && m != j ==> s.live[m].event != e)
  }

  lemma NewlySignalled(s: Sys, k: nat, now: int, e: EventId)
    requires FreshEvents(s) && Enabled(s, PassGuard(k, now)) && Exclusive(s, s.entering[k].t.name)
    requires e in AfterGuard(s, k, now).guard.signalled && e !in s.guard.signalled
    ensures s.entering[k].cfg.mode == Restart && EventOfRunning(s, s.entering[k].t.name, e)
  {
    var n := s.entering[k].t.name;
    assert n in s.guard.running && n in s.guard.events && e == s.guard.events[n];
    var j :| j in s.live && s.live[j].t.name == n;
    assert s.live[j].event == e;
  }

  lemma NewRunIsUnsignalled(s: Sys, k: nat, now: int, j: nat)
    requires FreshEvents(s) && Enabled(s, PassGuard(k, now))
    requires j in AfterGuard(s, k, now).live && j !in s.live
    ensures AfterGuard(s, k, now).live[j].event !in AfterGuard(s, k, now).guard.signalled
  {}

  /**
   In a reachable state, a step that signals a cancel event is a `restart` trigger meeting its own macro's live
   instance: the event is that instance's and no other live instance's.  A run that begins in this step begins
   with an event nobody has signalled.
  */
  lemma {:induction false} RestartSignalsTheRunningInstance(config: map<Name, MacroConfig>, steps: seq<Step>, k: nat,
                                                            now: int)
    requires OnlyKnownModes(config) && ValidRun(Initial(config), steps) && NoEdits(steps)
    requires Enabled(Final(Initial(config), steps), PassGuard(k, now))
    ensures var s := Final(Initial(config), steps);
            var s' := AfterGuard(s, k, now);
            && (forall e :: e in s'.guard.signalled && e !in s.guard.signalled ==>
                  s.entering[k].cfg.mode == Restart && EventOfRunning(s, s.entering[k].t.name, e))
            && (forall j :: j in s'.live && j !in s.live ==> s'.live[j].event !in s'.guard.signalled)
  {
    InitiallySound(config);
    FreshEventsRun(Initial(config), steps);
    var s := Final(Initial(config), steps);
    ExclusiveRun(Initial(config), steps, s.entering[k].t.name);
    var s' := AfterGuard(s, k, now);
    forall e | e in s'.guard.signalled && e !in s.guard.signalled
      ensures s.entering[k].cfg.mode == Restart && EventOfRunning(s, s.entering[k].t.name, e)
    {
      NewlySignalled(s, k, now, e);
    }
    forall j | j in s'.live && j !in s.live ensures s'.live[j].event !in s'.guard.signalled {
      NewRunIsUnsignalled(s, k, now, j);
    }
  }

  /** A `restart` call that meets the guard signals the live instance of its name; no other call signals anything. */
  lemma GuardSignals(s: Sys, k: nat, now: int)
    requires FreshEvents(s) && Enabled(s, PassGuard(k, now)) && Exclusive(s, s.entering[k].t.name)
    ensures AfterGuard(s, k, now).guard.signalled == s.guard.signalled
      + set j | j in s.live && s.live[j].t.name == s.entering[k].t.name && s.entering[k].cfg.mode == Restart
          :: s.live[j].event
  {
    var n := s.entering[k].t.name;
    if n in s.guard.running {
      var j :| j in s.live && s.live[j].t.name == n;
      assert s.guard.events[n] == s.live[j].event;
    }
  }

  lemma OnlyTheGuardSignals(s: Sys, step: Step)
    requires Enabled(s, step) && !step.PassGuard?
    ensures Apply(s, step).guard.signalled == s.guard.signalled
    ensures forall j :: j in Apply(s, step).live ==> j in s.live && Apply(s, step).live[j].event == s.live[j].event
  {}

  lemma {:induction false} SplitLast(s: Sys, steps: seq<Step>)
    requires ValidRun(s, steps) && steps != []
    ensures ValidRun(s, steps[..|steps| - 1]) && Enabled(Final(s, steps[..|steps| - 1]), steps[|steps| - 1])
    ensures Final(s, steps) == Apply(Final(s, steps[..|steps| - 1]), steps[|steps| - 1])
    decreases |steps|
  {
    var n := |steps| - 1;
    if n > 0 {
      SplitLast(Apply(s, steps[0]), steps[1..]);
      assert steps[1..][..n - 1] == steps[..n][1..];
    } else {
      assert steps[1..] == [];
    }
  }

  ghost predicate HasBegun(log: seq<Event>, j: nat) { exists t: Trigger :: t.token == j && Began(t) in log }

  lemma BegunIsNotEntering(s: Sys, j: nat)
    requires Conserved(s) && HasBegun(s.log, j)
    ensures j !in s.entering
  {
    var t: Trigger :| t.token == j && Began(t) in s.log;
    assert Places(s, t) > 0;
    ArrivedWhere(s, t);
    if j in s.entering {
      assert InFlight(s, s.entering[j].t);
      ArrivedWhere(s, s.entering[j].t);
    }
  }

  lemma BegunStays(s: Sys, step: Step, j: nat)
    requires Enabled(s, step) && HasBegun(s.log, j)
    ensures HasBegun(Apply(s, step).log, j)
  {
    var t: Trigger :| t.token == j && Began(t) in s.log;
    assert Began(t) in Apply(s, step).log;
  }

  /** What was live at some point of a run has begun for good. */
  lemma {:induction false} LiveHasBegun(config: map<Name, MacroConfig>, steps: seq<Step>, i: nat, j: nat)
    requires ValidRun(Initial(config), steps) && i <= |steps| && ValidRun(Initial(config), steps[..i])
    requires j in Final(Initial(config), steps[..i]).live
    ensures HasBegun(Final(Initial(config), steps).log, j)
    decreases |steps|
  {
    if i == |steps| {
      assert steps[..i] == steps;
      InitiallySound(config);
      SoundRun(Initial(config), steps);
      assert Began(Final(Initial(config), steps).live[j].t) in Final(Initial(config), steps).log;
    } else {
      var init := steps[..|steps| - 1];
      SplitLast(Initial(config), steps);
      assert init[..i] == steps[..i];
      LiveHasBegun(config, init, i, j);
      BegunStays(Final(Initial(config), init), steps[|init|], j);
    }
  }

  /** In this state the step takes a `restart` call of live instance `j`'s macro through the guard. */
  predicate RestartMeets(s: Sys, step: Step, j: nat) {
    && Enabled(s, step) && step.PassGuard? && j in s.live
    && s.entering[step.token].t.name == s.live[j].t.name && s.entering[step.token].cfg.mode == Restart
  }

  /** Step `i` of a run does so. */
  predicate MetAt(config: map<Name, MacroConfig>, steps: seq<Step>, i: nat, j: nat) {
    && i < |steps| && ValidRun(Initial(config), steps[..i])
    && RestartMeets(Final(Initial(config), steps[..i]), steps[i], j)
  }

  predicate Signalled(s: Sys, j: nat)
    requires j in s.live
  {
    s.live[j].event in s.guard.signalled
  }

  lemma SignalledByGuard(s: Sys, k: nat, now: int, j: nat)
    requires Conserved(s) && FreshEvents(s) && Enabled(s, PassGuard(k, now)) && Exclusive(s, s.entering[k].t.name)
    requires j in s.live && k != j
    ensures j in AfterGuard(s, k, now).live
    ensures Signalled(AfterGuard(s, k, now), j) <==> Signalled(s, j) || RestartMeets(s, PassGuard(k, now), j)
  {
    GuardSignals(s, k, now);
    assert AfterGuard(s, k, now).live[j] == s.live[j];
  }

  lemma SignalledNext(s: Sys, step: Step, j: nat)
    requires Conserved(s) && FreshEvents(s) && Enabled(s, step) && j in Apply(s, step).live
    requires step.PassGuard? ==> Exclusive(s, s.entering[step.token].t.name)
    ensures if j in s.live then Signalled(Apply(s, step), j) <==> Signalled(s, j) || RestartMeets(s, step, j)
            else !Signalled(Apply(s, step), j)
  {
    if step.PassGuard? {
      if j in s.live {
        LiveIsNowhereElse(s, j);
        SignalledByGuard(s, step.token, step.now, j);
      } else {
        NewRunIsUnsignalled(s, step.token, step.now, j);
      }
    } else {
      OnlyTheGuardSignals(s, step);
    }
  }

  ghost predicate WasRestarted(config: map<Name, MacroConfig>, steps: seq<Step>, j: nat) {
    exists i :: MetAt(config, steps, i, j)
  }

  lemma {:induction false} RestartedNext(config: map<Name, MacroConfig>, steps: seq<Step>, j: nat)
    requires ValidRun(Initial(config), steps) && steps != []
    ensures var init := steps[..|steps| - 1];
      && ValidRun(Initial(config), init)
      && (WasRestarted(config, steps, j)
          <==> WasRestarted(config, init, j) || RestartMeets(Final(Initial(config), init), steps[|init|], j))
  {
    var init := steps[..|steps| - 1];
    SplitLast(Initial(config), steps);
    forall i: nat | i < |init| ensures MetAt(config, steps, i, j) <==> MetAt(config, init, i, j) {
      assert init[..i] == steps[..i];
    }
    assert MetAt(config, steps, |init|, j) <==> RestartMeets(Final(Initial(config), init), steps[|init|], j);
  }

  /** A call that was restarted while it was live has begun, and so is not on its way in. */
  lemma RestartedIsNotEntering(config: map<Name, MacroConfig>, steps: seq<Step>, j: nat)
    requires ValidRun(Initial(config), steps) && WasRestarted(config, steps, j)
    ensures j !in Final(Initial(config), steps).entering
  {
    var i :| MetAt(config, steps, i, j);
    LiveHasBegun(config, steps, i, j);
    InitiallySound(config);
    SoundRun(Initial(config), steps);
    BegunIsNotEntering(Final(Initial(config), steps), j);
  }

  /** What the guard relies on when the next step of a run is taken. */
  lemma ReachedState(config: map<Name, MacroConfig>, steps: seq<Step>, s: Sys, step: Step)
    requires OnlyKnownModes(config) && ValidRun(Initial(config), steps) && NoEdits(steps)
    requires s == Final(Initial(config), steps) && Enabled(s, step)
    ensures Conserved(s) && FreshEvents(s)
    ensures step.PassGuard? ==> Exclusive(s, s.entering[step.token].t.name)
  {
    InitiallySound(config);
    SoundRun(Initial(config), steps);
    FreshEventsRun(Initial(config), steps);
    if step.PassGuard? { ExclusiveRun(Initial(config), steps, s.entering[step.token].t.name); }
  }

  /** An instance that this step brings to life comes in through the guard. */
  lemma NewComesIn(s: Sys, step: Step, j: nat)
    requires Conserved(s) && Enabled(s, step) && j !in s.live && j in Apply(s, step).live
    ensures j in s.entering
  {
    if step.PassGuard? { assert s.entering[step.token].t.token == step.token; }
  }

  lemma {:induction false} CancelledNext(config: map<Name, MacroConfig>, init: seq<Step>, s: Sys, step: Step, j: nat)
    requires OnlyKnownModes(config) && ValidRun(Initial(config), init) && NoEdits(init)
    requires s == Final(Initial(config), init) && Enabled(s, step) && j in Apply(s, step).live
    requires j in s.live ==> (Signalled(s, j) <==> WasRestarted(config, init, j))
    ensures Signalled(Apply(s, step), j) <==> WasRestarted(config, init, j) || RestartMeets(s, step, j)
  {
    ReachedState(config, init, s, step);
    SignalledNext(s, step, j);
    if j !in s.live {
      NewComesIn(s, step, j);
      if WasRestarted(config, init, j) { RestartedIsNotEntering(config, init, j); }
    }
  }

  /**
   Cancelled is exactly what was restarted: over all runs the cancel event of a live instance is set if and only if a
   `restart` call of its own macro met the guard while it was live.
  */
  lemma {:induction false} CancelledExactlyWhenRestarted(config: map<Name, MacroConfig>, steps: seq<Step>, j: nat)
    requires OnlyKnownModes(config) && ValidRun(Initial(config), steps) && NoEdits(steps)
    requires j in Final(Initial(config), steps).live
    ensures Signalled(Final(Initial(config), steps), j) <==> WasRestarted(config, steps, j)
    decreases |steps|
  {
    if steps != [] {
      SplitLast(Initial(config), steps);
      var init := steps[..|steps| - 1];
      var s := Final(Initial(config), init);
      if j in s.live { CancelledExactlyWhenRestarted(config, init, j); }
      CancelledNext(config, init, s, steps[|init|], j);
      RestartedNext(config, steps, j);
    }
  }

  // ---------------------------------------------------------------------
  // No trigger is left unserved: exactly without `ignore` and without a debounce
  // ---------------------------------------------------------------------

  /** A call of `n` arrived and no run of `n` has begun since. */
  predicate Awaiting(log: seq<Event>, n: Name) {
    log != [] &&
    var last := log[|log| - 1];
    if last.t.name == n then last.Arrived? else Awaiting(log[..|log| - 1], n)
  }

  /** No thread is inside `run_macro`. */
  predicate Quiet(s: Sys) { s.entering == map[] && s.live == map[] }

  ghost predicate Inbound(s: Sys, n: Name) {
    exists k :: k in s.entering && s.entering[k].t.name == n
  }

  ghost predicate Serving(s: Sys, n: Name, cfg: MacroConfig) {
    && n in s.config && s.config[n] == cfg
    && (forall k :: k in s.entering && s.entering[k].Configured? && s.entering[k].t.name == n ==>
          s.entering[k].cfg == cfg)
    && (Awaiting(s.log, n) ==> n in s.guard.queued || Inbound(s, n))
    && (n in s.guard.queued ==> cfg.mode != Unrecognised)
  }

  predicate Patient(cfg: MacroConfig) { cfg.mode != Ignore && cfg.debounceMs <= 0 }

  lemma AwaitingAppend(log: seq<Event>, e: Event, n: Name)
    ensures Awaiting(log + [e], n) == if e.t.name == n then e.Arrived? else Awaiting(log, n)
  {
    assert (log + [e])[..|log|] == log;
  }

  lemma ServingPassGuard(s: Sys, k: nat, now: int, n: Name, cfg: MacroConfig)
    requires Conserved(s) && Serving(s, n, cfg) && Patient(cfg) && Enabled(s, PassGuard(k, now))
    ensures Serving(AfterGuard(s, k, now), n, cfg)
  {
    var s', t := AfterGuard(s, k, now), s.entering[k].t;
    var (g, v) := Admission(s.guard, s.entering[k].cfg, t, now);
    AdmissionCases(s.guard, s.entering[k].cfg, t, now);
    if v.Admitted? {
      AwaitingAppend(s.log, Began(t), n);
    }
    if t.name != n && Inbound(s, n) {
      var j :| j in s.entering && s.entering[j].t.name == n;
      assert j in s'.entering;
    }
  }

  lemma ServingRetire(s: Sys, k: nat, n: Name, cfg: MacroConfig)
    requires Conserved(s) && Serving(s, n, cfg) && Enabled(s, Retire(k))
    ensures Serving(Apply(s, Retire(k)), n, cfg)
  {
    var s', name := Apply(s, Retire(k)), s.live[k].t.name;
    if name in s.guard.queued {
      HeldIsNotInFlight(s, name);
      assert s'.entering[s.guard.queued[name].token].t.name == name;
    }
    if Inbound(s, n) {
      var j :| j in s.entering && s.entering[j].t.name == n;
      assert j in s'.entering;
    }
  }

  lemma ServingArrive(s: Sys, t: Trigger, n: Name, cfg: MacroConfig)
    requires Serving(s, n, cfg) && Enabled(s, Arrive(t)) && t.token !in s.entering
    ensures Serving(Apply(s, Arrive(t)), n, cfg)
  {
    var s' := Apply(s, Arrive(t));
    AwaitingAppend(s.log, Arrived(t), n);
    assert s'.entering[t.token].t == t;
    if Inbound(s, n) {
      var j :| j in s.entering && s.entering[j].t.name == n;
      assert s'.entering[j] == s.entering[j];
    }
  }

  lemma ServingElsewhere(s: Sys, step: Step, n: Name, cfg: MacroConfig)
    requires Serving(s, n, cfg) && Enabled(s, step)
    requires step.ReadConfig? || step.AcquireDevice? || step.Decide? || step.ReleaseDevice?
    ensures Serving(Apply(s, step), n, cfg)
  {
    var s' := Apply(s, step);
    if Inbound(s, n) {
      var j :| j in s.entering && s.entering[j].t.name == n;
      assert j in s'.entering && s'.entering[j].t.name == n;
    }
  }

  lemma ServingStep(s: Sys, step: Step, n: Name, cfg: MacroConfig)
    requires Conserved(s) && Serving(s, n, cfg) && Patient(cfg) && Enabled(s, step) && !step.EditConfig?
    ensures Serving(Apply(s, step), n, cfg)
  {
    match step
    case PassGuard(k, now) => ServingPassGuard(s, k, now, n, cfg);
    case Retire(k) => ServingRetire(s, k, n, cfg);
    case Arrive(t) =>
      if t.token in s.entering { InFlightArrived(s, t.token); }
      ServingArrive(s, t, n, cfg);
    case _ => ServingElsewhere(s, step, n, cfg);
  }

  lemma {:induction false} ServingRun(s: Sys, steps: seq<Step>, n: Name, cfg: MacroConfig)
    requires Sound(s) && Serving(s, n, cfg) && Patient(cfg) && ValidRun(s, steps) && NoEdits(steps)
    ensures Serving(Final(s, steps), n, cfg)
    decreases |steps|
  {
    if steps != [] {
      assert steps[0] in steps;
      SoundStep(s, steps[0]);
      ServingStep(s, steps[0], n, cfg);
      assert forall step :: step in steps[1..] ==> step in steps;
      ServingRun(Apply(s, steps[0]), steps[1..], n, cfg);
    }
  }

  /**
   While the last call of `n` has not led to a run, the slot is full or a thread is on its way in; so a system
   that has gone quiet owes `n` nothing.
  */
  lemma {:induction false} LastTriggerIsServed(config: map<Name, MacroConfig>, steps: seq<Step>, n: Name)
    requires n in config && Patient(config[n])
    requires ValidRun(Initial(config), steps) && NoEdits(steps)
    ensures var s := Final(Initial(config), steps);
            && (Awaiting(s.log, n) ==> n in s.guard.queued || Inbound(s, n))
            && (Quiet(s) ==> !Awaiting(s.log, n))
  {
    InitiallySound(config);
    SoundRun(Initial(config), steps);
    ServingRun(Initial(config), steps, n, config[n]);
    if config[n].mode != Unrecognised {
      ExclusiveRun(Initial(config), steps, n);
    }
  }

  ghost predicate NeverUnserved(config: map<Name, MacroConfig>, n: Name) {
    forall steps :: ValidRun(Initial(config), steps) && NoEdits(steps) ==>
      (Quiet(Final(Initial(config), steps)) ==> !Awaiting(Final(Initial(config), steps).log, n))
  }

  /** An instance that is alone, or on target, takes the device, runs and lets go of it again. */
  lemma {:induction false} UseDevice(config: map<Name, MacroConfig>, steps: seq<Step>, k: nat, onTarget: bool,
                                     stamp: Option<int>)
    returns (longer: seq<Step>)
    requires ValidRun(Initial(config), steps) && NoEdits(steps)
    requires var s := Final(Initial(config), steps);
             && s.device == None && k in s.live && s.live[k].phase == AwaitingDevice
             && (MayRun(s, k, onTarget) || stamp.None?)
    ensures ValidRun(Initial(config), longer) && NoEdits(longer)
    ensures var s, s' := Final(Initial(config), steps), Final(Initial(config), longer);
            s' == s.(live := s.live[k := s.live[k].(phase := Leaving)],
                     guard := if stamp.None? then s.guard
                              else s.guard.(lastTrigger := s.guard.lastTrigger[s.live[k].t.name := stamp.value]),
                     ran := if MayRun(s, k, onTarget) then s.ran + {s.live[k].t} else s.ran,
                     refused := if MayRun(s, k, onTarget) then s.refused else s.refused + {s.live[k].t})
  {
    var s := Final(Initial(config), steps);
    var phase := if MayRun(s, k, onTarget) then Running else Refused;
    Extend(Initial(config), steps, AcquireDevice(k));
    longer := steps + [AcquireDevice(k)];
    var s1 := Final(Initial(config), longer);
    assert MayRun(s1, k, onTarget) == MayRun(s, k, onTarget);
    Extend(Initial(config), longer, Decide(k, onTarget));
    longer := longer + [Decide(k, onTarget)];
    assert Final(Initial(config), longer).live == s.live[k := s.live[k].(phase := phase)];
    Extend(Initial(config), longer, ReleaseDevice(k, stamp));
    longer := longer + [ReleaseDevice(k, stamp)];
    assert Final(Initial(config), longer).live == s.live[k := s.live[k].(phase := Leaving)];
  }

  /** The instance of the first call goes through the device section and retires. */
  lemma {:induction false} WalkOut(config: map<Name, MacroConfig>, steps: seq<Step>, stamp: int)
    returns (longer: seq<Step>)
    requires ValidRun(Initial(config), steps) && NoEdits(steps)
    requires var s := Final(Initial(config), steps);
             && s.device == None && 0 in s.live && s.live[0].phase == AwaitingDevice
             && s.live[0].t.name !in s.guard.queued
    ensures ValidRun(Initial(config), longer) && NoEdits(longer)
    ensures var s, s' := Final(Initial(config), steps), Final(Initial(config), longer);
            && s'.entering == s.entering && s'.live == s.live - {0} && s'.log == s.log && s'.config == s.config
            && s'.guard.running == s.guard.running - {s.live[0].t.name}
            && s'.guard.lastTrigger == s.guard.lastTrigger[s.live[0].t.name := stamp]
  {
    var s := Final(Initial(config), steps);
    longer := UseDevice(config, steps, 0, true, Some(stamp));
    Extend(Initial(config), longer, Retire(0));
    longer := longer + [Retire(0)];
    assert Final(Initial(config), longer).live == s.live - {0};
  }

  /** With `ignore`, a call during a run is lost. */
  lemma IgnoreLosesACall(config: map<Name, MacroConfig>, n: Name) returns (steps: seq<Step>)
    requires n in config && config[n].mode == Ignore
    ensures ValidRun(Initial(config), steps) && NoEdits(steps)
    ensures Quiet(Final(Initial(config), steps)) && Awaiting(Final(Initial(config), steps).log, n)
  {
    steps := FirstCallBegins(config, n);
    steps := WalkIn(config, steps, SecondCall(n), 0);
    var s := Final(Initial(config), steps);
    assert s.log[|s.log| - 1] == Arrived(SecondCall(n));
    steps := WalkOut(config, steps, 0);
  }

  /** With a debounce, a call straight after a completed run is lost, and so is a re-fire. */
  lemma DebounceLosesACall(config: map<Name, MacroConfig>, n: Name) returns (steps: seq<Step>)
    requires n in config && config[n].debounceMs > 0
    ensures ValidRun(Initial(config), steps) && NoEdits(steps)
    ensures Quiet(Final(Initial(config), steps)) && Awaiting(Final(Initial(config), steps).log, n)
  {
    steps := FirstCallBegins(config, n);
    steps := WalkOut(config, steps, 0);
    steps := WalkIn(config, steps, SecondCall(n), 0);
    var s := Final(Initial(config), steps);
    assert s.log[|s.log| - 1] == Arrived(SecondCall(n));
  }

  /** A known macro never goes unserved, over all runs, exactly when it neither ignores nor debounces. */
  lemma ServedExactlyWhenPatient(config: map<Name, MacroConfig>, n: Name)
    requires n in config
    ensures NeverUnserved(config, n) <==> Patient(config[n])
  {
    if Patient(config[n]) {
      forall steps | ValidRun(Initial(config), steps) && NoEdits(steps)
        ensures Quiet(Final(Initial(config), steps)) ==> !Awaiting(Final(Initial(config), steps).log, n)
      {
        LastTriggerIsServed(config, steps, n);
      }
    } else if config[n].mode == Ignore {
      var steps := IgnoreLosesACall(config, n);
    } else {
      var steps := DebounceLosesACall(config, n);
    }
  }

  // ---------------------------------------------------------------------
  // Past the guard is not yet run: a macro beside another one may be refused
  // ---------------------------------------------------------------------

  /** Every call that began is waiting for its decision, has run, or was refused. */
  ghost predicate Decided(s: Sys) {
    forall t :: Began(t) in s.log ==>
      t in s.ran || t in s.refused || (t.token in s.live && s.live[t.token].t == t)
  }

  /** A live instance past its decision has it on record. */
  ghost predicate Recorded(s: Sys) {
    forall k :: k in s.live && !s.live[k].phase.AwaitingDevice? && !s.live[k].phase.InDevice? ==>
      s.live[k].t in s.ran || s.live[k].t in s.refused
  }

  lemma DecidedStep(s: Sys, step: Step)
    requires Conserved(s) && Counted(s) && Decided(s) && Recorded(s) && Enabled(s, step)
    ensures Decided(Apply(s, step)) && Recorded(Apply(s, step))
  {
    match step
    case PassGuard(k, now) =>
      if k in s.live { LiveIsNowhereElse(s, k); }
      DecidedPassGuard(s, k, now);
    case Arrive(t) => DecidedArrive(s, t);
    case Retire(k) => DecidedRetire(s, k);
    case _ => DecidedElsewhere(s, step);
  }

  lemma DecidedArrive(s: Sys, t: Trigger)
    requires Decided(s) && Recorded(s) && Enabled(s, Arrive(t))
    ensures Decided(Apply(s, Arrive(t))) && Recorded(Apply(s, Arrive(t)))
  {
    assert forall u :: Began(u) in Apply(s, Arrive(t)).log ==> Began(u) in s.log;
  }

  lemma DecidedRetire(s: Sys, k: nat)
    requires Decided(s) && Recorded(s) && Enabled(s, Retire(k))
    ensures Decided(Apply(s, Retire(k))) && Recorded(Apply(s, Retire(k)))
  {
    var s' := Apply(s, Retire(k));
    forall t | Began(t) in s'.log
      ensures t in s'.ran || t in s'.refused || (t.token in s'.live && s'.live[t.token].t == t)
    {
      assert Began(t) in s.log;
    }
  }

  lemma DecidedElsewhere(s: Sys, step: Step)
    requires Decided(s) && Recorded(s) && Enabled(s, step)
    requires !step.PassGuard? && !step.Arrive? && !step.Retire?
    ensures Decided(Apply(s, step)) && Recorded(Apply(s, step))
  {
    var s' := Apply(s, step);
    assert s'.log == s.log && s.ran <= s'.ran && s.refused <= s'.refused && s'.live.Keys == s.live.Keys;
    forall t | Began(t) in s'.log
      ensures t in s'.ran || t in s'.refused || (t.token in s'.live && s'.live[t.token].t == t)
    {
      assert Began(t) in s.log;
    }
  }

  lemma DecidedPassGuard(s: Sys, k: nat, now: int)
    requires Conserved(s) && Decided(s) && Recorded(s) && Enabled(s, PassGuard(k, now)) && k !in s.live
    ensures Decided(AfterGuard(s, k, now)) && Recorded(AfterGuard(s, k, now))
  {
    var s', t := AfterGuard(s, k, now), s.entering[k].t;
    var (g, v) := Admission(s.guard, s.entering[k].cfg, t, now);
    if v.Admitted? {
      assert s'.live == s.live[k := Instance(t, v.event, s.entering[k].cfg.forced, AwaitingDevice)];
      assert forall u :: Began(u) in s'.log ==> Began(u) in s.log || u == t;
    } else {
      assert s'.live == s.live && s'.log == s.log;
    }
  }

  lemma {:induction false} DecidedRun(s: Sys, steps: seq<Step>)
    requires Sound(s) && Decided(s) && Recorded(s) && ValidRun(s, steps)
    ensures Decided(Final(s, steps))
    decreases |steps|
  {
    if steps != [] {
      SoundStep(s, steps[0]);
      DecidedStep(s, steps[0]);
      DecidedRun(Apply(s, steps[0]), steps[1..]);
    }
  }

  /** Nothing stands in the way of `n`: its instances are forced, or there is no other macro to run beside. */
  predicate Unhindered(config: map<Name, MacroConfig>, n: Name) {
    n in config && (config[n].forced || config.Keys == {n})
  }

  ghost predicate NotRefused(s: Sys, config: map<Name, MacroConfig>, n: Name)
    requires n in config
  {
    && s.config == config
    && (forall k :: k in s.entering && s.entering[k].Configured? ==>
          s.entering[k].t.name in config && s.entering[k].cfg == config[s.entering[k].t.name])
    && (forall k :: k in s.live && s.live[k].t.name == n ==> s.live[k].forced == config[n].forced)
    && s.guard.running <= config.Keys && (forall t :: t in s.refused ==> t.name != n)
  }

  lemma NotRefusedDecide(s: Sys, k: nat, onTarget: bool, config: map<Name, MacroConfig>, n: Name)
    requires Unhindered(config, n) && NotRefused(s, config, n) && Enabled(s, Decide(k, onTarget))
    ensures NotRefused(Apply(s, Decide(k, onTarget)), config, n)
  {
    if s.live[k].t.name == n && !config[n].forced { SubsetOfOne(s.guard.running, n); }
  }

  lemma SubsetOfOne(names: set<Name>, n: Name)
    requires names <= {n}
    ensures |names| <= 1
  {
    if n in names { assert names == {n}; } else { assert names == {}; }
  }

  lemma NotRefusedStep(s: Sys, step: Step, config: map<Name, MacroConfig>, n: Name)
    requires Conserved(s) && Unhindered(config, n) && NotRefused(s, config, n) && Enabled(s, step)
    requires !step.EditConfig?
    ensures NotRefused(Apply(s, step), config, n)
  {
    match step
    case Decide(k, onTarget) => NotRefusedDecide(s, k, onTarget, config, n);
    case PassGuard(k, now) => NotRefusedPassGuard(s, k, now, config, n);
    case _ =>
  }

  lemma NotRefusedPassGuard(s: Sys, k: nat, now: int, config: map<Name, MacroConfig>, n: Name)
    requires n in config && NotRefused(s, config, n) && Enabled(s, PassGuard(k, now)) && s.entering[k].t.token == k
    ensures NotRefused(AfterGuard(s, k, now), config, n)
  {
    AdmissionCases(s.guard, s.entering[k].cfg, s.entering[k].t, now);
  }

  lemma {:induction false} NotRefusedRun(s: Sys, steps: seq<Step>, config: map<Name, MacroConfig>, n: Name)
    requires Sound(s) && Unhindered(config, n) && NotRefused(s, config, n) && ValidRun(s, steps) && NoEdits(steps)
    ensures NotRefused(Final(s, steps), config, n)
    decreases |steps|
  {
    if steps != [] {
      assert steps[0] in steps;
      SoundStep(s, steps[0]);
      NotRefusedStep(s, steps[0], config, n);
      assert forall step :: step in steps[1..] ==> step in steps;
      NotRefusedRun(Apply(s, steps[0]), steps[1..], config, n);
    }
  }

  /** The last call of `n` that began. */
  function LastBegun(log: seq<Event>, n: Name): (t: Option<Trigger>)
    ensures t.Some? ==> Began(t.value) in log && t.value.name == n
    decreases |log|
  {
    if log == [] then None
    else
      var last := log[|log| - 1];
      if last.Began? && last.t.name == n then Some(last.t) else LastBegun(log[..|log| - 1], n)
  }

  /** No call of `n` arrived after its last begin, and what began last also ran. */
  ghost predicate Done(s: Sys, n: Name) {
    !Awaiting(s.log, n) && (LastBegun(s.log, n).Some? ==> LastBegun(s.log, n).value in s.ran)
  }

  ghost predicate NeverLeftUndone(config: map<Name, MacroConfig>, n: Name) {
    forall steps :: ValidRun(Initial(config), steps) && NoEdits(steps) && Quiet(Final(Initial(config), steps)) ==>
      Done(Final(Initial(config), steps), n)
  }

  lemma {:induction false} LastTriggerRuns(config: map<Name, MacroConfig>, steps: seq<Step>, n: Name)
    requires Unhindered(config, n) && Patient(config[n])
    requires ValidRun(Initial(config), steps) && NoEdits(steps) && Quiet(Final(Initial(config), steps))
    ensures Done(Final(Initial(config), steps), n)
  {
    InitiallySound(config);
    LastTriggerIsServed(config, steps, n);
    DecidedRun(Initial(config), steps);
    NotRefusedRun(Initial(config), steps, config, n);
  }

  lemma LastBegunSnoc(log: seq<Event>, e: Event, n: Name)
    ensures LastBegun(log + [e], n) == if e.Began? && e.t.name == n then Some(e.t) else LastBegun(log, n)
  {
    assert (log + [e])[..|log|] == log;
  }

  lemma LastBegunOfTwo(n: Name, first: Event, mine: Trigger, other: Trigger)
    requires mine.name == n && other.name != n
    ensures LastBegun([first, Began(mine), Arrived(other), Began(other)], n) == Some(mine)
  {
    LastBegunSnoc([first], Began(mine), n);
    assert [first] + [Began(mine)] == [first, Began(mine)];
    LastBegunSnoc([first, Began(mine)], Arrived(other), n);
    assert [first, Began(mine)] + [Arrived(other)] == [first, Began(mine), Arrived(other)];
    LastBegunSnoc([first, Began(mine), Arrived(other)], Began(other), n);
    assert [first, Began(mine), Arrived(other)] + [Began(other)] == [first, Began(mine), Arrived(other), Began(other)];
  }

  function OtherCall(m: Name): Trigger { Trigger(1, m, 0.5, None) }

  /** Two instances of different macros, both admitted; the first takes the device and is refused, then both leave. */
  lemma {:induction false} NeighbourRefusesACall(config: map<Name, MacroConfig>, n: Name, m: Name)
    returns (steps: seq<Step>)
    requires n in config && m in config && m != n && !config[n].forced
    ensures ValidRun(Initial(config), steps) && NoEdits(steps)
    ensures var s := Final(Initial(config), steps);
            && Quiet(s) && LastBegun(s.log, n) == Some(FirstCall(n))
            && FirstCall(n) in s.refused && s.ran == {OtherCall(m)}
  {
    steps := FirstCallBegins(config, n);
    steps := WalkIn(config, steps, OtherCall(m), Cooldown(config[m]));
    var s := Final(Initial(config), steps);
    var log := [Arrived(FirstCall(n)), Began(FirstCall(n)), Arrived(OtherCall(m)), Began(OtherCall(m))];
    assert s.guard.running == {n, m} && s.log == log && s.live.Keys == {0, 1};
    LastBegunOfTwo(n, Arrived(FirstCall(n)), FirstCall(n), OtherCall(m));
    steps := LeaveTogether(config, steps);
  }

  lemma {:induction false} LeaveTogether(config: map<Name, MacroConfig>, steps: seq<Step>) returns (longer: seq<Step>)
    requires ValidRun(Initial(config), steps) && NoEdits(steps)
    requires var s := Final(Initial(config), steps);
             && s.device == None && s.live.Keys == {0, 1} && |s.guard.running| > 1 && !s.live[0].forced
             && s.live[0].phase == AwaitingDevice && s.live[1].phase == AwaitingDevice
             && s.guard.queued == map[] && s.entering == map[]
    ensures ValidRun(Initial(config), longer) && NoEdits(longer)
    ensures var s, s' := Final(Initial(config), steps), Final(Initial(config), longer);
            && Quiet(s') && s'.log == s.log && s.live[0].t in s'.refused && s'.ran == s.ran + {s.live[1].t}
  {
    longer := UseDevice(config, steps, 0, false, None);
    longer := UseDevice(config, longer, 1, true, None);
    Extend(Initial(config), longer, Retire(0));
    longer := longer + [Retire(0)];
    Extend(Initial(config), longer, Retire(1));
    longer := longer + [Retire(1)];
    assert Final(Initial(config), longer).live == map[];
  }

  /**
   The last call of a macro has run whenever the system goes quiet, over all runs, exactly when the macro neither
   ignores nor debounces and nothing hinders it: it forces its switch, or it is the only macro there is.
  */
  lemma RunExactlyWhenPatientAndUnhindered(config: map<Name, MacroConfig>, n: Name)
    requires n in config
    ensures NeverLeftUndone(config, n) <==> Patient(config[n]) && Unhindered(config, n)
  {
    if !Patient(config[n]) {
      if config[n].mode == Ignore {
        var steps := IgnoreLosesACall(config, n);
      } else {
        var steps := DebounceLosesACall(config, n);
      }
    } else if Unhindered(config, n) {
      forall steps | ValidRun(Initial(config), steps) && NoEdits(steps) && Quiet(Final(Initial(config), steps))
        ensures Done(Final(Initial(config), steps), n)
      {
        LastTriggerRuns(config, steps, n);
      }
    } else {
      var m :| m in config && m != n;
      var steps := NeighbourRefusesACall(config, n, m);
    }
  }

  // ---------------------------------------------------------------------
  // How long the debounce window is, and who runs beside others
  // ---------------------------------------------------------------------

  /** When a run of `n` was last stamped as complete on the way from `s`, or `before`. */
  function LastStamp(s: Sys, steps: seq<Step>, n: Name, before: int): int
    requires ValidRun(s, steps)
    decreases |steps|
  {
    if steps == [] then before
    else
      var stamped := steps[0].ReleaseDevice? && steps[0].stamp.Some? && s.live[steps[0].token].t.name == n;
      LastStamp(Apply(s, steps[0]), steps[1..], n, if stamped then steps[0].stamp.value else before)
  }

  lemma StampNext(s: Sys, step: Step, n: Name)
    requires Enabled(s, step)
    ensures LastTrigger(Apply(s, step).guard, n) ==
      if step.ReleaseDevice? && step.stamp.Some? && s.live[step.token].t.name == n then step.stamp.value
      else LastTrigger(s.guard, n)
  {}

  lemma {:induction false} StampsAreKept(s: Sys, steps: seq<Step>, n: Name)
    requires ValidRun(s, steps)
    ensures LastTrigger(Final(s, steps).guard, n) == LastStamp(s, steps, n, LastTrigger(s.guard, n))
    decreases |steps|
  {
    if steps != [] {
      StampNext(s, steps[0], n);
      StampsAreKept(Apply(s, steps[0]), steps[1..], n);
    }
  }

  /**
   A call of a macro with no live instance is dropped if and only if it comes less than the configured milliseconds
   after the macro's last completed run; otherwise it begins.
  */
  lemma {:induction false} DebouncedExactlyInItsWindow(config: map<Name, MacroConfig>, steps: seq<Step>, k: nat,
                                                       now: int)
    requires OnlyKnownModes(config) && ValidRun(Initial(config), steps) && NoEdits(steps)
    requires var s := Final(Initial(config), steps);
      Enabled(s, PassGuard(k, now)) && !IsLive(s, s.entering[k].t.name)
    ensures var s, s' := Final(Initial(config), steps), AfterGuard(Final(Initial(config), steps), k, now);
      var t, window := s.entering[k].t, s.entering[k].cfg.debounceMs;
      if window > 0 && now - LastStamp(Initial(config), steps, t.name, 0) < window
      then t in s'.debounced && s'.live == s.live && s'.log == s.log
      else k in s'.live && s'.live[k].t == t && s'.log == s.log + [Began(t)] && s'.debounced == s.debounced
  {
    var s := Final(Initial(config), steps);
    ReachedState(config, steps, s, PassGuard(k, now));
    StampsAreKept(Initial(config), steps, s.entering[k].t.name);
    GuardDebounces(s, k, now);
  }

  lemma GuardDebounces(s: Sys, k: nat, now: int)
    requires Conserved(s) && Enabled(s, PassGuard(k, now)) && s.entering[k].t.name !in s.guard.running
    ensures var s', t, window := AfterGuard(s, k, now), s.entering[k].t, s.entering[k].cfg.debounceMs;
      if window > 0 && now - LastTrigger(s.guard, t.name) < window
      then t in s'.debounced && s'.live == s.live && s'.log == s.log
      else k in s'.live && s'.live[k].t == t && s'.log == s.log + [Began(t)] && s'.debounced == s.debounced
  {}

  lemma OneNameRuns(s: Sys, n: Name)
    requires n in s.guard.running
    ensures |s.guard.running| <= 1 <==> forall m :: m in s.guard.running ==> m == n
  {
    if forall m :: m in s.guard.running ==> m == n {
      assert s.guard.running == {n};
    } else {
      var m :| m in s.guard.running && m != n;
      var rest := s.guard.running - {n};
      assert m in rest && |s.guard.running| == |rest| + 1;
      assert |rest| > 0;
    }
  }

  /** No instance of another macro than `n` is live. */
  ghost predicate AloneLive(s: Sys, n: Name) { forall j :: j in s.live ==> s.live[j].t.name == n }

  ghost predicate LiveRegistered(s: Sys) { forall m: Name :: m in s.guard.running <==> IsLive(s, m) }

  lemma AloneByCount(s: Sys, k: nat)
    requires k in s.live && LiveRegistered(s)
    ensures |s.guard.running| <= 1 <==> AloneLive(s, s.live[k].t.name)
  {
    var n := s.live[k].t.name;
    assert IsLive(s, n);
    OneNameRuns(s, n);
    if !AloneLive(s, n) {
      var j :| j in s.live && s.live[j].t.name != n;
      assert IsLive(s, s.live[j].t.name);
    }
  }

  lemma {:induction false} LiveIsRegistered(config: map<Name, MacroConfig>, steps: seq<Step>)
    requires OnlyKnownModes(config) && ValidRun(Initial(config), steps) && NoEdits(steps)
    ensures LiveRegistered(Final(Initial(config), steps))
  {
    var s := Final(Initial(config), steps);
    InitiallySound(config);
    forall m ensures m in s.guard.running <==> IsLive(s, m) { ExclusiveRun(Initial(config), steps, m); }
  }

  /**
   An instance whose turn it is runs if and only if the device is on its workspace and snapshot already, its switch was
   configured to be forced, or no instance of another macro is live; otherwise it is refused.
  */
  lemma {:induction false} RunsExactlyWhenAllowed(config: map<Name, MacroConfig>, steps: seq<Step>, k: nat,
                                                  onTarget: bool)
    requires OnlyKnownModes(config) && ValidRun(Initial(config), steps) && NoEdits(steps)
    requires Enabled(Final(Initial(config), steps), Decide(k, onTarget))
    ensures var s := Final(Initial(config), steps);
      var s', t := Apply(s, Decide(k, onTarget)), s.live[k].t;
      if onTarget || s.live[k].forced || AloneLive(s, t.name)
      then t in s'.ran && s'.refused == s.refused && s'.live[k].phase == Running
      else t in s'.refused && s'.ran == s.ran && s'.live[k].phase == Refused
  {
    LiveIsRegistered(config, steps);
    AloneByCount(Final(Initial(config), steps), k);
  }

  // ---------------------------------------------------------------------
  // Which of two held calls wins: the newer, exactly where none is ever held
  // ---------------------------------------------------------------------

  predicate Holds(mode: FireMode) { mode == Queue || mode == Restart }

  ghost predicate ArrivedBefore(log: seq<Event>, a: Trigger, b: Trigger) {
    exists i, j :: 0 <= i < j < |log| && log[i] == Arrived(a) && log[j] == Arrived(b)
  }

  /** The step takes the slot of `n` from the call in it, which is lost, and gives it to one that had arrived before. */
  ghost predicate Overwrites(s: Sys, step: Step, n: Name) {
    && n in s.guard.queued && Enabled(s, step)
    && var s' := Apply(s, step);
       && s.guard.queued[n] in s'.superseded && n in s'.guard.queued
       && ArrivedBefore(s.log, s'.guard.queued[n], s.guard.queued[n])
  }

  ghost predicate NewestAlwaysWins(config: map<Name, MacroConfig>, n: Name) {
    forall steps, step :: ValidRun(Initial(config), steps) && NoEdits(steps) ==>
      !Overwrites(Final(Initial(config), steps), step, n)
  }

  /** The first call retires with the second one in the slot, which is thereby sent back in. */
  lemma {:induction false} SendBack(config: map<Name, MacroConfig>, steps: seq<Step>, n: Name)
    returns (longer: seq<Step>)
    requires ValidRun(Initial(config), steps) && NoEdits(steps)
    requires var s := Final(Initial(config), steps);
             && s.device == None && s.live.Keys == {0} && s.live[0].t == FirstCall(n)
             && s.live[0].phase == AwaitingDevice && s.guard.lastTrigger == map[]
             && s.guard.queued == map[n := SecondCall(n)] && s.entering == map[] && s.guard.running == {n}
    ensures ValidRun(Initial(config), longer) && NoEdits(longer)
    ensures var s, s' := Final(Initial(config), steps), Final(Initial(config), longer);
            && s'.entering == map[1 := Spawned(SecondCall(n))] && s'.log == s.log
            && s'.config == s.config && s'.guard.running == {} && s'.guard.queued == map[]
            && s'.guard.lastTrigger == map[]
  {
    longer := UseDevice(config, steps, 0, true, None);
    Extend(Initial(config), longer, Retire(0));
    longer := longer + [Retire(0)];
  }

  function ThirdCall(n: Name): Trigger { Trigger(2, n, 0.0, None) }
  function FourthCall(n: Name): Trigger { Trigger(3, n, 0.0, None) }

  /** While the second call is on its way back in, a third call begins. */
  lemma {:induction false} Overtake(config: map<Name, MacroConfig>, steps: seq<Step>, n: Name)
    returns (longer: seq<Step>)
    requires n in config && ValidRun(Initial(config), steps) && NoEdits(steps)
    requires var s := Final(Initial(config), steps);
             && s.config == config && s.entering == map[1 := Spawned(SecondCall(n))]
             && s.guard.running == {} && s.guard.queued == map[] && s.guard.lastTrigger == map[]
             && (forall e :: e in s.log ==> e.t.token < 2) && Arrived(SecondCall(n)) in s.log
    ensures ValidRun(Initial(config), longer) && NoEdits(longer)
    ensures var s := Final(Initial(config), longer);
            && s.config == config && s.entering == map[1 := Spawned(SecondCall(n))]
            && n in s.guard.running && s.guard.queued == map[]
            && (forall e :: e in s.log ==> e.t.token < 3) && Arrived(SecondCall(n)) in s.log
  {
    var s := Final(Initial(config), steps);
    longer := WalkIn(config, steps, ThirdCall(n), Cooldown(config[n]));
    var s' := Final(Initial(config), longer);
    assert s'.entering == s.entering;
    assert s'.log == s.log + [Arrived(ThirdCall(n))] + [Began(ThirdCall(n))];
  }

  /** And a fourth takes the slot. */
  lemma {:induction false} TakeSlot(config: map<Name, MacroConfig>, steps: seq<Step>, n: Name)
    returns (longer: seq<Step>)
    requires n in config && Holds(config[n].mode) && ValidRun(Initial(config), steps) && NoEdits(steps)
    requires var s := Final(Initial(config), steps);
             && s.config == config && s.entering == map[1 := Spawned(SecondCall(n))]
             && n in s.guard.running && s.guard.queued == map[]
             && (forall e :: e in s.log ==> e.t.token < 3) && Arrived(SecondCall(n)) in s.log
    ensures ValidRun(Initial(config), longer) && NoEdits(longer)
    ensures var s := Final(Initial(config), longer);
            && s.config == config && s.entering == map[1 := Spawned(SecondCall(n))]
            && n in s.guard.running && s.guard.queued == map[n := FourthCall(n)]
            && ArrivedBefore(s.log, SecondCall(n), FourthCall(n))
  {
    var s := Final(Initial(config), steps);
    longer := WalkIn(config, steps, FourthCall(n), 0);
    var s' := Final(Initial(config), longer);
    assert s'.log == s.log + [Arrived(FourthCall(n))] && s'.entering == s.entering;
    LaterArrival(s.log, SecondCall(n), FourthCall(n));
  }

  lemma LaterArrival(log: seq<Event>, a: Trigger, b: Trigger)
    requires Arrived(a) in log
    ensures ArrivedBefore(log + [Arrived(b)], a, b)
  {
    var i :| 0 <= i < |log| && log[i] == Arrived(a);
    var longer := log + [Arrived(b)];
    assert longer[i] == Arrived(a) && longer[|log|] == Arrived(b);
  }

  /** The second call comes back to the guard. */
  lemma {:induction false} ComeBack(config: map<Name, MacroConfig>, steps: seq<Step>, n: Name)
    returns (longer: seq<Step>)
    requires n in config && Holds(config[n].mode)
    requires ValidRun(Initial(config), steps) && NoEdits(steps)
    requires var s := Final(Initial(config), steps);
             && s.config == config && s.entering == map[1 := Spawned(SecondCall(n))]
             && n in s.guard.running && s.guard.queued == map[n := FourthCall(n)]
    ensures ValidRun(Initial(config), longer) && NoEdits(longer)
    ensures var s, s' := Final(Initial(config), steps), Final(Initial(config), longer);
            s' == s.(entering := map[1 := Configured(SecondCall(n), config[n])])
  {
    Extend(Initial(config), steps, ReadConfig(1));
    longer := steps + [ReadConfig(1)];
  }

  /**
   The newest call does not always win the slot.  A first call runs and a second is held; when the first retires
   the second is sent back in, but a third call gets through the guard before it and a fourth is held; the
   returning second call then overwrites the fourth.
  */
  lemma {:induction false} NewestCallCanBeOverwritten(config: map<Name, MacroConfig>, n: Name)
    returns (steps: seq<Step>, last: Step)
    requires n in config && Holds(config[n].mode)
    ensures ValidRun(Initial(config), steps) && NoEdits(steps)
    ensures Overwrites(Final(Initial(config), steps), last, n)
  {
    steps := FirstCallBegins(config, n);
    var s0 := Final(Initial(config), steps);
    steps := WalkIn(config, steps, SecondCall(n), 0);
    var s1 := Final(Initial(config), steps);
    assert s1.entering == map[] && s1.live == s0.live && s1.guard.queued == map[n := SecondCall(n)];
    assert s1.log == s0.log + [Arrived(SecondCall(n))];
    assert s1.log[|s0.log|] == Arrived(SecondCall(n));
    steps := SendBack(config, steps, n);
    steps := Overtake(config, steps, n);
    steps := TakeSlot(config, steps, n);
    steps := ComeBack(config, steps, n);
    last := PassGuard(1, 0);
  }

  /** Every configuration that counts for `n` is the one it started with. */
  ghost predicate ConfigKept(s: Sys, n: Name, cfg: MacroConfig) {
    && n in s.config && s.config[n] == cfg
    && (forall k :: k in s.entering && s.entering[k].Configured? && s.entering[k].t.name == n ==>
          s.entering[k].cfg == cfg)
  }

  lemma ConfigKeptStep(s: Sys, step: Step, n: Name, cfg: MacroConfig)
    requires ConfigKept(s, n, cfg) && Enabled(s, step) && !step.EditConfig?
    ensures ConfigKept(Apply(s, step), n, cfg)
  {}

  lemma {:induction false} ConfigKeptRun(s: Sys, steps: seq<Step>, n: Name, cfg: MacroConfig)
    requires ConfigKept(s, n, cfg) && ValidRun(s, steps) && NoEdits(steps)
    ensures ConfigKept(Final(s, steps), n, cfg)
    decreases |steps|
  {
    if steps != [] {
      assert steps[0] in steps;
      ConfigKeptStep(s, steps[0], n, cfg);
      assert forall step :: step in steps[1..] ==> step in steps;
      ConfigKeptRun(Apply(s, steps[0]), steps[1..], n, cfg);
    }
  }

  /** Thread `k` is on its way to the guard with a call of `n` older than the one held. */
  ghost predicate Overtaken(s: Sys, k: nat, n: Name) {
    && n in s.guard.queued && k in s.entering && s.entering[k].t.name == n
    && ArrivedBefore(s.log, s.entering[k].t, s.guard.queued[n])
  }

  /** Thread `k` overwrites a newer call next: it reads the configuration, unless it has, and passes the guard. */
  ghost predicate OverwritesNext(s: Sys, k: nat, now: int, n: Name) {
    if Enabled(s, ReadConfig(k)) then Overwrites(Apply(s, ReadConfig(k)), PassGuard(k, now), n)
    else Overwrites(s, PassGuard(k, now), n)
  }

  lemma HeldIsNotSuperseded(s: Sys, n: Name)
    requires Conserved(s) && n in s.guard.queued
    ensures s.guard.queued[n] !in s.superseded
  {
    assert InSlot(s, s.guard.queued[n]);
    assert Places(s, s.guard.queued[n]) == One(Arrived(s.guard.queued[n]) in s.log);
  }

  lemma GuardOverwrites(s: Sys, k: nat, now: int, n: Name, cfg: MacroConfig)
    requires Conserved(s) && Exclusive(s, n) && ConfigKept(s, n, cfg) && Holds(cfg.mode)
    requires Enabled(s, PassGuard(k, now))
    ensures Overwrites(s, PassGuard(k, now), n) <==> Overtaken(s, k, n)
  {
    var t := s.entering[k].t;
    AdmissionCases(s.guard, s.entering[k].cfg, t, now);
    if t.name != n && n in s.guard.queued {
      HeldIsNotSuperseded(s, n);
    }
  }

  lemma OnlyTheGuardOverwrites(s: Sys, step: Step, n: Name)
    requires Conserved(s) && Overwrites(s, step, n)
    ensures step.PassGuard?
  {
    HeldIsNotSuperseded(s, n);
  }

  /**
   When exactly a call is overwritten by an older one, over all runs of a mode that holds calls: an older call of the
   same macro, fresh or sent back in, is on its way to the guard while the newer one is held.  Then its next steps do
   it, whatever the clock says, and nothing else ever does.
  */
  lemma {:induction false} OverwrittenExactlyWhenOvertaken(config: map<Name, MacroConfig>, steps: seq<Step>, n: Name)
    requires n in config && Holds(config[n].mode) && ValidRun(Initial(config), steps) && NoEdits(steps)
    ensures var s := Final(Initial(config), steps);
      && (forall k, now :: OverwritesNext(s, k, now, n) <==> Overtaken(s, k, n))
      && (forall step :: Overwrites(s, step, n) ==> step.PassGuard? && Overtaken(s, step.token, n))
  {
    var s := Final(Initial(config), steps);
    InitiallySound(config);
    SoundRun(Initial(config), steps);
    ExclusiveRun(Initial(config), steps, n);
    ConfigKeptRun(Initial(config), steps, n, config[n]);
    forall k, now ensures OverwritesNext(s, k, now, n) <==> Overtaken(s, k, n) {
      NextOverwrites(s, k, now, n, config[n]);
    }
    forall step | Overwrites(s, step, n) ensures step.PassGuard? && Overtaken(s, step.token, n) {
      OnlyTheGuardOverwrites(s, step, n);
      GuardOverwrites(s, step.token, step.now, n, config[n]);
    }
  }

  lemma NextOverwrites(s: Sys, k: nat, now: int, n: Name, cfg: MacroConfig)
    requires Sound(s) && Exclusive(s, n) && ConfigKept(s, n, cfg) && Holds(cfg.mode)
    ensures OverwritesNext(s, k, now, n) <==> Overtaken(s, k, n)
  {
    if Enabled(s, ReadConfig(k)) {
      var s' := Apply(s, ReadConfig(k));
      SoundStep(s, ReadConfig(k));
      ExclusiveElsewhere(s, ReadConfig(k), n);
      ConfigKeptStep(s, ReadConfig(k), n, cfg);
      if k in s'.entering { GuardOverwrites(s', k, now, n, cfg); }
    } else if k in s.entering {
      GuardOverwrites(s, k, now, n, cfg);
    }
  }

  /** Without a holding mode nothing of `n` is ever in the slot. */
  ghost predicate NeverHeld(s: Sys, n: Name, cfg: MacroConfig) { ConfigKept(s, n, cfg) && n !in s.guard.queued }

  lemma NeverHeldStep(s: Sys, step: Step, n: Name, cfg: MacroConfig)
    requires NeverHeld(s, n, cfg) && !Holds(cfg.mode) && Enabled(s, step) && !step.EditConfig?
    ensures NeverHeld(Apply(s, step), n, cfg)
  {
    ConfigKeptStep(s, step, n, cfg);
    if step.PassGuard? { AdmissionCases(s.guard, s.entering[step.token].cfg, s.entering[step.token].t, step.now); }
  }

  lemma {:induction false} NeverHeldRun(s: Sys, steps: seq<Step>, n: Name, cfg: MacroConfig)
    requires NeverHeld(s, n, cfg) && !Holds(cfg.mode) && ValidRun(s, steps) && NoEdits(steps)
    ensures NeverHeld(Final(s, steps), n, cfg)
    decreases |steps|
  {
    if steps != [] {
      assert steps[0] in steps;
      NeverHeldStep(s, steps[0], n, cfg);
      assert forall step :: step in steps[1..] ==> step in steps;
      NeverHeldRun(Apply(s, steps[0]), steps[1..], n, cfg);
    }
  }

  /** Over all runs no older call takes the slot from a newer one, exactly when the mode holds no call at all. */
  lemma NewestWinsExactlyWithoutASlot(config: map<Name, MacroConfig>, n: Name)
    requires n in config
    ensures NewestAlwaysWins(config, n) <==> !Holds(config[n].mode)
  {
    if Holds(config[n].mode) {
      var steps, last := NewestCallCanBeOverwritten(config, n);
    } else {
      forall steps, step | ValidRun(Initial(config), steps) && NoEdits(steps)
        ensures !Overwrites(Final(Initial(config), steps), step, n)
      {
        NeverHeldRun(Initial(config), steps, n, config[n]);
      }
    }
  }
}
