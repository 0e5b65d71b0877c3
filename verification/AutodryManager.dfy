/** The objects auto-dry mutates: debounce buffer, in-memory state, one machine per ACE. */
module AutodryManager {
  import opened Wrappers
  import opened Recipes
  import opened AutodryFsm
  import opened AutodryRuns
  import opened AutodryStore

  class DebounceBuffer {
    const required: nat
    var count: nat

    ghost predicate Valid()
      reads this
    {
      required >= 1 && count <= required
    }

    constructor (required: nat)
      requires required >= 1
      ensures Valid() && this.required == required && count == 0
    {
      this.required := required;
      count := 0;
    }

    method ObserveAbove()
      requires Valid()
      modifies this
      ensures Valid() && count == if old(count) < required then old(count) + 1 else required
    {
      count := if count + 1 <= required then count + 1 else required;
    }

    method ObserveBelow()
      requires Valid()
      modifies this
      ensures Valid() && count == 0
    {
      count := 0;
    }

    predicate IsAboveThreshold()
      reads this
    {
      count >= required
    }
  }

  class Ephemeral {
    const debounce: DebounceBuffer
    var started: real
    var startRh: real
    var temp: Option<int>
    var duration: Option<int>
    var skipped: map<string, real>

    ghost predicate Valid()
      reads this, debounce
    {
      debounce.Valid()
    }

    function Value(): Eph
      reads this, debounce
    {
      Eph(debounce.required, debounce.count, started, startRh, temp, duration, skipped)
    }

    constructor (required: nat)
      requires required >= 1
      ensures Valid() && fresh(debounce) && Value() == Fresh(required)
    {
      debounce := new DebounceBuffer(required);
      started, startRh, temp, duration, skipped := 0.0, 0.0, None, None, map[];
    }

    /** `_emit_skip`. */
    method EmitSkip(code: string, now: real) returns (events: seq<Event>)
      requires Valid()
      modifies this`skipped
      ensures Valid() && (Value(), events) == AutodryFsm.EmitSkip(old(Value()), code, now)
    {
      if code in skipped && now - skipped[code] < SKIP_RATE_LIMIT_SEC {
        return [];
      }
      skipped := skipped[code := now];
      events := [Skipped(code)];
    }
  }

  // ---- tick_fsm, statement by statement -------------------------------------------------------

  method SumRecent(duty: seq<Duty>, now: real) returns (minutes: int)
    ensures minutes == RecentMin(duty, now)
  {
    minutes := 0;
    var k := 0;
    while k < |duty|
      invariant 0 <= k <= |duty|
      invariant minutes == RecentMin(duty[..k], now)
      decreases |duty| - k
    {
      assert duty[..k + 1][..k] == duty[..k];
      if now - duty[k].started < DAY_SEC {
        minutes := minutes + duty[k].ran;
      }
      k := k + 1;
    }
    assert duty[..k] == duty;
  }

  method TickInIdle(c: Config, s: Snapshot, eph: Ephemeral, i: Inputs, now: real) returns (next: Snapshot)
    requires eph.Valid()
    modifies eph, eph.debounce
    ensures eph.Valid() && Result(next, eph.Value(), []) == TickIdle(c, s, old(eph.Value()), i, now)
  {
    hide Armed;
    next := s;
    if Armed(c, i) {
      next := next.(state := Watching, since := now);
      eph.debounce.ObserveBelow();
    }
  }

  method Announce(c: Config, s: Snapshot, eph: Ephemeral, i: Inputs, now: real, caps: Caps)
    returns (next: Snapshot, events: seq<Event>)
    requires eph.Valid()
    modifies eph, eph.debounce
    ensures eph.Valid() && Result(next, eph.Value(), events) == Trigger(c, s, old(eph.Value()), i, now, caps)
  {
    hide Reconcile, TargetTypes;
    var recipe := ReconcileLoadedSlots(TargetTypes(c, i), i.profiles);
    eph.temp, eph.duration := recipe.temp, recipe.duration;
    next := s;
    if c.mode == Log {
      events := [DryRun(eph.temp, eph.duration, i.humidity)];
      next := next.(state := Cooldown, cooldownUntil := CooldownEnd(caps, now));
    } else {
      events := [Triggered(eph.temp, eph.duration, i.humidity)];
      next := next.(state := Drying, since := now);
      eph.started, eph.startRh := now, i.humidity;
    }
    eph.debounce.ObserveBelow();
  }

  method EvaluateHumidity(c: Config, s: Snapshot, eph: Ephemeral, i: Inputs, now: real, caps: Caps)
    returns (next: Snapshot, events: seq<Event>)
    requires eph.Valid()
    modifies eph, eph.debounce
    ensures eph.Valid() && Result(next, eph.Value(), events) == Evaluate(c, s, old(eph.Value()), i, now, caps)
  {
    hide Trigger;
    next, events := s, [];
    if AboveWake(c, i) {
      eph.debounce.ObserveAbove();
    } else {
      eph.debounce.ObserveBelow();
    }
    if eph.debounce.IsAboveThreshold() {
      next, events := Announce(c, s, eph, i, now, caps);
    }
  }

  method TickInWatching(c: Config, s: Snapshot, eph: Ephemeral, i: Inputs, now: real, caps: Caps)
    returns (next: Snapshot, events: seq<Event>)
    requires eph.Valid()
    modifies eph, eph.debounce
    ensures eph.Valid() && Result(next, eph.Value(), events) == TickWatching(c, s, old(eph.Value()), i, now, caps)
  {
    hide Armed, RecentMin, Evaluate, EmitSkip;
    next, events := s, [];
    if !Armed(c, i) {
      next := next.(state := Idle);
      eph.debounce.ObserveBelow();
      return;
    }
    if i.dryer == Running {
      next := next.(state := ObservedDrying);
      eph.started, eph.startRh := now, i.humidity;
      eph.debounce.ObserveBelow();
      return;
    }
    if Busy(i) {
      events := eph.EmitSkip("AUTODRY_SKIPPED_PRINT", now);
      eph.debounce.ObserveBelow();
      return;
    }
    if i.swapping {
      events := eph.EmitSkip("AUTODRY_SKIPPED_SWAP", now);
      return;
    }
    var recent := SumRecent(s.duty, now);
    if recent >= caps.dutyMaxMin {
      events := eph.EmitSkip("AUTODRY_SKIPPED_DAILY", now);
      return;
    }
    if now < s.cooldownUntil {
      return;
    }
    next, events := EvaluateHumidity(c, s, eph, i, now, caps);
  }

  method TickInDrying(c: Config, s: Snapshot, eph: Ephemeral, i: Inputs, now: real, caps: Caps)
    returns (next: Snapshot, events: seq<Event>)
    requires eph.Valid()
    modifies eph
    ensures eph.Valid() && Result(next, eph.Value(), events) == TickDrying(c, s, old(eph.Value()), i, now, caps)
  {
    hide RanMin, CooldownEnd, EmitSkip, LimitText, DeltaText;
    next, events := s, [];
    if Busy(i) {
      events := eph.EmitSkip("AUTODRY_SKIPPED_PRINT", now);
      next := next.(state := Cooldown, cooldownUntil := CooldownEnd(caps, now));
      return;
    }
    var ran := RanMin(eph.started, now);
    var run := LastRun(Auto, true, eph.started, now, eph.startRh, i.humidity,
                       OrZero(eph.temp), OrZero(eph.duration), ran);
    if i.humidity <= c.targetPct as real {
      next := next.(lastRun := Some(run), duty := next.duty + [Duty(eph.started, ran)]);
      events := [Finished(eph.startRh, i.humidity, ran, false)];
      next := next.(state := Cooldown, cooldownUntil := CooldownEnd(caps, now));
      return;
    }
    if ran >= caps.maxRunMin {
      next := next.(fault := Some(Fault(FailedLimit, now, LimitText(ran, c.targetPct))));
      next := next.(lastRun := Some(run.(success := false)), state := Faulted);
      events := [LimitFault(ran)];
      return;
    }
    if eph.duration.Some? && eph.duration.value != 0 && ran >= eph.duration.value {
      var delta := eph.startRh - i.humidity;
      if delta < caps.minDelta {
        next := next.(fault := Some(Fault(FailedDelta, now, DeltaText(ran, eph.startRh, i.humidity))));
        next := next.(lastRun := Some(run.(success := false)), state := Faulted);
        events := [DeltaFault(delta)];
        return;
      }
      next := next.(lastRun := Some(run), duty := next.duty + [Duty(eph.started, ran)]);
      events := [Finished(eph.startRh, i.humidity, ran, true)];
      next := next.(state := Cooldown, cooldownUntil := CooldownEnd(caps, now));
    }
  }

  /** `tick_fsm`: the snapshot is copied, the in-memory state is updated in place. */
  method TickFsm(c: Config, s: Snapshot, eph: Ephemeral, i: Inputs, now: real, caps: Caps)
    returns (next: Snapshot, events: seq<Event>)
    requires eph.Valid()
    modifies eph, eph.debounce
    ensures eph.Valid() && Result(next, eph.Value(), events) == Tick(c, s, old(eph.Value()), i, now, caps)
  {
    hide TickIdle, TickWatching, TickDrying, RanMin, CooldownEnd;
    next, events := s, [];
    match s.state {
      case Faulted =>
      case Idle => next := TickInIdle(c, s, eph, i, now);
      case Watching => next, events := TickInWatching(c, s, eph, i, now, caps);
      case Drying => next, events := TickInDrying(c, s, eph, i, now, caps);
      case ObservedDrying =>
        if i.dryer == Stopped {
          next := next.(lastRun := Some(LastRun(Manual, true, eph.started, now, eph.startRh, i.humidity, 0, 0,
                                                RanMin(eph.started, now))),
                        state := Cooldown, cooldownUntil := CooldownEnd(caps, now));
        }
      case Cooldown =>
        if now >= s.cooldownUntil {
          next := next.(state := Watching, since := now);
          eph.debounce.ObserveBelow();
        }
    }
  }

  // ---- one machine per ACE ----------------------------------------------------------------------

  /** One entry of the per-ACE humidity list. */
  datatype Sensor = Sensor(configured: bool, ok: bool, humidity: Option<real>)

  /** What the inputs fetcher returns: the shared reading and the per-ACE sensors. */
  datatype World = World(base: Inputs, sensors: seq<Sensor>)

  /** The inputs of one machine: its own ACE is active, nothing else dries or swaps, its own sensor counts. */
  function InputsFor(w: World, ace: int): Inputs {
    var i := w.base.(activeDevice := Some(ace), swapping := false, dryer := Stopped);
    if 0 <= ace < |w.sensors| && w.sensors[ace].configured then
      if w.sensors[ace].ok then
        i.(humidityOk := true, humidity := if w.sensors[ace].humidity.Some? then w.sensors[ace].humidity.value else 0.0)
      else i.(humidityOk := false, humidity := 0.0)
    else i
  }

  function ConfigFor(c: Settings, ace: int): Config {
    Config(Active, ace, c.targetPct, c.hysteresis, c.defaultType, c.keepReady)
  }

  /** What the server holds: its own state, and the status payload it last polled. */
  datatype Polled = Polled(activeDevice: Option<int>, heads: seq<Option<Head>>, swapping: bool,
                           printing: PrintState, dryer: Dryer, ok: bool, humidity: Option<real>, sensors: seq<Sensor>)

  /** `autodry_inputs_fetcher`: a payload that is stale, or never came, is replaced by constants. */
  function Fetch(p: Polled, stale: bool): World {
    if stale then World(Inputs(p.activeDevice, p.heads, p.swapping, false, 0.0, Standby, Stopped, []), [])
    else
      var h := if p.humidity.Some? then p.humidity.value else 0.0;
      World(Inputs(p.activeDevice, p.heads, p.swapping, p.ok, h, p.printing, p.dryer, []), p.sensors)
  }

  function StepOf(c: Settings, w: World, ace: int, now: real): AutodryRuns.Step {
    AutodryRuns.Step(false, false, now, ConfigFor(c, ace), InputsFor(w, ace))
  }

  /** A machine ticks as if it were alone: switched on, its own ACE active, no filament change and no
      drying known of, everything else as fetched, its own sensor first. */
  lemma StepIs(c: Settings, w: World, ace: int, now: real)
    ensures var step := StepOf(c, w, ace, now);
            && !step.restarted && !step.cleared && step.now == now
            && step.config == Config(Active, ace, c.targetPct, c.hysteresis, c.defaultType, c.keepReady)
            && step.inputs.activeDevice == Some(ace) && !step.inputs.swapping && step.inputs.dryer == Stopped
            && step.inputs.heads == w.base.heads && step.inputs.printing == w.base.printing
            && step.inputs.profiles == w.base.profiles
            && (if 0 <= ace < |w.sensors| && w.sensors[ace].configured then
                  && step.inputs.humidityOk == w.sensors[ace].ok
                  && step.inputs.humidity == if w.sensors[ace].ok && w.sensors[ace].humidity.Some?
                                             then w.sensors[ace].humidity.value else 0.0
                else step.inputs.humidityOk == w.base.humidityOk && step.inputs.humidity == w.base.humidity)
  {
  }

  /** A number from a working sensor, within 0 to 100. */
  function Usable(ok: bool, humidity: Option<real>): Option<real> {
    if ok && humidity.Some? && 0.0 <= humidity.value <= 100.0 then humidity else None
  }

  /** The sensor entry that counts for an ACE, if it has a configured one of its own. */
  function OwnSensor(p: Polled, ace: int): Option<Sensor> {
    if 0 <= ace < |p.sensors| && p.sensors[ace].configured then Some(p.sensors[ace]) else None
  }

  /** The usable reading there is for an ACE: its own sensor's, or the shared one. */
  function UsableReading(p: Polled, stale: bool, ace: int): Option<real> {
    if stale then None
    else if OwnSensor(p, ace).Some? then Usable(OwnSensor(p, ace).value.ok, OwnSensor(p, ace).value.humidity)
    else Usable(p.ok, p.humidity)
  }

  predicate AtMost(reading: Option<real>, targetPct: int) {
    reading.Some? && reading.value <= targetPct as real
  }

  /** The tick ends a cycle because the target is reached. */
  predicate ReachesTarget(caps: Caps, st: St, step: AutodryRuns.Step) {
    var events := Outcome(caps, Seen(st, step), step).events;
    events != [] && events[0].Finished? && !events[0].stillAbove
  }

  /** No number, or none that is passed on: the tick is shown zero. */
  predicate ShownAsZero(p: Polled, stale: bool, ace: int) {
    if stale then true
    else if OwnSensor(p, ace).Some? then !OwnSensor(p, ace).value.ok || OwnSensor(p, ace).value.humidity.None?
    else p.humidity.None?
  }

  /** The number the tick is shown is one that nobody vouches for: of a failed shared sensor, or out of range. */
  predicate ShownUnusable(p: Polled, ace: int, targetPct: int) {
    if OwnSensor(p, ace).Some? then
      var own := OwnSensor(p, ace).value;
      own.ok && own.humidity.Some? && Usable(true, own.humidity).None? && own.humidity.value <= targetPct as real
    else p.humidity.Some? && Usable(p.ok, p.humidity).None? && p.humidity.value <= targetPct as real
  }

  /**
   * When a cycle in progress is recorded as finished at its target without a
   * usable reading at or below the target: exactly when no print is known of
   * and the tick is shown a zero that nobody measured, with a target of zero or
   * more, or an unusable number not above the target.
   */
  lemma TargetWithoutReadingIff(caps: Caps, st: St, c: Settings, p: Polled, stale: bool, ace: int, now: real)
    requires st.snap.state == Drying
    ensures ReachesTarget(caps, st, StepOf(c, Fetch(p, stale), ace, now))
            && !AtMost(UsableReading(p, stale, ace), c.targetPct)
       <==> (stale || p.printing == Standby || p.printing == Ended)
            && ((ShownAsZero(p, stale, ace) && c.targetPct >= 0) || (!stale && ShownUnusable(p, ace, c.targetPct)))
  {
    hide RanMin, CooldownEnd, LimitText, DeltaText;
  }

  /** Reaching the target is a success with a duty record and no fault, whatever the tick was shown. */
  lemma TargetIsASuccess(caps: Caps, st: St, step: AutodryRuns.Step)
    requires st.snap.state == Drying
    ensures ReachesTarget(caps, st, step) ==>
              var s := Next(caps, st, step).snap;
              && s.state == Cooldown && s.lastRun.Some? && s.lastRun.value.success
              && s.fault == Seen(st, step).snap.fault
              && |s.duty| == |st.snap.duty| + 1
  {
    hide RanMin, CooldownEnd, LimitText, DeltaText, InputsFor;
  }

  /** A failed sensor of the ACE's own, one case of it. */
  lemma DeadSensorEndsTheRun(caps: Caps, st: St, c: Settings, w: World, ace: int, now: real)
    requires st.snap.state == Drying && c.targetPct >= 0 && !Busy(w.base)
    requires 0 <= ace < |w.sensors| && w.sensors[ace].configured && !w.sensors[ace].ok
    ensures var s := Next(caps, st, StepOf(c, w, ace, now)).snap;
            && s.state == Cooldown && s.lastRun.Some? && s.lastRun.value.success && s.fault == st.snap.fault
            && |s.duty| == |st.snap.duty| + 1
  {
    hide RanMin, CooldownEnd, LimitText, DeltaText;
  }

  /** A payload that stays away longer than three polls, another: whatever the sensors
      measure, and even while printing. */
  lemma StalePayloadEndsTheRun(caps: Caps, st: St, c: Settings, p: Polled, ace: int, now: real)
    requires st.snap.state == Drying && c.targetPct >= 0
    ensures ReachesTarget(caps, st, StepOf(c, Fetch(p, true), ace, now))
    ensures var s := Next(caps, st, StepOf(c, Fetch(p, true), ace, now)).snap;
            s.state == Cooldown && s.lastRun.Some? && s.lastRun.value.success && s.fault == st.snap.fault
  {
    hide RanMin, CooldownEnd, LimitText, DeltaText, Tick;
    TargetWithoutReadingIff(caps, st, c, p, true, ace, now);
    TargetIsASuccess(caps, st, StepOf(c, Fetch(p, true), ace, now));
  }

  class PerAce {
    const ace: nat
    const eph: Ephemeral
    var config: Settings
    var snapshot: Snapshot
    var locked: bool
    var unreachable: bool

    ghost predicate Valid()
      reads this, eph, eph.debounce
    {
      eph.Valid()
    }

    /** Snapshot and in-memory state together, as a run of ticks sees them. */
    function State(): St
      reads this, eph, eph.debounce
    {
      St(snapshot, eph.Value())
    }

    constructor (m: Machine, required: nat)
      requires m.ace >= 0 && required >= 1
      ensures Valid() && fresh(eph) && fresh(eph.debounce)
      ensures ace == m.ace && config == m.config && State() == St(m.snapshot, Fresh(required))
      ensures !locked && !unreachable
    {
      ace, config, snapshot, locked, unreachable := m.ace, m.config, m.snapshot, false, false;
      eph := new Ephemeral(required);
    }

    method SetLocked(locked: bool)
      modifies this`locked
      ensures this.locked == locked && State() == old(State()) && Valid() == old(Valid())
    {
      this.locked := locked;
    }

    method SetUnreachable(unreachable: bool)
      modifies this`unreachable
      ensures this.unreachable == unreachable && State() == old(State()) && Valid() == old(Valid())
    {
      this.unreachable := unreachable;
    }

    predicate Gated()
      reads this
    {
      locked || unreachable || !config.enabled
    }

    /** `tick_one_ace`, on its machine: one step of a run, or nothing at all. */
    method TickOne(w: Option<World>, now: real, caps: Caps) returns (events: seq<Event>)
      requires Valid()
      modifies this`snapshot, eph, eph.debounce
      ensures Valid()
      ensures locked || unreachable || !config.enabled || w.None? ==> State() == old(State()) && events == []
      ensures !locked && !unreachable && config.enabled && w.Some? ==>
                var step := StepOf(config, w.value, ace, now);
                && State() == Next(caps, old(State()), step)
                && events == Outcome(caps, Seen(old(State()), step), step).events
    {
      hide Tick, ConfigFor, InputsFor;
      if Gated() || w.None? {
        return [];
      }
      if snapshot.state == Drying && eph.started == 0.0 && snapshot.since > 0.0 {
        eph.started := snapshot.since;
      }
      snapshot, events := TickFsm(ConfigFor(config, ace), snapshot, eph, InputsFor(w.value, ace), now, caps);
    }
  }

  class AutodryManager {
    const fsms: seq<PerAce>

    /** Machine `i` belongs to ACE `i`, and no two share any state. */
    ghost predicate Valid()
      reads this, fsms, set f <- fsms :: f.eph, set f <- fsms :: f.eph.debounce
    {
      && (forall i | 0 <= i < |fsms| :: fsms[i].ace == i && fsms[i].Valid())
      && (forall i, j | 0 <= i < j < |fsms| ::
            fsms[i] != fsms[j] && fsms[i].eph != fsms[j].eph && fsms[i].eph.debounce != fsms[j].eph.debounce)
    }

    /** Machines read from disk, each with a fresh in-memory state. */
    constructor (ms: seq<Machine>)
      requires InOrder(ms)
      ensures Valid() && |fsms| == |ms|
      ensures forall i | 0 <= i < |ms| ::
                && fresh(fsms[i]) && fresh(fsms[i].eph) && fresh(fsms[i].eph.debounce)
                && fsms[i].config == ms[i].config && !fsms[i].locked && !fsms[i].unreachable
                && fsms[i].State() == St(ms[i].snapshot, Fresh(DEFAULT_DEBOUNCE_REQUIRED))
    {
      var all: seq<PerAce> := [];
      while |all| < |ms|
        invariant |all| <= |ms|
        invariant forall i | 0 <= i < |all| ::
                    && fresh(all[i]) && fresh(all[i].eph) && fresh(all[i].eph.debounce)
                    && all[i].Valid() && all[i].ace == i
        invariant forall i | 0 <= i < |all| ::
                    && all[i].config == ms[i].config && !all[i].locked && !all[i].unreachable
                    && all[i].State() == St(ms[i].snapshot, Fresh(DEFAULT_DEBOUNCE_REQUIRED))
        invariant forall i, j | 0 <= i < j < |all| ::
                    all[i] != all[j] && all[i].eph != all[j].eph && all[i].eph.debounce != all[j].eph.debounce
        decreases |ms| - |all|
      {
        var f := new PerAce(ms[|all|], DEFAULT_DEBOUNCE_REQUIRED);
        all := all + [f];
      }
      fsms := all;
    }

    /** What `serialize` reads off the machines. */
    function Stored(): (ms: seq<Machine>)
      reads this, fsms
      ensures |ms| == |fsms|
    {
      seq(|fsms|, i requires 0 <= i < |fsms| reads this, fsms =>
        Machine(fsms[i].ace, fsms[i].config, fsms[i].snapshot))
    }

    /** `tick_one_ace`; false is the KeyError of an unknown ACE. */
    method TickOneAce(ace: int, w: Option<World>, now: real, caps: Caps) returns (known: bool, events: seq<Event>)
      requires Valid()
      modifies fsms, set f <- fsms :: f.eph, set f <- fsms :: f.eph.debounce
      ensures Valid()
      ensures known <==> 0 <= ace < |fsms|
      ensures forall i: nat | i < |fsms| && i != ace ::
                && fsms[i].State() == old(fsms[i].State()) && fsms[i].config == old(fsms[i].config)
                && fsms[i].locked == old(fsms[i].locked) && fsms[i].unreachable == old(fsms[i].unreachable)
      ensures !known ==> events == []
      ensures known ==> fsms[ace].config == old(fsms[ace].config) && fsms[ace].locked == old(fsms[ace].locked)
                        && fsms[ace].unreachable == old(fsms[ace].unreachable)
      ensures known && (old(fsms[ace].locked || fsms[ace].unreachable || !fsms[ace].config.enabled) || w.None?) ==>
                fsms[ace].State() == old(fsms[ace].State()) && events == []
      ensures known && old(!fsms[ace].locked && !fsms[ace].unreachable && fsms[ace].config.enabled) && w.Some? ==>
                var step := StepOf(fsms[ace].config, w.value, ace, now);
                && fsms[ace].State() == Next(caps, old(fsms[ace].State()), step)
                && events == Outcome(caps, Seen(old(fsms[ace].State()), step), step).events
    {
      hide Next, Outcome, Seen, StepOf;
      if 0 <= ace < |fsms| {
        known := true;
        events := fsms[ace].TickOne(w, now, caps);
      } else {
        known, events := false, [];
      }
    }

    /** `reset_fault`. */
    method ResetFault(ace: int) returns (known: bool)
      requires Valid()
      modifies fsms
      ensures Valid()
      ensures known <==> 0 <= ace < |fsms|
      ensures forall i: nat | i < |fsms| && i != ace ::
                && fsms[i].State() == old(fsms[i].State()) && fsms[i].config == old(fsms[i].config)
                && fsms[i].locked == old(fsms[i].locked) && fsms[i].unreachable == old(fsms[i].unreachable)
      ensures known ==> fsms[ace].State() == St(ClearFault(old(fsms[ace].snapshot)), old(fsms[ace].eph.Value()))
      ensures known ==> fsms[ace].config == old(fsms[ace].config) && fsms[ace].locked == old(fsms[ace].locked)
                        && fsms[ace].unreachable == old(fsms[ace].unreachable)
    {
      known := 0 <= ace < |fsms|;
      if known {
        var f := fsms[ace];
        f.snapshot := f.snapshot.(fault := None);
        if f.snapshot.state == Faulted {
          f.snapshot := f.snapshot.(state := Idle);
        }
      }
    }
  }

  /**
   * Writing the manager to disk and starting a new one from the file: every
   * setting and snapshot is back, every in-memory state is fresh.
   */
  method Restart(m: AutodryManager, deviceCount: nat) returns (again: AutodryManager)
    requires m.Valid()
    ensures again.Valid() && |again.fsms| == deviceCount
    ensures forall i | 0 <= i < |m.fsms| && i < deviceCount ::
              again.fsms[i].config == m.fsms[i].config
              && again.fsms[i].State() == St(m.fsms[i].snapshot, Fresh(DEFAULT_DEBOUNCE_REQUIRED))
    ensures forall i | |m.fsms| <= i < deviceCount ::
              again.fsms[i].config == DEFAULT_SETTINGS
              && again.fsms[i].State() == St(BLANK, Fresh(DEFAULT_DEBOUNCE_REQUIRED))
  {
    hide Serialize, Deserialize;
    var stored := m.Stored();
    assert InOrder(stored);
    StoreRoundTrip(stored, deviceCount);
    var file := Serialize(stored);
    var machines := Deserialize(file, deviceCount).value;
    again := new AutodryManager(machines);
  }
}
