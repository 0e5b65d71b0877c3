/**
 * The auto-dry state machine of `autodryer.py`: one tick as a function of the
 * persisted snapshot, the in-memory state, the inputs and the clock.
 */
module AutodryFsm {
  import opened Wrappers
  import opened Recipes
  import CfgText

  datatype State = Idle | Watching | Drying | ObservedDrying | Cooldown | Faulted
  datatype FaultCode = FailedLimit | FailedDelta
  datatype Fault = Fault(code: FaultCode, since: real, msg: string)
  datatype RunKind = Auto | Manual
  datatype LastRun = LastRun(kind: RunKind, success: bool, started: real, ended: real,
                             triggerRh: real, endRh: real, temp: int, duration: int, ran: int)
  datatype Duty = Duty(started: real, ran: int)

  /** The persisted slice of the machine. */
  datatype Snapshot = Snapshot(state: State, since: real, fault: Option<Fault>, lastRun: Option<LastRun>,
                               announcement: Option<string>, duty: seq<Duty>, cooldownUntil: real)

  const BLANK := Snapshot(Idle, 0.0, None, None, None, [], 0.0)

  /** What is lost on a restart. */
  datatype Eph = Eph(required: nat, count: nat, started: real, startRh: real,
                     temp: Option<int>, duration: Option<int>, skipped: map<string, real>)

  function Fresh(required: nat): Eph {
    Eph(required, 0, 0.0, 0.0, None, None, map[])
  }

  datatype Mode = Off | Log | Active
  datatype Config = Config(mode: Mode, ace: int, targetPct: int, hysteresis: int,
                           defaultType: Option<string>, keepReady: bool)
  datatype Head = Head(ace: int, filament: string)
  datatype PrintState = Standby | Printing | Paused | Ended
  datatype Dryer = Stopped | Running | Unknown

  datatype Inputs = Inputs(activeDevice: Option<int>, heads: seq<Option<Head>>, swapping: bool,
                           humidityOk: bool, humidity: real, printing: PrintState, dryer: Dryer,
                           profiles: seq<Profile>)

  datatype Caps = Caps(cooldownMin: int, maxRunMin: int, dutyMaxMin: int, minDelta: real)

  const DEFAULT_CAPS := Caps(30, 720, 1080, 3.0)
  const DEFAULT_DEBOUNCE_REQUIRED := 5
  const SKIP_RATE_LIMIT_SEC := 1800.0
  const DAY_SEC := 86400.0

  datatype Event =
    | Triggered(temp: Option<int>, duration: Option<int>, rh: real)
    | DryRun(temp: Option<int>, duration: Option<int>, rh: real)
    | Finished(startRh: real, endRh: real, ran: int, stillAbove: bool)
    | LimitFault(ran: int)
    | DeltaFault(delta: real)
    | Skipped(code: string)

  datatype Result = Result(snap: Snapshot, eph: Eph, events: seq<Event>)

  // ---- inputs ---------------------------------------------------------------------

  function Loaded(heads: seq<Option<Head>>, ace: int): (r: seq<string>)
    decreases heads
  {
    if heads == [] then []
    else
      var rest := Loaded(heads[1..], ace);
      if heads[0].Some? && heads[0].value.ace == ace then [heads[0].value.filament] + rest else rest
  }

  function Named(filaments: seq<string>): seq<string>
    decreases filaments
  {
    if filaments == [] then []
    else if CfgText.Strip(filaments[0]) != "" then [filaments[0]] + Named(filaments[1..])
    else Named(filaments[1..])
  }

  predicate Given(t: Option<string>) {
    t.Some? && t.value != ""
  }

  /** `_filament_types_for_ace`. */
  function FilamentTypes(heads: seq<Option<Head>>, ace: int, defaultType: Option<string>): seq<string> {
    var loaded := Loaded(heads, ace);
    if Named(loaded) == [] && Given(defaultType) then seq(|loaded|, _ => defaultType.value) else Named(loaded)
  }

  function TargetTypes(c: Config, i: Inputs): seq<string> {
    var types := FilamentTypes(i.heads, c.ace, c.defaultType);
    if types == [] && c.keepReady && Given(c.defaultType) then [c.defaultType.value] else types
  }

  predicate Armed(c: Config, i: Inputs) {
    && c.mode != Off
    && i.humidityOk && 0.0 <= i.humidity <= 100.0
    && i.activeDevice == Some(c.ace)
    && TargetTypes(c, i) != []
  }

  predicate Busy(i: Inputs) {
    i.printing == Printing || i.printing == Paused
  }

  // ---- arithmetic --------------------------------------------------------------------

  /** Python's `int()` on a float. */
  function Trunc(x: real): int {
    if x >= 0.0 then x.Floor else -(-x).Floor
  }

  function RanMin(started: real, now: real): int {
    Trunc((now - started) / 60.0)
  }

  /** Minutes of the runs started in the 24 hours before `now`. */
  function RecentMin(duty: seq<Duty>, now: real): int
    decreases duty
  {
    if duty == [] then 0
    else
      var last := duty[|duty| - 1];
      RecentMin(duty[..|duty| - 1], now) + if now - last.started < DAY_SEC then last.ran else 0
  }

  function CooldownEnd(caps: Caps, now: real): real {
    now + (caps.cooldownMin * 60) as real
  }

  // ---- texts -------------------------------------------------------------------------------

  function Digits(n: nat): string {
    if n < 10 then [('0' as int + n) as char] else Digits(n / 10) + [('0' as int + n % 10) as char]
  }

  function IntText(n: int): string {
    if n < 0 then "-" + Digits(-n) else Digits(n)
  }

  /** The nearest integer, ties to even. */
  function Nearest(y: real): (n: int)
    ensures y >= 0.0 ==> n >= 0
  {
    var rest := y - y.Floor as real;
    if rest > 0.5 || (rest == 0.5 && y.Floor % 2 == 1) then y.Floor + 1 else y.Floor
  }

  /** One decimal. */
  function TenthsText(x: real): string {
    var n := Nearest((if x < 0.0 then -x else x) * 10.0);
    (if x < 0.0 then "-" else "") + Digits(n / 10) + "." + Digits(n % 10)
  }

  function LimitText(ran: int, targetPct: int): string {
    IntText(ran) + "m run did not cross target " + IntText(targetPct) + "%"
  }

  function DeltaText(ran: int, startRh: real, endRh: real): string {
    IntText(ran) + "m run moved RH " + TenthsText(startRh) + "\U{2192}" + TenthsText(endRh)
    + " (\U{0394}=" + TenthsText(startRh - endRh) + "pp)"
  }

  // ---- the tick -------------------------------------------------------------------------

  /** `_emit_skip`: at most one skip event of a kind per half hour. */
  function EmitSkip(e: Eph, code: string, now: real): (Eph, seq<Event>) {
    if code in e.skipped && now - e.skipped[code] < SKIP_RATE_LIMIT_SEC then (e, [])
    else (e.(skipped := e.skipped[code := now]), [Skipped(code)])
  }

  function Skip(s: Snapshot, e: Eph, code: string, now: real): Result {
    var (e', events) := EmitSkip(e, code, now);
    Result(s, e', events)
  }

  function ObserveAbove(e: Eph): Eph {
    e.(count := if e.count + 1 <= e.required then e.count + 1 else e.required)
  }

  function Reset(e: Eph): Eph {
    e.(count := 0)
  }

  function TickIdle(c: Config, s: Snapshot, e: Eph, i: Inputs, now: real): Result {
    if Armed(c, i) then Result(s.(state := Watching, since := now), Reset(e), []) else Result(s, e, [])
  }

  /** The guards passed and the debounce is full. */
  function Trigger(c: Config, s: Snapshot, e: Eph, i: Inputs, now: real, caps: Caps): Result {
    var r := Reconcile(TargetTypes(c, i), i.profiles);
    var e' := Reset(e.(temp := r.temp, duration := r.duration));
    if c.mode == Log then
      Result(s.(state := Cooldown, cooldownUntil := CooldownEnd(caps, now)), e',
             [DryRun(r.temp, r.duration, i.humidity)])
    else
      Result(s.(state := Drying, since := now), e'.(started := now, startRh := i.humidity),
             [Triggered(r.temp, r.duration, i.humidity)])
  }

  predicate AboveWake(c: Config, i: Inputs) {
    i.humidity > (c.targetPct + c.hysteresis) as real
  }

  function Evaluate(c: Config, s: Snapshot, e: Eph, i: Inputs, now: real, caps: Caps): Result {
    var e' := if AboveWake(c, i) then ObserveAbove(e) else Reset(e);
    if e'.count >= e'.required then Trigger(c, s, e', i, now, caps) else Result(s, e', [])
  }

  function TickWatching(c: Config, s: Snapshot, e: Eph, i: Inputs, now: real, caps: Caps): Result {
    if !Armed(c, i) then Result(s.(state := Idle), Reset(e), [])
    else if i.dryer == Running then
      Result(s.(state := ObservedDrying), Reset(e.(started := now, startRh := i.humidity)), [])
    else if Busy(i) then
      var r := Skip(s, e, "AUTODRY_SKIPPED_PRINT", now);
      Result(r.snap, Reset(r.eph), r.events)
    else if i.swapping then Skip(s, e, "AUTODRY_SKIPPED_SWAP", now)
    else if RecentMin(s.duty, now) >= caps.dutyMaxMin then Skip(s, e, "AUTODRY_SKIPPED_DAILY", now)
    else if now < s.cooldownUntil then Result(s, e, [])
    else Evaluate(c, s, e, i, now, caps)
  }

  function OrZero(x: Option<int>): int {
    if x.Some? then x.value else 0
  }

  function RunOf(kind: RunKind, success: bool, e: Eph, i: Inputs, now: real): LastRun {
    LastRun(kind, success, e.started, now, e.startRh, i.humidity,
            if kind == Auto then OrZero(e.temp) else 0, if kind == Auto then OrZero(e.duration) else 0,
            RanMin(e.started, now))
  }

  function FinishRun(s: Snapshot, e: Eph, i: Inputs, now: real, caps: Caps, stillAbove: bool): Result {
    var ran := RanMin(e.started, now);
    Result(s.(lastRun := Some(RunOf(Auto, true, e, i, now)), duty := s.duty + [Duty(e.started, ran)],
              state := Cooldown, cooldownUntil := CooldownEnd(caps, now)),
           e, [Finished(e.startRh, i.humidity, ran, stillAbove)])
  }

  function FaultRun(s: Snapshot, e: Eph, i: Inputs, now: real, code: FaultCode, msg: string, event: Event): Result {
    Result(s.(fault := Some(Fault(code, now, msg)), lastRun := Some(RunOf(Auto, false, e, i, now)), state := Faulted),
           e, [event])
  }

  /** The requested duration is over; a duration of zero never is. */
  predicate DurationOver(e: Eph, ran: int) {
    e.duration.Some? && e.duration.value != 0 && ran >= e.duration.value
  }

  function TickDrying(c: Config, s: Snapshot, e: Eph, i: Inputs, now: real, caps: Caps): Result {
    var ran := RanMin(e.started, now);
    if Busy(i) then
      var r := Skip(s, e, "AUTODRY_SKIPPED_PRINT", now);
      Result(s.(state := Cooldown, cooldownUntil := CooldownEnd(caps, now)), r.eph, r.events)
    else if i.humidity <= c.targetPct as real then FinishRun(s, e, i, now, caps, false)
    else if ran >= caps.maxRunMin then
      FaultRun(s, e, i, now, FailedLimit, LimitText(ran, c.targetPct), LimitFault(ran))
    else if DurationOver(e, ran) then
      if e.startRh - i.humidity < caps.minDelta then
        FaultRun(s, e, i, now, FailedDelta, DeltaText(ran, e.startRh, i.humidity), DeltaFault(e.startRh - i.humidity))
      else FinishRun(s, e, i, now, caps, true)
    else Result(s, e, [])
  }

  function TickObserved(s: Snapshot, e: Eph, i: Inputs, now: real, caps: Caps): Result {
    if i.dryer == Stopped then
      Result(s.(lastRun := Some(RunOf(Manual, true, e, i, now)), state := Cooldown,
                cooldownUntil := CooldownEnd(caps, now)), e, [])
    else Result(s, e, [])
  }

  function TickCooldown(s: Snapshot, e: Eph, now: real): Result {
    if now >= s.cooldownUntil then Result(s.(state := Watching, since := now), Reset(e), []) else Result(s, e, [])
  }

  /** `tick_fsm`. */
  function Tick(c: Config, s: Snapshot, e: Eph, i: Inputs, now: real, caps: Caps): Result {
    match s.state
    case Faulted => Result(s, e, [])
    case Idle => TickIdle(c, s, e, i, now)
    case Watching => TickWatching(c, s, e, i, now, caps)
    case Drying => TickDrying(c, s, e, i, now, caps)
    case ObservedDrying => TickObserved(s, e, i, now, caps)
    case Cooldown => TickCooldown(s, e, now)
  }

  /** `reset_fault`, in the API layer. */
  function ClearFault(s: Snapshot): Snapshot {
    s.(fault := None, state := if s.state == Faulted then Idle else s.state)
  }

  /** What `tick_one_ace` restores before the first tick after a restart. */
  function Recovered(s: Snapshot, e: Eph): Eph {
    if s.state == Drying && e.started == 0.0 && s.since > 0.0 then e.(started := s.since) else e
  }
}
