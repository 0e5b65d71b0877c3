/** The tick in plain numbers, and what the records of a cycle say of it, over whole runs. */
module AutodryLaws {
  import opened Wrappers
  import opened Recipes
  import opened AutodryFsm
  import opened AutodryRuns
  import opened AutodryDuty
  import CfgText

  // ---- what is loaded -----------------------------------------------------------------------

  /** Head `h` holds a filament of the ACE. */
  predicate LoadedAt(c: Config, i: Inputs, h: nat) {
    h < |i.heads| && i.heads[h].Some? && i.heads[h].value.ace == c.ace
  }

  /** And it has a name that is not blank. */
  predicate NamedAt(c: Config, i: Inputs, h: nat) {
    LoadedAt(c, i, h) && CfgText.Strip(i.heads[h].value.filament) != ""
  }

  ghost predicate AnyNamed(c: Config, i: Inputs) {
    exists h: nat :: NamedAt(c, i, h)
  }

  /** No named filament, but a default type, and either an unnamed one or the wish to be kept ready. */
  ghost predicate TakesDefault(c: Config, i: Inputs) {
    && !AnyNamed(c, i) && c.defaultType.Some? && c.defaultType.value != ""
    && (c.keepReady || exists h: nat :: LoadedAt(c, i, h))
  }

  lemma {:induction false} LoadedAre(heads: seq<Option<Head>>, ace: int)
    ensures forall t :: t in Loaded(heads, ace)
              <==> exists h: nat ::
                     h < |heads| && heads[h].Some? && heads[h].value.ace == ace && heads[h].value.filament == t
    decreases heads
  {
    if heads != [] {
      LoadedAre(heads[1..], ace);
      forall t
        ensures t in Loaded(heads, ace) <==>
                  exists h: nat ::
                    h < |heads| && heads[h].Some? && heads[h].value.ace == ace && heads[h].value.filament == t
      {
        if t in Loaded(heads[1..], ace) {
          var h: nat :| h < |heads[1..]| && heads[1..][h].Some? && heads[1..][h].value.ace == ace
                        && heads[1..][h].value.filament == t;
          assert heads[h + 1] == heads[1..][h];
        }
        if h: nat :| h < |heads| && heads[h].Some? && heads[h].value.ace == ace && heads[h].value.filament == t {
          assert h > 0 ==> heads[1..][h - 1] == heads[h];
        }
      }
    }
  }

  lemma {:induction false} NamedAre(filaments: seq<string>)
    ensures forall t :: t in Named(filaments) <==> t in filaments && CfgText.Strip(t) != ""
    decreases filaments
  {
    hide CfgText.Strip;
    if filaments != [] {
      NamedAre(filaments[1..]);
      assert forall t :: t in filaments <==> t == filaments[0] || t in filaments[1..];
    }
  }

  /** The filaments a cycle has to suit: the named ones of the ACE, or the default type. */
  lemma TargetTypesAre(c: Config, i: Inputs)
    ensures AnyNamed(c, i) ==> forall t ::
              t in TargetTypes(c, i) <==> exists h: nat :: NamedAt(c, i, h) && i.heads[h].value.filament == t
    ensures !AnyNamed(c, i) ==> forall t :: t in TargetTypes(c, i) <==> TakesDefault(c, i) && t == c.defaultType.value
    ensures TargetTypes(c, i) == [] <==> !AnyNamed(c, i) && !TakesDefault(c, i)
  {
    hide CfgText.Strip, Loaded, Named;
    var loaded := Loaded(i.heads, c.ace);
    LoadedAre(i.heads, c.ace);
    NamedAre(loaded);
    assert AnyNamed(c, i) <==> Named(loaded) != [] by {
      if Named(loaded) != [] {
        assert Named(loaded)[0] in Named(loaded);
        var h: nat :| h < |i.heads| && i.heads[h].Some? && i.heads[h].value.ace == c.ace
                      && i.heads[h].value.filament == Named(loaded)[0];
        assert NamedAt(c, i, h);
      }
      if h: nat :| NamedAt(c, i, h) {
        assert i.heads[h].value.filament in loaded;
      }
    }
    assert loaded != [] <==> exists h: nat :: LoadedAt(c, i, h) by {
      if loaded != [] {
        assert loaded[0] in loaded;
        var h: nat :| h < |i.heads| && i.heads[h].Some? && i.heads[h].value.ace == c.ace
                      && i.heads[h].value.filament == loaded[0];
        assert LoadedAt(c, i, h);
      }
      if h: nat :| LoadedAt(c, i, h) {
        assert i.heads[h].value.filament in loaded;
      }
    }
    forall t
      ensures t in Named(loaded) <==> exists h: nat :: NamedAt(c, i, h) && i.heads[h].value.filament == t
    {
      if t in Named(loaded) {
        var h: nat :| h < |i.heads| && i.heads[h].Some? && i.heads[h].value.ace == c.ace
                      && i.heads[h].value.filament == t;
        assert NamedAt(c, i, h);
      }
    }
    if !AnyNamed(c, i) && Given(c.defaultType) {
      var types: seq<string> := seq(|loaded|, _ => c.defaultType.value);
      assert FilamentTypes(i.heads, c.ace, c.defaultType) == types;
      assert loaded != [] ==> types[0] == c.defaultType.value;
    }
  }

  // ---- the recipe of a cycle -----------------------------------------------------------------

  /** What an announcement says. */
  datatype Announced = Announced(inEarnest: bool, temp: Option<int>, duration: Option<int>, rh: real)

  function AnnouncedIn(events: seq<Event>): Announced
    requires FiresIn(events)
  {
    match events[0]
    case Triggered(t, d, rh) => Announced(true, t, d, rh)
    case DryRun(t, d, rh) => Announced(false, t, d, rh)
    case _ => Announced(false, None, None, 0.0)
  }

  lemma FiringTick(c: Config, s: Snapshot, e: Eph, i: Inputs, now: real, caps: Caps)
    requires FiresIn(Tick(c, s, e, i, now, caps).events)
    ensures var r, recipe := Tick(c, s, e, i, now, caps), Reconcile(TargetTypes(c, i), i.profiles);
            && TargetTypes(c, i) != [] && c.mode != Off
            && AnnouncedIn(r.events) == Announced(c.mode == Active, recipe.temp, recipe.duration, i.humidity)
            && r.eph.temp == recipe.temp && r.eph.duration == recipe.duration
            && (c.mode == Active ==> r.snap == s.(state := Drying, since := now)
                                     && r.eph.started == now && r.eph.startRh == i.humidity)
            && (c.mode == Log ==>
                  r.snap == s.(state := Cooldown, cooldownUntil := now + (60 * caps.cooldownMin) as real))
  {
    hide RecentMin, TargetTypes, Reconcile, RunOf, RanMin, LimitText, DeltaText, AboveWake, DurationOver;
  }

  /**
   * Every filament of the ACE stands what is announced: neither hotter nor
   * longer than its own cycle. The temperature is that of one of them, and so
   * is the duration, unless it is the cap. Without a named filament all this is
   * said of the default type. The announced recipe is the one kept in memory.
   */
  lemma AnnouncedRecipe(c: Config, s: Snapshot, e: Eph, i: Inputs, now: real, caps: Caps)
    requires FiresIn(Tick(c, s, e, i, now, caps).events)
    ensures var r := Tick(c, s, e, i, now, caps);
            var a := AnnouncedIn(r.events);
            && a.temp.Some? && a.duration.Some? && a.duration.value <= 480 && a.rh == i.humidity
            && r.eph.temp == a.temp && r.eph.duration == a.duration
            && (a.inEarnest <==> c.mode == Active)
            && (forall h: nat | NamedAt(c, i, h) ::
                  var cycle := CycleFor(i.heads[h].value.filament, i.profiles);
                  a.temp.value <= cycle.temp && a.duration.value <= cycle.duration)
            && (AnyNamed(c, i) ==> exists h: nat ::
                  NamedAt(c, i, h) && a.temp.value == CycleFor(i.heads[h].value.filament, i.profiles).temp)
            && (AnyNamed(c, i) && a.duration.value < 480 ==> exists h: nat ::
                  NamedAt(c, i, h) && a.duration.value == CycleFor(i.heads[h].value.filament, i.profiles).duration)
            && (!AnyNamed(c, i) ==>
                  && TakesDefault(c, i)
                  && var cycle := CycleFor(c.defaultType.value, i.profiles);
                     && a.temp.value == cycle.temp
                     && a.duration.value == if cycle.duration <= 480 then cycle.duration else 480)
  {
    hide TargetTypes, Reconcile, CycleFor, Tick, CfgText.Strip;
    var types := TargetTypes(c, i);
    FiringTick(c, s, e, i, now, caps);
    TargetTypesAre(c, i);
    ReconcileProtects(types, i.profiles);
    var recipe := Reconcile(types, i.profiles);
    assert types[0] in types;
    forall h: nat | NamedAt(c, i, h)
      ensures i.heads[h].value.filament in types
    {
      assert AnyNamed(c, i);
    }
    var t :| t in types && recipe.temp.value == CycleFor(t, i.profiles).temp;
    if AnyNamed(c, i) {
      var h: nat :| NamedAt(c, i, h) && i.heads[h].value.filament == t;
      if recipe.duration.value < 480 {
        var u :| u in types && recipe.duration.value == CycleFor(u, i.profiles).duration;
        var g: nat :| NamedAt(c, i, g) && i.heads[g].value.filament == u;
      }
    }
  }

  // ---- when a cycle is announced ---------------------------------------------------------------

  /** The machine could announce, and the humidity is above the wake line: target plus hysteresis. */
  ghost predicate WakesNow(c: Config, s: Snapshot, i: Inputs, now: real, caps: Caps) {
    && s.state == Watching && c.mode != Off
    && i.humidityOk && 0.0 <= i.humidity <= 100.0 && i.humidity > (c.targetPct + c.hysteresis) as real
    && i.activeDevice == Some(c.ace) && (AnyNamed(c, i) || TakesDefault(c, i))
    && i.dryer != Running && i.printing != Printing && i.printing != Paused && !i.swapping
    && RecentMin(s.duty, now) < caps.dutyMaxMin && now >= s.cooldownUntil
  }

  /** Minutes of the runs started less than 24 hours ago, entry by entry. */
  lemma RecentOneMore(duty: seq<Duty>, d: Duty, now: real)
    ensures RecentMin([], now) == 0
    ensures RecentMin(duty + [d], now) == RecentMin(duty, now) + if now - d.started < 86400.0 then d.ran else 0
  {
    assert (duty + [d])[..|duty|] == duty;
  }

  lemma WakesIsAbove(c: Config, s: Snapshot, i: Inputs, now: real, caps: Caps)
    ensures AboveNow(c, s, i, now, caps) <==> WakesNow(c, s, i, now, caps)
  {
    hide RecentMin, TargetTypes, AnyNamed, TakesDefault;
    TargetTypesAre(c, i);
  }

  // ---- one tick, state by state ----------------------------------------------------------------

  /** Whole minutes, rounded down, between two times in order. */
  lemma WholeMinutes(started: real, now: real)
    requires started <= now
    ensures var ran := RanMin(started, now);
            ran >= 0 && (60 * ran) as real <= now - started < (60 * (ran + 1)) as real
  {
    var x := (now - started) / 60.0;
    assert x.Floor as real <= x < (x.Floor + 1) as real;
  }

  /** A drying cycle is over time when it has run its requested minutes; zero requests none. */
  predicate OverTime(e: Eph, now: real) {
    e.duration.Some? && e.duration.value != 0 && RanMin(e.started, now) >= e.duration.value
  }

  /** How a drying tick goes on, decided by print, humidity, run cap and requested minutes, in this order. */
  lemma DryingTick(c: Config, s: Snapshot, e: Eph, i: Inputs, now: real, caps: Caps)
    requires s.state == Drying
    ensures var r, ran := Tick(c, s, e, i, now, caps), RanMin(e.started, now);
            var printing, dry := i.printing == Printing || i.printing == Paused, i.humidity <= c.targetPct as real;
            var moved := e.startRh - i.humidity;
            && (r.snap.state == Drying
                <==> !printing && !dry && ran < caps.maxRunMin && !OverTime(e, now))
            && (r.snap.state == Faulted
                <==> !printing && !dry && (ran >= caps.maxRunMin || (OverTime(e, now) && moved < caps.minDelta)))
            && (r.snap.state == Drying || r.snap.state == Faulted || r.snap.state == Cooldown)
            && (r.snap.state == Faulted ==>
                  && r.snap.fault.Some? && r.snap.fault.value.since == now
                  && (r.snap.fault.value.code == FailedLimit <==> ran >= caps.maxRunMin)
                  && r.snap.fault.value.msg == (if ran >= caps.maxRunMin then LimitText(ran, c.targetPct)
                                                else DeltaText(ran, e.startRh, i.humidity))
                  && r.events == [if ran >= caps.maxRunMin then LimitFault(ran) else DeltaFault(moved)])
            && (r.snap.state == Cooldown ==> r.snap.cooldownUntil == now + (60 * caps.cooldownMin) as real)
            && (r.snap.state != Cooldown ==> r.snap.cooldownUntil == s.cooldownUntil)
            && (r.snap.state == Cooldown && !printing ==> r.events == [Finished(e.startRh, i.humidity, ran, !dry)])
            && (r.snap.state == Drying ==> r == Result(s, e, []))
  {
    hide RanMin, LimitText, DeltaText;
  }

  /** The record that the end of a drying cycle leaves, unless a print ended it. */
  lemma DryingRecord(c: Config, s: Snapshot, e: Eph, i: Inputs, now: real, caps: Caps)
    requires s.state == Drying && i.printing != Printing && i.printing != Paused
    ensures var r, ran := Tick(c, s, e, i, now, caps), RanMin(e.started, now);
            && (r.snap.state == Drying ==> r.snap.lastRun == s.lastRun && r.snap.duty == s.duty)
            && (r.snap.state != Drying ==>
                  r.snap.lastRun == Some(LastRun(Auto, r.snap.state == Cooldown, e.started, now, e.startRh, i.humidity,
                                                 OrZero(e.temp), OrZero(e.duration), ran)))
            && r.snap.duty == if r.snap.state == Cooldown then s.duty + [Duty(e.started, ran)] else s.duty
  {
    hide RanMin, LimitText, DeltaText;
  }

  /** The other states: armed or not, the dryer stopped or not, the cooldown over or not. */
  lemma OtherTicks(c: Config, s: Snapshot, e: Eph, i: Inputs, now: real, caps: Caps)
    ensures var r := Tick(c, s, e, i, now, caps);
            && (s.state == Idle ==>
                  r.snap == if Armed(c, i) then s.(state := Watching, since := now) else s)
            && (s.state == Cooldown ==>
                  r.snap == if now >= s.cooldownUntil then s.(state := Watching, since := now) else s)
            && (s.state == Watching && !Armed(c, i) ==> r.snap == s.(state := Idle))
            && (s.state == Watching && Armed(c, i) && i.dryer == Running ==> r.snap == s.(state := ObservedDrying))
            && (s.state == Watching && Armed(c, i) && i.dryer != Running && !FiresIn(r.events) ==> r.snap == s)
            && (s.state == ObservedDrying ==>
                  && (r.snap.state == Cooldown <==> i.dryer == Stopped)
                  && (i.dryer != Stopped ==> r.snap == s)
                  && (i.dryer == Stopped ==>
                        && r.snap.cooldownUntil == now + (60 * caps.cooldownMin) as real && r.snap.duty == s.duty
                        && r.snap.lastRun == Some(LastRun(Manual, true, e.started, now, e.startRh, i.humidity, 0, 0,
                                                          RanMin(e.started, now)))))
            && (s.state == Watching && r.snap.state == ObservedDrying ==>
                  r.eph.started == now && r.eph.startRh == i.humidity)
  {
    hide Armed, RecentMin, Reconcile, TargetTypes, RanMin, LimitText, DeltaText, AboveWake, DurationOver;
    hide EmitSkip;
  }

  /** A machine is armed when it may act, has a good reading, is the active one, and has something to suit. */
  lemma ArmedIff(c: Config, i: Inputs)
    ensures Armed(c, i)
       <==> && c.mode != Off && i.humidityOk && 0.0 <= i.humidity <= 100.0 && i.activeDevice == Some(c.ace)
            && (AnyNamed(c, i) || TakesDefault(c, i))
  {
    hide TargetTypes, AnyNamed, TakesDefault;
    TargetTypesAre(c, i);
  }

  // ---- the message of a fault ---------------------------------------------------------------------

  /** The number that a text of digits stands for. */
  function ReadNumber(s: string): int
    decreases |s|
  {
    if s == [] then 0 else 10 * ReadNumber(s[..|s| - 1]) + (s[|s| - 1] as int - '0' as int)
  }

  /** Digits only, no zero in front of others, and the number is `n`. */
  ghost predicate IsDecimal(s: string, n: nat) {
    s != [] && (forall k | 0 <= k < |s| :: '0' <= s[k] <= '9') && (s[0] == '0' ==> |s| == 1) && ReadNumber(s) == n
  }

  lemma {:induction false} PositiveNumber(s: string)
    requires s != [] && (forall k | 0 <= k < |s| :: '0' <= s[k] <= '9') && s[0] != '0'
    ensures ReadNumber(s) > 0
    decreases |s|
  {
    if |s| > 1 {
      PositiveNumber(s[..|s| - 1]);
    } else {
      assert s[..0] == [] && ReadNumber([]) == 0;
    }
  }

  lemma {:induction false} DigitsAre(n: nat)
    ensures IsDecimal(Digits(n), n)
  {
    var d := Digits(n);
    if n >= 10 {
      DigitsAre(n / 10);
      assert d[..|d| - 1] == Digits(n / 10);
    } else {
      assert d[..0] == [] && ReadNumber([]) == 0;
    }
  }

  /** Off its last digit, a longer decimal is the decimal of the tenth part. */
  lemma DropLast(s: string, n: nat)
    requires IsDecimal(s, n) && |s| > 1
    ensures n >= 10 && IsDecimal(s[..|s| - 1], n / 10) && s[|s| - 1] == ('0' as int + n % 10) as char
  {
    PositiveNumber(s[..|s| - 1]);
    assert n == 10 * ReadNumber(s[..|s| - 1]) + (s[|s| - 1] as int - '0' as int);
  }

  /** Every number has one such text. */
  lemma {:induction false} DigitsIff(s: string, n: nat)
    ensures s == Digits(n) <==> IsDecimal(s, n)
    decreases |s|
  {
    hide IsDecimal;
    DigitsAre(n);
    if IsDecimal(s, n) {
      if |s| > 1 {
        DropLast(s, n);
        DigitsIff(s[..|s| - 1], n / 10);
        assert s == s[..|s| - 1] + [s[|s| - 1]];
      } else {
        OneDigit(s, n);
      }
    }
  }

  lemma OneDigit(s: string, n: nat)
    requires IsDecimal(s, n) && |s| <= 1
    ensures s == Digits(n)
  {
    assert s[..0] == [] && ReadNumber([]) == 0;
  }

  /** A humidity is given to the nearest tenth, and halfway to the even one. */
  lemma TenthsAre(x: real, n: nat, whole: string, tenth: string)
    requires x >= 0.0
    requires n as real - 0.5 <= 10.0 * x <= n as real + 0.5
    requires 10.0 * x == n as real - 0.5 || 10.0 * x == n as real + 0.5 ==> n % 2 == 0
    requires IsDecimal(whole, n / 10) && IsDecimal(tenth, n % 10)
    ensures TenthsText(x) == whole + "." + tenth
    ensures x > 0.0 ==> TenthsText(-x) == "-" + whole + "." + tenth
  {
    hide Digits, IsDecimal, Nearest;
    DigitsIff(whole, n / 10);
    DigitsIff(tenth, n % 10);
    Rounded(10.0 * x, n);
  }

  lemma Rounded(y: real, n: int)
    requires n as real - 0.5 <= y <= n as real + 0.5
    requires y == n as real - 0.5 || y == n as real + 0.5 ==> n % 2 == 0
    ensures Nearest(y) == n
  {
    assert y.Floor == n || y.Floor == n - 1;
  }

  /** The messages of the two faults, `run` and `limit` being the decimal texts of their numbers. */
  lemma FaultTexts(ran: nat, target: nat, run: string, limit: string, started: real, ended: real)
    requires IsDecimal(run, ran) && IsDecimal(limit, target)
    ensures LimitText(ran, target) == run + "m run did not cross target " + limit + "%"
    ensures DeltaText(ran, started, ended)
         == run + "m run moved RH " + TenthsText(started) + "\U{2192}" + TenthsText(ended)
            + " (\U{0394}=" + TenthsText(started - ended) + "pp)"
  {
    hide Digits, TenthsText, IsDecimal;
    DigitsIff(run, ran);
    DigitsIff(limit, target);
  }

  // ---- a cycle from its announcement to its record ------------------------------------------------

  /** The machine dries from just after tick `i` up to tick `j`, without a restart. */
  predicate DriesThrough(r: Run, i: nat, j: nat)
    requires j < |r.steps|
  {
    forall t | i < t <= j :: SeenAt(r, t).snap.state == Drying && !r.steps[t].restarted
  }

  /** What tick `i` announces. */
  function AnnouncedAt(r: Run, i: nat): Announced
    requires i < |r.steps| && Fires(r, i)
  {
    AnnouncedIn(Outcome(r.caps, SeenAt(r, i), r.steps[i]).events)
  }

  lemma DriesOn(c: Config, s: Snapshot, e: Eph, i: Inputs, now: real, caps: Caps)
    requires s.state == Drying && Tick(c, s, e, i, now, caps).snap.state == Drying
    ensures Tick(c, s, e, i, now, caps) == Result(s, e, [])
  {
    hide RanMin, LimitText, DeltaText;
  }

  lemma {:induction false} CycleIsKept(r: Run, i: nat, j: nat)
    requires AfterEpoch(r) && i < j < |r.steps| && Fires(r, i) && DriesThrough(r, i, j)
    ensures var e, a := SeenAt(r, j).eph, AnnouncedAt(r, i);
            && e.started == r.steps[i].now && e.startRh == r.steps[i].inputs.humidity
            && e.temp == a.temp && e.duration == a.duration
    decreases j - i
  {
    hide Tick, FiresIn, Armed, At, AnnouncedIn, TargetTypes, Reconcile;
    var k := j - 1;
    var v, step := SeenAt(r, k), r.steps[k];
    NextIs(r, k);
    assert SeenAt(r, j).snap.state == Drying;
    if k == i {
      FiringTick(step.config, v.snap, v.eph, step.inputs, step.now, r.caps);
    } else {
      CycleIsKept(r, i, k);
      DriesOn(step.config, v.snap, v.eph, step.inputs, step.now, r.caps);
    }
  }

  /**
   * The record of a cycle that no restart and no print came into, over whole
   * runs: it began at the tick that announced it and ended at the tick that
   * left the drying state, with the humidities of those two ticks, the recipe
   * announced, and the whole minutes between. It is a success exactly when no
   * fault ended it, and then, and only then, its minutes are on the duty list.
   */
  lemma RecordTellsTheCycle(r: Run, i: nat, j: nat)
    requires AfterEpoch(r) && i < j < |r.steps| && Fires(r, i) && DriesThrough(r, i, j)
    requires At(r, j + 1).snap.state != Drying
    requires r.steps[j].inputs.printing != Printing && r.steps[j].inputs.printing != Paused
    ensures var first, last, a := r.steps[i], r.steps[j], AnnouncedAt(r, i);
            var s, ran := At(r, j + 1).snap, RanMin(first.now, last.now);
            && (s.state == Cooldown || s.state == Faulted)
            && a.temp.Some? && a.duration.Some?
            && s.lastRun == Some(LastRun(Auto, s.state == Cooldown, first.now, last.now,
                                         first.inputs.humidity, last.inputs.humidity,
                                         a.temp.value, a.duration.value, ran))
            && s.duty == SeenAt(r, j).snap.duty + if s.state == Cooldown then [Duty(first.now, ran)] else []
  {
    hide Tick, FiresIn, Armed, At, RanMin;
    var v, step := SeenAt(r, j), r.steps[j];
    NextIs(r, j);
    CycleIsKept(r, i, j);
    DryingTick(step.config, v.snap, v.eph, step.inputs, step.now, r.caps);
    DryingRecord(step.config, v.snap, v.eph, step.inputs, step.now, r.caps);
    var w, first := SeenAt(r, i), r.steps[i];
    AnnouncedRecipe(first.config, w.snap, w.eph, first.inputs, first.now, r.caps);
    assert v.snap.duty + [] == v.snap.duty;
  }

  // ---- rest after a cycle -------------------------------------------------------------------------

  lemma CooldownKept(caps: Caps, st: St, step: Step, bar: real)
    requires st.snap.cooldownUntil >= bar && step.now + (60 * caps.cooldownMin) as real >= bar
    ensures Next(caps, st, step).snap.cooldownUntil >= bar
  {
    hide Armed, RecentMin, Reconcile, RunOf, RanMin, LimitText, DeltaText, AboveWake, EmitSkip, DurationOver;
  }

  lemma {:induction false} RestKept(r: Run, i: nat, j: nat, bar: real)
    requires Timely(r) && i < j <= |r.steps| && At(r, i + 1).snap.cooldownUntil >= bar
    requires r.steps[i].now + (60 * r.caps.cooldownMin) as real >= bar
    ensures At(r, j).snap.cooldownUntil >= bar
    decreases j - i
  {
    hide Next;
    if i + 1 < j {
      RestKept(r, i, j - 1, bar);
      TimesOrdered(r, i, j - 1);
      CooldownKept(r.caps, At(r, j - 1), r.steps[j - 1], bar);
    }
  }

  /** However a cycle ends, by itself, by a print or by the user, as long as no fault does, nothing is
      announced before the cooldown is over, fault resets and restarts notwithstanding. */
  lemma RestAfterCycle(r: Run, i: nat, j: nat)
    requires Timely(r) && i < j < |r.steps|
    requires SeenAt(r, i).snap.state == Drying || SeenAt(r, i).snap.state == ObservedDrying
    requires At(r, i + 1).snap.state == Cooldown && Fires(r, j)
    ensures r.steps[j].now - r.steps[i].now >= (60 * r.caps.cooldownMin) as real
  {
    hide Tick, At, Armed;
    var v, step := SeenAt(r, i), r.steps[i];
    var bar := step.now + (60 * r.caps.cooldownMin) as real;
    NextIs(r, i);
    DryingOrOther(step.config, v.snap, v.eph, step.inputs, step.now, r.caps);
    RestKept(r, i, j, bar);
    var w, later := SeenAt(r, j), r.steps[j];
    TickBarred(later.config, w.snap, w.eph, later.inputs, later.now, r.caps, CooldownEnd(r.caps, later.now));
  }

  lemma DryingOrOther(c: Config, s: Snapshot, e: Eph, i: Inputs, now: real, caps: Caps)
    requires s.state == Drying || s.state == ObservedDrying
    ensures var r := Tick(c, s, e, i, now, caps).snap;
            r.state == Cooldown ==> r.cooldownUntil == now + (60 * caps.cooldownMin) as real
  {
    hide Tick, Armed;
    if s.state == Drying {
      DryingTick(c, s, e, i, now, caps);
    } else {
      OtherTicks(c, s, e, i, now, caps);
    }
  }

  // ---- what is skipped, and said so ------------------------------------------------------------------

  /** Why a tick is skipped, if it is: a print, a filament change, or the daily cap. */
  function SkipCode(c: Config, s: Snapshot, i: Inputs, now: real, caps: Caps): Option<string> {
    var printing := i.printing == Printing || i.printing == Paused;
    if s.state == Drying then if printing then Some("AUTODRY_SKIPPED_PRINT") else None
    else if s.state == Watching && Armed(c, i) && i.dryer != Running then
      if printing then Some("AUTODRY_SKIPPED_PRINT")
      else if i.swapping then Some("AUTODRY_SKIPPED_SWAP")
      else if RecentMin(s.duty, now) >= caps.dutyMaxMin then Some("AUTODRY_SKIPPED_DAILY")
      else None
    else None
  }

  lemma SkippingTick(c: Config, s: Snapshot, e: Eph, i: Inputs, now: real, caps: Caps)
    ensures var r, why := Tick(c, s, e, i, now, caps), SkipCode(c, s, i, now, caps);
            var due := why.Some? && (why.value !in e.skipped || now - e.skipped[why.value] >= 1800.0);
            && (forall code :: Skipped(code) in r.events <==> due && why == Some(code))
            && r.eph.skipped == if due then e.skipped[why.value := now] else e.skipped
  {
    hide Armed, RecentMin, Reconcile, TargetTypes, RunOf, RanMin, LimitText, DeltaText, AboveWake, DurationOver;
  }

  /** When a skip of a kind was last announced before tick `k`, since the last restart. */
  function LastSkip(r: Run, k: nat, code: string): Option<real>
    requires k <= |r.steps|
    decreases k
  {
    if k == 0 then None
    else if Skips(r, k - 1, code) then Some(r.steps[k - 1].now)
    else if r.steps[k - 1].restarted then None
    else LastSkip(r, k - 1, code)
  }

  lemma {:induction false} SkipsAreRemembered(r: Run, k: nat, code: string)
    requires k <= |r.steps|
    ensures var skipped := At(r, k).eph.skipped;
            LastSkip(r, k, code) == if code in skipped then Some(skipped[code]) else None
    decreases k
  {
    hide Tick, SkipCode;
    if k > 0 {
      SkipsAreRemembered(r, k - 1, code);
      var v, step := SeenAt(r, k - 1), r.steps[k - 1];
      SkippingTick(step.config, v.snap, v.eph, step.inputs, step.now, r.caps);
    }
  }

  /** In every run a skip is announced exactly when the tick is skipped for that reason, and none of the
      kind was announced in the last half hour, a restart wiping the slate. */
  lemma SkipIff(r: Run, k: nat, code: string)
    requires k < |r.steps|
    ensures var step := r.steps[k];
            var last := if step.restarted then None else LastSkip(r, k, code);
            Skips(r, k, code) == (SkipCode(step.config, SeenAt(r, k).snap, step.inputs, step.now, r.caps) == Some(code)
                                  && (last.Some? ==> step.now - last.value >= 1800.0))
  {
    hide Tick, SkipCode;
    SkipsAreRemembered(r, k, code);
    var v, step := SeenAt(r, k), r.steps[k];
    SkippingTick(step.config, v.snap, v.eph, step.inputs, step.now, r.caps);
  }
}
