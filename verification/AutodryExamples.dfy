/**
 * Runs of auto-dry ticks that show what a theorem leaves open.
 *
 * `ZERO_RUN` has a user profile of duration zero and exceeds the duty bound that
 * the per-cycle cap would give. `TIGHT_RUN` announces two cycles as early as the
 * spacing theorem allows. In `PrintRun` a print interrupts every cycle, and in
 * `MANUAL_RUN` the dryer is switched on by hand: both heat for longer than the
 * daily cap without a single entry in the duty list.
 *
 * Each run is short or periodic, and is followed tick by tick from the blank
 * state. The settings are the shipped ones wherever nothing else is said.
 */
module AutodryExamples {
  import opened Wrappers
  import opened Recipes
  import opened AutodryFsm
  import opened AutodryRuns
  import opened AutodryDuty
  import opened AutodryHeat
  import CfgText

  // ---- a duration of zero ---------------------------------------------------------------------------

  const ZERO_CONFIG := Config(Active, 0, 15, 5, Some("PLA"), true)
  const ZERO_CAPS := Caps(30, 720, 1, 3.0)

  function ZeroStep(now: real, humidity: real): Step {
    Step(false, false, now, ZERO_CONFIG,
         Inputs(Some(0), [], false, true, humidity, Standby, Stopped, [Profile("PLA", 50, 0)]))
  }

  /** Damp air for 700 minutes with a profile of duration zero. */
  const ZERO_RUN := Run(ZERO_CAPS, 1,
    [ZeroStep(60.0, 50.0), ZeroStep(120.0, 50.0), ZeroStep(12120.0, 50.0), ZeroStep(24120.0, 50.0),
     ZeroStep(36120.0, 50.0), ZeroStep(42120.0, 10.0)])

  lemma ZeroIsArmed(now: real, humidity: real)
    requires 0.0 <= humidity <= 100.0
    ensures Armed(ZERO_CONFIG, ZeroStep(now, humidity).inputs)
    ensures Reconcile(TargetTypes(ZERO_CONFIG, ZeroStep(now, humidity).inputs), [Profile("PLA", 50, 0)]).duration
         == Some(0)
  {
    hide Name;
    var types := TargetTypes(ZERO_CONFIG, ZeroStep(now, humidity).inputs);
    assert Loaded([], 0) == [] && Named([]) == [];
    assert types == ["PLA"];
    assert CycleFor("PLA", [Profile("PLA", 50, 0)]) == Cycle(50, 0);
    assert Strictest(["PLA"], [Profile("PLA", 50, 0)]) == Cycle(50, 0);
  }

  lemma ZeroWatches()
    ensures At(ZERO_RUN, 1) == St(BLANK.(state := Watching, since := 60.0), Fresh(1))
  {
    hide Armed;
    ZeroIsArmed(60.0, 50.0);
    assert At(ZERO_RUN, 0) == St(BLANK, Fresh(1));
    assert At(ZERO_RUN, 1) == Next(ZERO_CAPS, At(ZERO_RUN, 0), ZERO_RUN.steps[0]);
  }

  lemma ZeroTriggers()
    ensures var st := At(ZERO_RUN, 2);
            st.snap.state == Drying && st.snap.duty == [] && st.eph.started == 120.0 && st.eph.duration == Some(0)
  {
    hide Armed, Reconcile, TargetTypes;
    ZeroWatches();
    ZeroIsArmed(120.0, 50.0);
    assert At(ZERO_RUN, 2) == Next(ZERO_CAPS, At(ZERO_RUN, 1), ZERO_RUN.steps[1]);
  }

  lemma ZeroDries(k: nat)
    requires 2 <= k <= 5
    ensures var st := At(ZERO_RUN, k);
            st.snap.state == Drying && st.snap.duty == [] && st.eph.started == 120.0 && st.eph.duration == Some(0)
    decreases k
  {
    hide Armed, Reconcile, TargetTypes;
    if k == 2 {
      ZeroTriggers();
    } else {
      ZeroDries(k - 1);
      assert RanMin(120.0, 12120.0) == 200 && RanMin(120.0, 24120.0) == 400 && RanMin(120.0, 36120.0) == 600;
      assert At(ZERO_RUN, k) == Next(ZERO_CAPS, At(ZERO_RUN, k - 1), ZERO_RUN.steps[k - 1]);
    }
  }

  /** With a profile of duration zero the per-cycle cap is not in force, and the bound built on it fails. */
  lemma ZeroDurationBreaksTheCap()
    ensures Timely(ZERO_RUN) && AfterEpoch(ZERO_RUN) && Paced(ZERO_RUN, 12000.0) && Uninterrupted(ZERO_RUN)
    ensures WindowMin(At(ZERO_RUN, 6).snap.duty, 0.0) == 700
    ensures 700 >= ZERO_CAPS.dutyMaxMin + PER_CYCLE_MAX_MIN + GapMin(12000.0)
  {
    hide Armed, Reconcile, TargetTypes;
    ZeroDries(5);
    assert RanMin(120.0, 42120.0) == 700;
    assert At(ZERO_RUN, 6) == Next(ZERO_CAPS, At(ZERO_RUN, 5), ZERO_RUN.steps[5]);
    assert At(ZERO_RUN, 6).snap.duty == [Duty(120.0, 700)];
    assert [Duty(120.0, 700)][..0] == [];
    assert WindowMin([], 0.0) == 0;
    assert -12000.0 / 60.0 == -200.0;
  }

  // ---- the spacing bound is met --------------------------------------------------------------------------

  function DampStep(now: real): Step {
    ZeroStep(now, 50.0).(config := ZERO_CONFIG.(mode := Log))
  }

  /** Dry runs in steady damp air, with a debounce of one. */
  const TIGHT_RUN := Run(DEFAULT_CAPS, 1, [DampStep(60.0), DampStep(120.0), DampStep(1920.0), DampStep(1920.0)])

  lemma TightIsArmed(now: real)
    ensures Armed(DampStep(now).config, DampStep(now).inputs)
    ensures AboveWake(DampStep(now).config, DampStep(now).inputs)
  {
    hide CfgText.Strip;
    assert Loaded([], 0) == [] && Named([]) == [];
  }

  lemma TightWatches()
    ensures At(TIGHT_RUN, 1) == St(BLANK.(state := Watching, since := 60.0), Fresh(1))
  {
    hide Armed;
    TightIsArmed(60.0);
    assert At(TIGHT_RUN, 0) == St(BLANK, Fresh(1));
    assert At(TIGHT_RUN, 1) == Next(DEFAULT_CAPS, At(TIGHT_RUN, 0), TIGHT_RUN.steps[0]);
  }

  lemma TightFires()
    ensures Fires(TIGHT_RUN, 1)
    ensures var st := At(TIGHT_RUN, 2);
            st.snap.state == Cooldown && st.snap.cooldownUntil == 1920.0 && st.snap.duty == []
            && st.eph.count == 0 && st.eph.required == 1
  {
    hide Armed, Reconcile, TargetTypes, AboveWake;
    TightWatches();
    TightIsArmed(120.0);
    assert At(TIGHT_RUN, 2) == Next(DEFAULT_CAPS, At(TIGHT_RUN, 1), TIGHT_RUN.steps[1]);
  }

  lemma TightCools()
    ensures var st := At(TIGHT_RUN, 3);
            st.snap.state == Watching && st.snap.cooldownUntil == 1920.0 && st.snap.duty == []
            && st.eph.count == 0 && st.eph.required == 1
  {
    hide Armed, Reconcile, TargetTypes, AboveWake;
    TightFires();
    assert At(TIGHT_RUN, 3) == Next(DEFAULT_CAPS, At(TIGHT_RUN, 2), TIGHT_RUN.steps[2]);
  }

  /** Neither spacing bound can be improved: here both are met exactly. */
  lemma SpacingIsTight()
    ensures Timely(TIGHT_RUN) && Fires(TIGHT_RUN, 1) && Fires(TIGHT_RUN, 3) && Uncleared(TIGHT_RUN, 2, 4)
    ensures TIGHT_RUN.steps[3].now - TIGHT_RUN.steps[1].now == (DEFAULT_CAPS.cooldownMin * 60) as real
    ensures 3 - 1 == TIGHT_RUN.required + 1
  {
    hide Armed, Reconcile, TargetTypes, AboveWake;
    TightFires();
    TightCools();
    TightIsArmed(1920.0);
  }

  // ---- heating the cap does not see -------------------------------------------------------------------

  const DAMP_CONFIG := Config(Active, 0, 15, 5, Some("PLA"), true)

  /** Seconds from the start of a period to its `p`-th tick: five samples, a print, the end of the cooldown. */
  function Offset(p: nat): nat {
    if p < 5 then 60 * (p + 1) else if p == 5 then 21300 else 23100
  }

  function PrintStep(i: nat): Step {
    var now := if i == 0 then 1 else (i - 1) / 7 * 23100 + Offset((i - 1) % 7);
    var printing := if i > 0 && (i - 1) % 7 == 5 then Printing else Standby;
    Step(false, false, now as real, DAMP_CONFIG,
         Inputs(Some(0), [], false, true, 50.0, printing, Stopped, []))
  }

  /** As shipped, in damp air: `n` cycles, each interrupted by a print after 350 minutes. */
  function PrintRun(n: nat): Run {
    Run(DEFAULT_CAPS, DEFAULT_DEBOUNCE_REQUIRED, seq(1 + 7 * n, i requires 0 <= i < 1 + 7 * n => PrintStep(i)))
  }

  lemma DampIsArmed(i: nat)
    ensures Armed(DAMP_CONFIG, PrintStep(i).inputs) && AboveWake(DAMP_CONFIG, PrintStep(i).inputs)
  {
    hide CfgText.Strip;
    assert Loaded([], 0) == [] && Named([]) == [];
  }

  /** Watching with nothing on record and `p` samples in the debounce. */
  predicate Counting(st: St, c: nat, p: nat) {
    && st.snap.state == Watching && st.snap.duty == [] && st.snap.cooldownUntil <= (c * 23100) as real
    && st.eph.count == p && st.eph.required == 5
  }

  lemma PeriodStep(c: nat, p: nat)
    requires p < 7
    ensures PrintStep(1 + 7 * c + p).now == (c * 23100 + Offset(p)) as real
    ensures PrintStep(1 + 7 * c + p).inputs.printing == if p == 5 then Printing else Standby
  {
    var j := 7 * c + p;
    assert j / 7 == c && j % 7 == p;
  }

  lemma StepOf(n: nat, i: nat)
    requires i < 1 + 7 * n
    ensures |PrintRun(n).steps| == 1 + 7 * n && PrintRun(n).steps[i] == PrintStep(i)
    ensures At(PrintRun(n), i + 1) == Next(DEFAULT_CAPS, At(PrintRun(n), i), PrintStep(i))
    ensures Cycles(PrintRun(n), i + 1)
         == Cycles(PrintRun(n), i)
            + EndedBy(Seen(At(PrintRun(n), i), PrintStep(i)), PrintStep(i),
                      Outcome(DEFAULT_CAPS, Seen(At(PrintRun(n), i), PrintStep(i)), PrintStep(i)),
                      HeatSince(PrintRun(n), i))
  {
    hide Next, PrintStep, EndedBy, Outcome, Seen, HeatSince;
  }

  lemma FirstTick(n: nat)
    ensures |PrintRun(n).steps| == 1 + 7 * n
    ensures Counting(At(PrintRun(n), 1), 0, 0) && Cycles(PrintRun(n), 1) == []
  {
    hide Armed, AboveWake;
    DampIsArmed(0);
    StepOf(n, 0);
    assert At(PrintRun(n), 0) == St(BLANK, Fresh(5));
  }

  lemma SampleTick(n: nat, c: nat, p: nat)
    requires c < n && p < 4 && 1 + 7 * c + p < 1 + 7 * n && Counting(At(PrintRun(n), 1 + 7 * c + p), c, p)
    ensures Counting(At(PrintRun(n), 1 + 7 * c + p + 1), c, p + 1)
    ensures Cycles(PrintRun(n), 1 + 7 * c + p + 1) == Cycles(PrintRun(n), 1 + 7 * c + p)
  {
    hide Armed, AboveWake, At, Cycles;
    var i := 1 + 7 * c + p;
    DampIsArmed(i);
    PeriodStep(c, p);
    StepOf(n, i);
    assert RecentMin([], PrintStep(i).now) == 0;
    hide PrintRun;
    WatchingSample(At(PrintRun(n), i), PrintStep(i), c, p);
    var more: seq<Heating> := [];
    assert Cycles(PrintRun(n), i) + more == Cycles(PrintRun(n), i);
  }

  lemma WatchingSample(st: St, step: Step, c: nat, p: nat)
    requires Counting(st, c, p) && p < 5 && !step.restarted && !step.cleared && step.now >= (c * 23100) as real
    requires step.config == DAMP_CONFIG && Armed(step.config, step.inputs) && AboveWake(step.config, step.inputs)
    requires !Busy(step.inputs) && step.inputs.dryer == Stopped && !step.inputs.swapping
    ensures var v := Seen(st, step);
            var out := Outcome(DEFAULT_CAPS, v, step);
            && (forall since :: EndedBy(v, step, out, since) == [])
            && (p < 4 ==> Counting(St(out.snap, out.eph), c, p + 1))
            && (p == 4 && step.now == (c * 23100 + 300) as real ==> DryingSince(St(out.snap, out.eph), c))
  {
    hide Armed, AboveWake, Reconcile, TargetTypes;
    assert RecentMin([], step.now) == 0;
  }

  predicate DryingSince(st: St, c: nat) {
    && st.snap.state == Drying && st.snap.duty == [] && st.eph.count == 0 && st.eph.required == 5
    && st.eph.started == (c * 23100 + 300) as real
  }

  predicate CoolingUntil(st: St, c: nat) {
    && st.snap.state == Cooldown && st.snap.duty == [] && st.eph.count == 0 && st.eph.required == 5
    && st.snap.cooldownUntil == (c * 23100 + 23100) as real
  }

  lemma FifthSample(n: nat, c: nat)
    requires c < n && 7 * c + 7 <= 7 * n && Counting(At(PrintRun(n), 1 + 7 * c + 4), c, 4)
    ensures DryingSince(At(PrintRun(n), 1 + 7 * c + 5), c)
    ensures Cycles(PrintRun(n), 1 + 7 * c + 5) == Cycles(PrintRun(n), 1 + 7 * c + 4)
  {
    hide Armed, AboveWake, At, Cycles, Counting;
    var i := 1 + 7 * c + 4;
    DampIsArmed(i);
    PeriodStep(c, 4);
    StepOf(n, i);
    var r := PrintRun(n);
    hide PrintRun;
    WatchingSample(At(r, i), PrintStep(i), c, 4);
    var more: seq<Heating> := [];
    assert Cycles(r, i) + more == Cycles(r, i);
  }

  lemma PrintTick(n: nat, c: nat)
    requires c < n && 7 * c + 7 <= 7 * n && DryingSince(At(PrintRun(n), 1 + 7 * c + 5), c)
    ensures CoolingUntil(At(PrintRun(n), 1 + 7 * c + 6), c)
    ensures Cycles(PrintRun(n), 1 + 7 * c + 6)
         == Cycles(PrintRun(n), 1 + 7 * c + 5) + [Heating((c * 23100 + 300) as real, 350, false)]
  {
    hide At, Cycles, DryingSince, CoolingUntil;
    var i := 1 + 7 * c + 5;
    PeriodStep(c, 5);
    StepOf(n, i);
    var r := PrintRun(n);
    hide PrintRun;
    PrintEnds(At(r, i), PrintStep(i), c);
  }

  lemma CoolTick(n: nat, c: nat)
    requires c < n && 7 * c + 7 <= 7 * n && CoolingUntil(At(PrintRun(n), 1 + 7 * c + 6), c)
    ensures Counting(At(PrintRun(n), 1 + 7 * c + 7), c + 1, 0)
    ensures Cycles(PrintRun(n), 1 + 7 * c + 7) == Cycles(PrintRun(n), 1 + 7 * c + 6)
  {
    hide At, Cycles, CoolingUntil, Counting;
    var i := 1 + 7 * c + 6;
    PeriodStep(c, 6);
    StepOf(n, i);
    var r := PrintRun(n);
    hide PrintRun;
    CoolingEnds(At(r, i), PrintStep(i), c);
    var more: seq<Heating> := [];
    assert Cycles(r, i) + more == Cycles(r, i);
  }

  /** The fifth sample starts the dryer, the print stops it, and half an hour later all is as before. */
  lemma CycleTicks(n: nat, c: nat)
    requires c < n && 7 * c + 7 <= 7 * n && Counting(At(PrintRun(n), 1 + 7 * c + 4), c, 4)
    ensures Counting(At(PrintRun(n), 1 + 7 * c + 7), c + 1, 0)
    ensures Cycles(PrintRun(n), 1 + 7 * c + 7)
         == Cycles(PrintRun(n), 1 + 7 * c + 4) + [Heating((c * 23100 + 300) as real, 350, false)]
  {
    hide Counting, DryingSince, CoolingUntil, At, Cycles;
    FifthSample(n, c);
    PrintTick(n, c);
    CoolTick(n, c);
  }

  lemma PrintEnds(st: St, step: Step, c: nat)
    requires DryingSince(st, c) && step.now == (c * 23100 + 21300) as real
    requires !step.restarted && !step.cleared && step.inputs.printing == Printing
    ensures var v := Seen(st, step);
            var out := Outcome(DEFAULT_CAPS, v, step);
            && (forall since :: EndedBy(v, step, out, since) == [Heating((c * 23100 + 300) as real, 350, false)])
            && CoolingUntil(St(out.snap, out.eph), c)
  {
    Ran350(st.eph.started, step.now);
    hide RanMin;
    assert CooldownEnd(DEFAULT_CAPS, step.now) == (c * 23100 + 23100) as real;
  }

  lemma Ran350(started: real, now: real)
    requires now - started == 21000.0
    ensures RanMin(started, now) == 350
  {
    assert (now - started) / 60.0 == 350.0;
  }

  lemma CoolingEnds(st: St, step: Step, c: nat)
    requires CoolingUntil(st, c) && step.now == (c * 23100 + 23100) as real
    requires !step.restarted && !step.cleared
    ensures var v := Seen(st, step);
            var out := Outcome(DEFAULT_CAPS, v, step);
            (forall since :: EndedBy(v, step, out, since) == []) && Counting(St(out.snap, out.eph), c + 1, 0)
  {
  }

  /** The cycles of `n` periods. */
  function Interrupted(n: nat): seq<Heating> {
    seq(n, c requires 0 <= c < n => Heating((c * 23100 + 300) as real, 350, false))
  }

  lemma {:induction false} PeriodsRepeat(n: nat, c: nat)
    requires c <= n
    ensures |PrintRun(n).steps| == 1 + 7 * n && Counting(At(PrintRun(n), 1 + 7 * c), c, 0)
    ensures Cycles(PrintRun(n), 1 + 7 * c) == Interrupted(c)
    decreases c
  {
    hide Counting, At, Cycles;
    FirstTick(n);
    if c > 0 {
      var i := 1 + 7 * (c - 1);
      PeriodsRepeat(n, c - 1);
      hide PrintRun;
      SampleTick(n, c - 1, 0);
      SampleTick(n, c - 1, 1);
      SampleTick(n, c - 1, 2);
      SampleTick(n, c - 1, 3);
      CycleTicks(n, c - 1);
      assert Interrupted(c) == Interrupted(c - 1) + [Heating(((c - 1) * 23100 + 300) as real, 350, false)];
      assert i + 7 == 1 + 7 * c;
    } else {
      assert Interrupted(0) == [];
    }
  }

  lemma {:induction false} InterruptedHeat(c: nat)
    requires c <= 4
    ensures WindowHeat(Interrupted(c), 0.0) == 350 * c
    decreases c
  {
    if c > 0 {
      InterruptedHeat(c - 1);
      assert Interrupted(c)[..c - 1] == Interrupted(c - 1);
    }
  }

  lemma PrintTimes(n: nat)
    ensures Timely(PrintRun(n)) && AfterEpoch(PrintRun(n)) && Uninterrupted(PrintRun(n)) && NoUserProfiles(PrintRun(n))
  {
    hide At;
    forall i | 0 < i < 1 + 7 * n
      ensures PrintStep(i - 1).now <= PrintStep(i).now
    {
      var c, p := (i - 1) / 7, (i - 1) % 7;
      PeriodStep(c, p);
      if p > 0 {
        PeriodStep(c, p - 1);
      } else if c > 0 {
        PeriodStep(c - 1, 6);
      }
    }
  }

  /**
   * The cap is not in force against interrupted cycles: with the shipped
   * settings, four of them heat 1400 minutes within 24 hours, beyond the cap of
   * 1080, and the duty list stays empty.
   */
  lemma InterruptedCyclesEscapeTheCap()
    ensures Timely(PrintRun(4)) && AfterEpoch(PrintRun(4)) && NoUserProfiles(PrintRun(4)) && |PrintRun(4).steps| == 29
    ensures At(PrintRun(4), 29).snap.duty == []
    ensures WindowHeat(AllHeat(PrintRun(4), 29), 0.0) == 1400 > DEFAULT_CAPS.dutyMaxMin
  {
    hide At, Cycles, PrintRun, WindowHeat, HeatSince;
    PrintTimes(4);
    PeriodsRepeat(4, 4);
    InterruptedHeat(4);
    assert Interrupted(4) + Underway(PrintRun(4), 29) == Interrupted(4);
  }

  // ---- manual heating ---------------------------------------------------------------------------------

  function ManualStep(now: real, dryer: Dryer): Step {
    Step(false, false, now, DAMP_CONFIG, Inputs(Some(0), [], false, true, 50.0, Standby, dryer, []))
  }

  /** The dryer is switched on by hand, for 2000 minutes. */
  const MANUAL_RUN := Run(DEFAULT_CAPS, DEFAULT_DEBOUNCE_REQUIRED,
                          [ManualStep(1.0, Stopped), ManualStep(61.0, Running), ManualStep(120061.0, Stopped)])

  /** The machine watches, writes its record of the run, and puts nothing on the duty list. */
  lemma ManualHeatEscapesTheCap()
    ensures Timely(MANUAL_RUN) && AfterEpoch(MANUAL_RUN) && NoUserProfiles(MANUAL_RUN)
    ensures At(MANUAL_RUN, 3).snap.duty == []
    ensures AllHeat(MANUAL_RUN, 3) == [Heating(61.0, 2000, false)]
    ensures WindowHeat(AllHeat(MANUAL_RUN, 3), 0.0) == 2000 > DEFAULT_CAPS.dutyMaxMin
  {
    hide Armed;
    ManualIsArmed(1.0, Stopped);
    ManualIsArmed(61.0, Running);
    var r := MANUAL_RUN;
    assert At(r, 1) == Next(r.caps, At(r, 0), r.steps[0]) && At(r, 1).snap.state == Watching;
    assert At(r, 2) == Next(r.caps, At(r, 1), r.steps[1]) && At(r, 2).snap.state == ObservedDrying;
    assert At(r, 3) == Next(r.caps, At(r, 2), r.steps[2]) && At(r, 3).snap.state == Cooldown;
    assert RanMin(61.0, 120061.0) == 2000 by {
      assert (120061.0 - 61.0) / 60.0 == 2000.0;
    }
    assert HeatSince(r, 2) == 61.0;
    assert Cycles(r, 1) == [] && Cycles(r, 2) == [];
    assert [Heating(61.0, 2000, false)][..0] == [];
  }

  lemma ManualIsArmed(now: real, dryer: Dryer)
    ensures Armed(DAMP_CONFIG, ManualStep(now, dryer).inputs)
  {
    hide CfgText.Strip;
    assert Loaded([], 0) == [] && Named([]) == [];
  }
}
