/** Whole runs of auto-dry ticks: faults, debounce history and trigger spacing. */
module AutodryRuns {
  import opened Wrappers
  import opened AutodryFsm
  import opened Recipes

  datatype St = St(snap: Snapshot, eph: Eph)

  /** One tick of one machine, after an optional restart and an optional fault reset. */
  datatype Step = Step(restarted: bool, cleared: bool, now: real, config: Config, inputs: Inputs)

  /** A run from a blank state. Settings may change at every tick, caps may not. */
  datatype Run = Run(caps: Caps, required: nat, steps: seq<Step>)

  /** The state a tick works on. */
  function Seen(st: St, step: Step): St {
    var s := if step.cleared then ClearFault(st.snap) else st.snap;
    var e := if step.restarted then Fresh(st.eph.required) else st.eph;
    St(s, Recovered(s, e))
  }

  function Outcome(caps: Caps, st: St, step: Step): Result {
    Tick(step.config, st.snap, st.eph, step.inputs, step.now, caps)
  }

  function Next(caps: Caps, st: St, step: Step): St {
    var r := Outcome(caps, Seen(st, step), step);
    St(r.snap, r.eph)
  }

  /** The state after `k` ticks. */
  function At(r: Run, k: nat): St
    requires k <= |r.steps|
    decreases k
  {
    if k == 0 then St(BLANK, Fresh(r.required)) else Next(r.caps, At(r, k - 1), r.steps[k - 1])
  }

  function SeenAt(r: Run, k: nat): St
    requires k < |r.steps|
  {
    Seen(At(r, k), r.steps[k])
  }

  predicate Timely(r: Run) {
    forall k | 0 < k < |r.steps| :: r.steps[k - 1].now <= r.steps[k].now
  }

  lemma {:induction false} TimesOrdered(r: Run, i: nat, j: nat)
    requires Timely(r) && i <= j < |r.steps|
    ensures r.steps[i].now <= r.steps[j].now
    decreases j - i
  {
    if i < j {
      TimesOrdered(r, i, j - 1);
    }
  }

  // ---- faults -----------------------------------------------------------------------------

  predicate FaultShown(s: Snapshot) {
    s.fault.Some? <==> s.state == Faulted
  }

  lemma TickFault(c: Config, s: Snapshot, e: Eph, i: Inputs, now: real, caps: Caps)
    ensures FaultShown(s) ==> FaultShown(Tick(c, s, e, i, now, caps).snap)
    ensures s.state == Faulted ==> Tick(c, s, e, i, now, caps) == Result(s, e, [])
  {
    hide Armed, RecentMin, Reconcile, EmitSkip, RunOf, RanMin, CooldownEnd, LimitText, DeltaText, AboveWake;
  }

  /** A fault record is there exactly in the faulted state. */
  lemma {:induction false} FaultIffFaulted(r: Run, k: nat)
    requires k <= |r.steps|
    ensures FaultShown(At(r, k).snap)
    decreases k
  {
    hide Tick, Recovered;
    if k > 0 {
      FaultIffFaulted(r, k - 1);
      var v, step := SeenAt(r, k - 1), r.steps[k - 1];
      TickFault(step.config, v.snap, v.eph, step.inputs, step.now, r.caps);
    }
  }

  predicate Uncleared(r: Run, i: nat, j: nat) {
    forall k | i <= k < j && k < |r.steps| :: !r.steps[k].cleared
  }

  /** No number of ticks, whatever they see, leads out of the faulted state. */
  lemma {:induction false} FaultIsSticky(r: Run, i: nat, j: nat)
    requires i <= j <= |r.steps| && Uncleared(r, i, j)
    requires At(r, i).snap.state == Faulted
    ensures At(r, j).snap == At(r, i).snap
    decreases j - i
  {
    hide Tick, Recovered;
    if i < j {
      FaultIsSticky(r, i, j - 1);
      var v, step := SeenAt(r, j - 1), r.steps[j - 1];
      TickFault(step.config, v.snap, v.eph, step.inputs, step.now, r.caps);
    }
  }

  // ---- the debounce -----------------------------------------------------------------------

  /** The tick gets as far as comparing the humidity with the wake line. */
  predicate EvaluatesNow(c: Config, s: Snapshot, i: Inputs, now: real, caps: Caps) {
    && s.state == Watching && Armed(c, i)
    && i.dryer != Running && !Busy(i) && !i.swapping
    && RecentMin(s.duty, now) < caps.dutyMaxMin && now >= s.cooldownUntil
  }

  predicate AboveNow(c: Config, s: Snapshot, i: Inputs, now: real, caps: Caps) {
    EvaluatesNow(c, s, i, now, caps) && AboveWake(c, i)
  }

  predicate BelowNow(c: Config, s: Snapshot, i: Inputs, now: real, caps: Caps) {
    EvaluatesNow(c, s, i, now, caps) && !AboveWake(c, i)
  }

  predicate FiresIn(events: seq<Event>) {
    events != [] && (events[0].Triggered? || events[0].DryRun?)
  }

  /** Empty outside the watching state, never left full. */
  predicate Debounced(st: St) {
    0 <= st.eph.count < st.eph.required && (st.snap.state != Watching ==> st.eph.count == 0)
  }

  /** A watching tick with nothing to empty the debounce. */
  predicate QuietNow(c: Config, s: Snapshot, i: Inputs, now: real, caps: Caps) {
    s.state == Watching && Armed(c, i) && i.dryer != Running && !Busy(i) && !BelowNow(c, s, i, now, caps)
  }

  lemma TickCount(c: Config, s: Snapshot, e: Eph, i: Inputs, now: real, caps: Caps)
    requires Debounced(St(s, e))
    ensures var r := Tick(c, s, e, i, now, caps);
            && r.eph.required == e.required
            && (FiresIn(r.events) <==> AboveNow(c, s, i, now, caps) && e.count + 1 >= e.required)
            && r.eph.count == (if QuietNow(c, s, i, now, caps) && !FiresIn(r.events)
                               then e.count + (if AboveNow(c, s, i, now, caps) then 1 else 0) else 0)
            && (s.state == Watching && r.snap.state == Watching
                <==> s.state == Watching && Armed(c, i) && i.dryer != Running && !FiresIn(r.events))
            && Debounced(St(r.snap, r.eph))
  {
    hide Armed, RecentMin, Reconcile, RunOf, RanMin, CooldownEnd, LimitText, DeltaText, AboveWake;
  }

  predicate AboveAt(r: Run, k: nat)
    requires k < |r.steps|
  {
    AboveNow(r.steps[k].config, SeenAt(r, k).snap, r.steps[k].inputs, r.steps[k].now, r.caps)
  }

  /** A tick in the watching state that neither empties the debounce nor fires. */
  predicate QuietAt(r: Run, k: nat)
    requires k < |r.steps|
  {
    QuietNow(r.steps[k].config, SeenAt(r, k).snap, r.steps[k].inputs, r.steps[k].now, r.caps)
  }

  /** The tick announces a cycle, for real or as a dry run. */
  predicate Fires(r: Run, k: nat)
    requires k < |r.steps|
  {
    FiresIn(Outcome(r.caps, SeenAt(r, k), r.steps[k]).events)
  }

  /** Above-wake evaluations among the ticks from `i` up to `j`. */
  function AboveCount(r: Run, i: nat, j: nat): (n: nat)
    requires i <= j <= |r.steps|
    ensures n <= j - i
    decreases j - i
  {
    if i == j then 0 else AboveCount(r, i, j - 1) + if AboveAt(r, j - 1) then 1 else 0
  }

  /** The tick after which the debounce last started over, with a restart counted as just before its tick. */
  function LastReset(r: Run, k: nat): (j: nat)
    requires k <= |r.steps|
    ensures j <= k
    decreases k
  {
    if k == 0 then 0
    else if !QuietAt(r, k - 1) || Fires(r, k - 1) then k
    else if r.steps[k - 1].restarted then k - 1
    else LastReset(r, k - 1)
  }

  lemma StepDebounced(st: St, step: Step)
    requires Debounced(st)
    ensures var v := Seen(st, step);
            && Debounced(v) && v.eph.required == st.eph.required
            && v.eph.count == (if step.restarted then 0 else st.eph.count)
            && (v.snap.state == Watching <==> st.snap.state == Watching)
  {
  }

  /**
   * The debounce is empty outside the watching state and otherwise holds the
   * above-wake evaluations since it was last emptied.
   */
  lemma {:induction false} DebounceCounts(r: Run, k: nat)
    requires r.required >= 1 && k <= |r.steps|
    ensures Debounced(At(r, k)) && At(r, k).eph.required == r.required
    ensures At(r, k).eph.count == AboveCount(r, LastReset(r, k), k)
    decreases k
  {
    hide Tick, Recovered, Seen, AboveNow, BelowNow, QuietNow, FiresIn, Debounced;
    if k == 0 {
      BlankDebounced(r);
    } else {
      DebounceCounts(r, k - 1);
      StepDebounced(At(r, k - 1), r.steps[k - 1]);
      var v, step := SeenAt(r, k - 1), r.steps[k - 1];
      TickCount(step.config, v.snap, v.eph, step.inputs, step.now, r.caps);
    }
  }

  lemma BlankDebounced(r: Run)
    requires r.required >= 1
    ensures Debounced(At(r, 0)) && At(r, 0).eph.count == 0 && At(r, 0).eph.required == r.required
  {
  }

  /** Where the watch that fires at `k` began. */
  function WatchStart(r: Run, k: nat): (j: nat)
    requires k < |r.steps|
    ensures j <= k
  {
    if r.steps[k].restarted then k else LastReset(r, k)
  }

  /** Ticks that all watched, without a below-wake evaluation, a print or a restart in between. */
  predicate OneWatch(r: Run, j: nat, k: nat)
    requires k < |r.steps|
  {
    && (forall t | j <= t <= k ::
          && SeenAt(r, t).snap.state == Watching && !Busy(r.steps[t].inputs)
          && !BelowNow(r.steps[t].config, SeenAt(r, t).snap, r.steps[t].inputs, r.steps[t].now, r.caps))
    && (forall t | j < t <= k :: !r.steps[t].restarted)
  }

  lemma {:induction false} QuietSinceReset(r: Run, k: nat)
    requires k <= |r.steps|
    ensures forall t | LastReset(r, k) <= t < k :: QuietAt(r, t)
    ensures forall t | LastReset(r, k) < t < k :: !r.steps[t].restarted
    decreases k
  {
    hide QuietAt, Fires;
    if k > 0 {
      QuietSinceReset(r, k - 1);
    }
  }

  /**
   * A cycle is announced exactly when the evaluation is above the wake line and
   * is the `required`-th such since the watch began.
   */
  lemma FiresIff(r: Run, k: nat)
    requires r.required >= 1 && k < |r.steps|
    ensures Fires(r, k) <==> AboveAt(r, k) && AboveCount(r, WatchStart(r, k), k + 1) == r.required
  {
    hide Tick, Recovered, Seen, AboveNow, BelowNow, QuietNow, FiresIn, LastReset;
    DebounceCounts(r, k);
    StepDebounced(At(r, k), r.steps[k]);
    var v, step := SeenAt(r, k), r.steps[k];
    TickCount(step.config, v.snap, v.eph, step.inputs, step.now, r.caps);
    assert AboveCount(r, k, k) == 0;
    assert AboveCount(r, WatchStart(r, k), k + 1)
        == AboveCount(r, WatchStart(r, k), k) + if AboveAt(r, k) then 1 else 0;
  }

  /** Every announced cycle has `required` above-wake evaluations behind it in one watch. */
  lemma TriggerHistory(r: Run, k: nat)
    requires r.required >= 1 && k < |r.steps|
    ensures Fires(r, k) ==>
              OneWatch(r, WatchStart(r, k), k) && AboveCount(r, WatchStart(r, k), k + 1) == r.required
  {
    hide Tick, Recovered, Seen, Fires, AboveAt, LastReset, AboveCount, QuietAt, BelowNow, SeenAt;
    FiresIff(r, k);
    AboveIsQuiet(r, k);
    QuietSinceReset(r, k);
    if Fires(r, k) {
      forall t | WatchStart(r, k) <= t <= k
        ensures SeenAt(r, t).snap.state == Watching && !Busy(r.steps[t].inputs)
        ensures !BelowNow(r.steps[t].config, SeenAt(r, t).snap, r.steps[t].inputs, r.steps[t].now, r.caps)
      {
        QuietMeans(r, t);
      }
    }
  }

  lemma AboveIsQuiet(r: Run, k: nat)
    requires k < |r.steps|
    ensures AboveAt(r, k) ==> QuietAt(r, k)
  {
    hide SeenAt, Armed, RecentMin;
  }

  lemma QuietMeans(r: Run, t: nat)
    requires t < |r.steps|
    ensures QuietAt(r, t) ==>
              && SeenAt(r, t).snap.state == Watching && !Busy(r.steps[t].inputs)
              && !BelowNow(r.steps[t].config, SeenAt(r, t).snap, r.steps[t].inputs, r.steps[t].now, r.caps)
  {
    hide SeenAt, Armed, RecentMin, BelowNow;
  }

  /** The debounce after a series of observations. */
  function Observed(required: nat, above: seq<bool>): Eph
    decreases above
  {
    if above == [] then Fresh(required)
    else
      var before := Observed(required, above[..|above| - 1]);
      if above[|above| - 1] then ObserveAbove(before) else Reset(before)
  }

  /** How many observations in a row, up to the last, were above. */
  function Streak(above: seq<bool>): (n: nat)
    ensures n <= |above|
    ensures forall i | |above| - n <= i < |above| :: above[i]
    ensures n < |above| ==> !above[|above| - n - 1]
    decreases above
  {
    if above == [] || !above[|above| - 1] then 0
    else
      var n := Streak(above[..|above| - 1]);
      assert n < |above| - 1 ==> !above[|above| - 1 - n - 1];
      n + 1
  }

  /** The threshold is reached exactly when the last `required` observations were all above. */
  lemma {:induction false} ThresholdIff(required: nat, above: seq<bool>)
    requires required >= 1
    ensures Observed(required, above).required == required
    ensures Observed(required, above).count == if Streak(above) < required then Streak(above) else required
    ensures Observed(required, above).count >= required
       <==> required <= |above| && forall i | |above| - required <= i < |above| :: above[i]
    decreases above
  {
    if above != [] {
      ThresholdIff(required, above[..|above| - 1]);
    }
    var n := Streak(above);
    if required <= |above| && n < required {
      assert !above[|above| - n - 1];
    }
  }

  // ---- the distance between triggers -----------------------------------------------------------

  /** Past a trigger: still drying, given up, or barred from firing before `bar`. */
  predicate Barred(s: Snapshot, bar: real) {
    s.state == Drying || s.state == Faulted || s.cooldownUntil >= bar
  }

  lemma TickBarred(c: Config, s: Snapshot, e: Eph, i: Inputs, now: real, caps: Caps, bar: real)
    requires CooldownEnd(caps, now) >= bar
    ensures Barred(s, bar) ==> Barred(Tick(c, s, e, i, now, caps).snap, bar)
    ensures FiresIn(Tick(c, s, e, i, now, caps).events) ==>
              && Barred(Tick(c, s, e, i, now, caps).snap, bar)
              && Tick(c, s, e, i, now, caps).snap.state != Watching
              && now >= s.cooldownUntil && s.state == Watching
  {
    hide Armed, RecentMin, Reconcile, RunOf, RanMin, CooldownEnd, LimitText, DeltaText, AboveWake;
  }

  lemma {:induction false} BarredAfter(r: Run, i: nat, j: nat)
    requires Timely(r) && i < j <= |r.steps| && Uncleared(r, i + 1, j)
    ensures Fires(r, i) ==> Barred(At(r, j).snap, CooldownEnd(r.caps, r.steps[i].now))
    decreases j - i
  {
    hide Tick, Recovered, Barred;
    var v, step := SeenAt(r, j - 1), r.steps[j - 1];
    var bar := CooldownEnd(r.caps, r.steps[i].now);
    TimesOrdered(r, i, j - 1);
    TickBarred(step.config, v.snap, v.eph, step.inputs, step.now, r.caps, bar);
    if i < j - 1 {
      BarredAfter(r, i, j - 1);
    }
  }

  /**
   * Two announced cycles without a fault reset in between are at least the
   * cooldown apart in time, and one more tick than the debounce needs.
   */
  lemma TriggerSpacing(r: Run, i: nat, j: nat)
    requires r.required >= 1 && Timely(r) && i < j < |r.steps| && Uncleared(r, i + 1, j + 1)
    ensures Fires(r, i) && Fires(r, j) ==>
              && r.steps[j].now - r.steps[i].now >= (r.caps.cooldownMin * 60) as real
              && j - i >= r.required + 1
  {
    hide Tick, Recovered, Seen, SeenAt, QuietAt, Fires, WatchStart, AboveAt, BelowNow;
    if Fires(r, i) && Fires(r, j) {
      TriggerApart(r, i, j);
      TriggerHistory(r, j);
      AfterFiring(r, i);
      WatchIsLater(r, WatchStart(r, j), j, i + 1);
    }
  }

  lemma WatchIsLater(r: Run, j: nat, k: nat, t: nat)
    requires t <= k < |r.steps| && OneWatch(r, j, k) && SeenAt(r, t).snap.state != Watching
    ensures j > t
  {
    hide SeenAt, BelowNow;
  }

  /** The tick after an announcement does not watch. */
  lemma AfterFiring(r: Run, i: nat)
    requires i + 1 < |r.steps|
    ensures Fires(r, i) ==> SeenAt(r, i + 1).snap.state != Watching
  {
    var v, step := SeenAt(r, i), r.steps[i];
    hide Tick, Recovered;
    TickBarred(step.config, v.snap, v.eph, step.inputs, step.now, r.caps, CooldownEnd(r.caps, step.now));
  }

  lemma TriggerApart(r: Run, i: nat, j: nat)
    requires Timely(r) && i < j < |r.steps| && Uncleared(r, i + 1, j + 1)
    ensures Fires(r, i) && Fires(r, j) ==> r.steps[j].now - r.steps[i].now >= (r.caps.cooldownMin * 60) as real
  {
    hide Tick, Recovered;
    BarredAfter(r, i, j);
    var v, step := SeenAt(r, j), r.steps[j];
    TimesOrdered(r, i, j);
    TickBarred(step.config, v.snap, v.eph, step.inputs, step.now, r.caps, CooldownEnd(r.caps, r.steps[i].now));
  }

  // ---- the distance between skip events ----------------------------------------------------------

  predicate SkippedSince(e: Eph, code: string, from: real) {
    code in e.skipped && e.skipped[code] >= from
  }

  lemma EmitSkipFacts(e: Eph, emitted: string, now: real, code: string, from: real)
    requires now >= from
    ensures var r := EmitSkip(e, emitted, now);
            && (SkippedSince(e, code, from) ==> SkippedSince(r.0, code, from))
            && (Skipped(code) in r.1 ==>
                  SkippedSince(r.0, code, now) && (code in e.skipped ==> now - e.skipped[code] >= SKIP_RATE_LIMIT_SEC))
            && r.0.(skipped := e.skipped) == e
  {
  }

  lemma TickSkips(c: Config, s: Snapshot, e: Eph, i: Inputs, now: real, caps: Caps, code: string, from: real)
    requires now >= from
    ensures var r := Tick(c, s, e, i, now, caps);
            && (SkippedSince(e, code, from) ==> SkippedSince(r.eph, code, from))
            && (Skipped(code) in r.events ==>
                  && SkippedSince(r.eph, code, now)
                  && (code in e.skipped ==> now - e.skipped[code] >= SKIP_RATE_LIMIT_SEC))
  {
    hide EmitSkip, Armed, RecentMin, Reconcile, RunOf, RanMin, CooldownEnd, LimitText, DeltaText, AboveWake;
    EmitSkipFacts(e, "AUTODRY_SKIPPED_PRINT", now, code, from);
    EmitSkipFacts(e, "AUTODRY_SKIPPED_SWAP", now, code, from);
    EmitSkipFacts(e, "AUTODRY_SKIPPED_DAILY", now, code, from);
  }

  predicate Skips(r: Run, k: nat, code: string)
    requires k < |r.steps|
  {
    Skipped(code) in Outcome(r.caps, SeenAt(r, k), r.steps[k]).events
  }

  predicate NoRestart(r: Run, i: nat, j: nat) {
    forall k | i <= k < j && k < |r.steps| :: !r.steps[k].restarted
  }

  lemma {:induction false} SkippedSinceThen(r: Run, i: nat, j: nat, code: string)
    requires Timely(r) && i < j <= |r.steps| && NoRestart(r, i + 1, j)
    ensures Skips(r, i, code) ==> SkippedSince(At(r, j).eph, code, r.steps[i].now)
    decreases j - i
  {
    hide Tick, SkippedSince;
    var v, step := SeenAt(r, j - 1), r.steps[j - 1];
    TimesOrdered(r, i, j - 1);
    TickSkips(step.config, v.snap, v.eph, step.inputs, step.now, r.caps, code, r.steps[i].now);
    if i < j - 1 {
      SkippedSinceThen(r, i, j - 1, code);
      SeenKeepsSkips(At(r, j - 1), step, code, r.steps[i].now);
    }
  }

  lemma SeenKeepsSkips(st: St, step: Step, code: string, from: real)
    requires !step.restarted
    ensures SkippedSince(st.eph, code, from) ==> SkippedSince(Seen(st, step).eph, code, from)
  {
  }

  /** Two skip events of one kind with no restart in between are at least the rate limit apart. */
  lemma SkipSpacing(r: Run, i: nat, j: nat, code: string)
    requires Timely(r) && i < j < |r.steps| && NoRestart(r, i + 1, j + 1)
    ensures Skips(r, i, code) && Skips(r, j, code) ==> r.steps[j].now - r.steps[i].now >= SKIP_RATE_LIMIT_SEC
  {
    hide Tick, At, Seen;
    SkippedSinceThen(r, i, j, code);
    SeenKeepsSkips(At(r, j), r.steps[j], code, r.steps[i].now);
    var v, step := SeenAt(r, j), r.steps[j];
    TimesOrdered(r, i, j);
    TickSkips(step.config, v.snap, v.eph, step.inputs, step.now, r.caps, code, step.now);
  }
}
