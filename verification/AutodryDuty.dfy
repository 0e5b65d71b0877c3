/** Whole runs of auto-dry ticks: elapsed minutes, restarts and the sliding duty bound. */
module AutodryDuty {
  import opened Wrappers
  import opened AutodryFsm
  import opened AutodryRuns
  import opened Recipes

  /** Wall-clock time: never the zero that stands for "not set". */
  predicate AfterEpoch(r: Run) {
    forall k | 0 <= k < |r.steps| :: r.steps[k].now > 0.0
  }

  // ---- the start of a cycle ----------------------------------------------------------------

  /** While drying, memory and disk agree on when the cycle began. */
  predicate Anchored(st: St) {
    st.snap.state == Drying ==> st.eph.started == st.snap.since > 0.0
  }

  lemma StepAnchored(caps: Caps, st: St, step: Step)
    requires Anchored(st) && step.now > 0.0
    ensures Anchored(Seen(st, step)) && Anchored(Next(caps, st, step))
  {
    hide Armed, RecentMin, Reconcile, RunOf, RanMin, CooldownEnd, LimitText, DeltaText;
    hide AboveWake, DurationOver, EmitSkip;
    SkipKeepsStart(Seen(st, step).eph, "AUTODRY_SKIPPED_PRINT", step.now);
    SkipKeepsStart(Seen(st, step).eph, "AUTODRY_SKIPPED_SWAP", step.now);
    SkipKeepsStart(Seen(st, step).eph, "AUTODRY_SKIPPED_DAILY", step.now);
  }

  lemma SkipKeepsStart(e: Eph, code: string, now: real)
    ensures EmitSkip(e, code, now).0.(skipped := e.skipped) == e
  {
  }

  /** A cycle's start survives restarts: what a drying tick works with is the persisted time. */
  lemma {:induction false} StartSurvives(r: Run, k: nat)
    requires AfterEpoch(r) && k <= |r.steps|
    ensures Anchored(At(r, k))
    ensures k < |r.steps| ==> Anchored(SeenAt(r, k))
    decreases k
  {
    hide Next, Seen, Anchored;
    if k > 0 {
      StartSurvives(r, k - 1);
      StepAnchored(r.caps, At(r, k - 1), r.steps[k - 1]);
    } else {
      BlankAnchored(r);
    }
    if k < |r.steps| {
      StepAnchored(r.caps, At(r, k), r.steps[k]);
    }
  }

  lemma BlankAnchored(r: Run)
    ensures Anchored(At(r, 0))
  {
  }

  // ---- restarts ---------------------------------------------------------------------------------

  /** The tick ends the cycle because its requested duration is over. */
  predicate DurationEnds(c: Config, st: St, i: Inputs, now: real, caps: Caps) {
    && st.snap.state == Drying && !Busy(i) && i.humidity > c.targetPct as real
    && RanMin(st.eph.started, now) < caps.maxRunMin && DurationOver(st.eph, RanMin(st.eph.started, now))
  }

  /** The cycle of `a` ends by its duration, which `b` no longer knows. */
  predicate Forgets(c: Config, a: St, b: St, i: Inputs, now: real, caps: Caps) {
    DurationEnds(c, a, i, now, caps) && b.eph.duration == None
  }

  /** Equal but for the record of the last run and for what a restart may forget. */
  predicate Alike(a: St, b: St) {
    && a.snap.(lastRun := None) == b.snap.(lastRun := None)
    && a.eph.required == b.eph.required && a.eph.count == b.eph.count
    && (a.snap.state == Drying ==>
          && a.eph.started == b.eph.started
          && (b.eph.duration == None || (b.eph.duration == a.eph.duration && b.eph.startRh == a.eph.startRh)))
  }

  lemma WatchingAlike(c: Config, a: St, b: St, i: Inputs, now: real, caps: Caps)
    requires Alike(a, b) && a.snap.state == Watching
    ensures var x, y := TickWatching(c, a.snap, a.eph, i, now, caps), TickWatching(c, b.snap, b.eph, i, now, caps);
            Alike(St(x.snap, x.eph), St(y.snap, y.eph))
  {
    hide Armed, RecentMin, Reconcile, RunOf, RanMin, CooldownEnd, LimitText, DeltaText, AboveWake, EmitSkip;
    SkipKeepsStart(a.eph, "AUTODRY_SKIPPED_PRINT", now);
    SkipKeepsStart(a.eph, "AUTODRY_SKIPPED_SWAP", now);
    SkipKeepsStart(a.eph, "AUTODRY_SKIPPED_DAILY", now);
    SkipKeepsStart(b.eph, "AUTODRY_SKIPPED_PRINT", now);
    SkipKeepsStart(b.eph, "AUTODRY_SKIPPED_SWAP", now);
    SkipKeepsStart(b.eph, "AUTODRY_SKIPPED_DAILY", now);
  }

  lemma DryingAlike(c: Config, a: St, b: St, i: Inputs, now: real, caps: Caps)
    requires Alike(a, b) && a.snap.state == Drying && !Forgets(c, a, b, i, now, caps)
    ensures var x, y := TickDrying(c, a.snap, a.eph, i, now, caps), TickDrying(c, b.snap, b.eph, i, now, caps);
            Alike(St(x.snap, x.eph), St(y.snap, y.eph))
  {
    hide RunOf, RanMin, CooldownEnd, LimitText, DeltaText, EmitSkip;
    SkipKeepsStart(a.eph, "AUTODRY_SKIPPED_PRINT", now);
    SkipKeepsStart(b.eph, "AUTODRY_SKIPPED_PRINT", now);
  }

  lemma TickAlike(c: Config, a: St, b: St, i: Inputs, now: real, caps: Caps)
    requires Alike(a, b) && !Forgets(c, a, b, i, now, caps)
    ensures var x, y := Tick(c, a.snap, a.eph, i, now, caps), Tick(c, b.snap, b.eph, i, now, caps);
            Alike(St(x.snap, x.eph), St(y.snap, y.eph))
  {
    hide TickWatching, TickDrying, Forgets, RunOf, CooldownEnd, Armed;
    match a.snap.state {
      case Watching => WatchingAlike(c, a, b, i, now, caps);
      case Drying => DryingAlike(c, a, b, i, now, caps);
      case _ =>
    }
  }

  /** The same ticks; the second run has further restarts, none of them while watching. */
  predicate ExtraRestarts(plain: Run, again: Run) {
    && plain.caps == again.caps && plain.required == again.required && |plain.steps| == |again.steps|
    && forall k | 0 <= k < |plain.steps| ::
         && again.steps[k].(restarted := plain.steps[k].restarted) == plain.steps[k]
         && (plain.steps[k].restarted ==> again.steps[k].restarted)
         && (again.steps[k].restarted && !plain.steps[k].restarted ==> At(plain, k).snap.state != Watching)
  }

  /** At tick `t` the uninterrupted run ends a cycle whose duration the other has forgotten. */
  predicate ForgetsAt(plain: Run, again: Run, t: nat)
    requires t < |plain.steps| && t < |again.steps|
  {
    var step := plain.steps[t];
    Forgets(step.config, SeenAt(plain, t), SeenAt(again, t), step.inputs, step.now, plain.caps)
  }

  predicate NoneForgotten(plain: Run, again: Run, k: nat)
    requires k <= |plain.steps| == |again.steps|
  {
    forall t: nat | t < k :: !ForgetsAt(plain, again, t)
  }

  lemma SeenAlike(a: St, b: St, x: Step, y: Step)
    requires Alike(a, b) && Debounced(a) && Debounced(b) && Anchored(a) && Anchored(b)
    requires y.(restarted := x.restarted) == x && (x.restarted ==> y.restarted)
    requires y.restarted && !x.restarted ==> a.snap.state != Watching
    ensures Alike(Seen(a, x), Seen(b, y))
  {
  }

  /**
   * Restarting anywhere but in the watching state changes no later snapshot
   * except the last-run record, until a cycle is ended by a duration that a
   * restart forgot; the elapsed minutes agree at every tick up to there.
   */
  lemma {:induction false} RestartIsTransparent(plain: Run, again: Run, k: nat)
    requires ExtraRestarts(plain, again) && AfterEpoch(plain) && AfterEpoch(again)
    requires plain.required >= 1 && k <= |plain.steps| && NoneForgotten(plain, again, k)
    ensures Alike(At(plain, k), At(again, k))
    ensures k < |plain.steps| && SeenAt(plain, k).snap.state == Drying ==>
              && SeenAt(again, k).snap.state == Drying
              && RanMin(SeenAt(plain, k).eph.started, plain.steps[k].now)
                 == RanMin(SeenAt(again, k).eph.started, again.steps[k].now)
    decreases k
  {
    hide Seen, Tick, Debounced, Anchored, RanMin, Forgets;
    if k > 0 {
      RestartIsTransparent(plain, again, k - 1);
      AlikeSeen(plain, again, k - 1);
      var x := plain.steps[k - 1];
      assert !ForgetsAt(plain, again, k - 1);
      TickAlike(x.config, SeenAt(plain, k - 1), SeenAt(again, k - 1), x.inputs, x.now, plain.caps);
    } else {
      BlankAlike(plain, again);
    }
    if k < |plain.steps| {
      AlikeSeen(plain, again, k);
    }
  }

  /** All snapshots agree, last-run records apart. */
  predicate SameSnapshots(plain: Run, again: Run, k: nat)
    requires k <= |plain.steps| == |again.steps|
  {
    forall j: nat | j <= k :: At(plain, j).snap.(lastRun := None) == At(again, j).snap.(lastRun := None)
  }

  /** The two runs part exactly at the first tick that ends a cycle by a forgotten duration. */
  lemma PartsAtFirstForgotten(plain: Run, again: Run, t: nat)
    requires ExtraRestarts(plain, again) && AfterEpoch(plain) && AfterEpoch(again) && plain.required >= 1
    requires t < |plain.steps| && NoneForgotten(plain, again, t) && ForgetsAt(plain, again, t)
    ensures SameSnapshots(plain, again, t)
    ensures At(plain, t + 1).snap.state in {Cooldown, Faulted} && At(again, t + 1).snap.state == Drying
  {
    hide Seen, Tick, At, Alike, Forgets;
    forall j: nat | j <= t
      ensures At(plain, j).snap.(lastRun := None) == At(again, j).snap.(lastRun := None)
    {
      RestartIsTransparent(plain, again, j);
      AlikeSnapshots(At(plain, j), At(again, j));
    }
    RestartIsTransparent(plain, again, t);
    AlikeSeen(plain, again, t);
    var x := plain.steps[t];
    RestartForgetsDuration(x.config, SeenAt(plain, t), SeenAt(again, t), x.inputs, x.now, plain.caps);
    NextIs(plain, t);
    NextIs(again, t);
  }

  lemma AlikeSnapshots(a: St, b: St)
    requires Alike(a, b)
    ensures a.snap.(lastRun := None) == b.snap.(lastRun := None)
  {
  }

  lemma NextIs(r: Run, k: nat)
    requires k < |r.steps|
    ensures At(r, k + 1) == Next(r.caps, At(r, k), r.steps[k])
  {
    hide Next;
  }

  /** Both halves: restarts are invisible if and only if no forgotten duration ends a cycle. */
  lemma RestartIsTransparentIff(plain: Run, again: Run, k: nat)
    requires ExtraRestarts(plain, again) && AfterEpoch(plain) && AfterEpoch(again) && plain.required >= 1
    requires k <= |plain.steps|
    ensures SameSnapshots(plain, again, k) <==> NoneForgotten(plain, again, k)
  {
    hide At, Alike, ForgetsAt;
    if NoneForgotten(plain, again, k) {
      forall j: nat | j <= k
        ensures At(plain, j).snap.(lastRun := None) == At(again, j).snap.(lastRun := None)
      {
        RestartIsTransparent(plain, again, j);
        AlikeSnapshots(At(plain, j), At(again, j));
      }
    } else {
      var t := FirstForgotten(plain, again, k);
      PartsAtFirstForgotten(plain, again, t);
      assert t + 1 <= k;
      assert At(plain, t + 1).snap.(lastRun := None).state != At(again, t + 1).snap.(lastRun := None).state;
    }
  }

  lemma {:induction false} FirstForgotten(plain: Run, again: Run, k: nat) returns (t: nat)
    requires k <= |plain.steps| == |again.steps| && !NoneForgotten(plain, again, k)
    ensures t < k && NoneForgotten(plain, again, t) && ForgetsAt(plain, again, t)
    decreases k
  {
    hide ForgetsAt;
    if NoneForgotten(plain, again, k - 1) {
      t := k - 1;
    } else {
      t := FirstForgotten(plain, again, k - 1);
    }
  }

  lemma BlankAlike(plain: Run, again: Run)
    requires ExtraRestarts(plain, again)
    ensures Alike(At(plain, 0), At(again, 0))
  {
  }

  lemma AlikeSeen(plain: Run, again: Run, k: nat)
    requires ExtraRestarts(plain, again) && AfterEpoch(plain) && AfterEpoch(again) && plain.required >= 1
    requires k < |plain.steps| && Alike(At(plain, k), At(again, k))
    ensures Alike(SeenAt(plain, k), SeenAt(again, k))
  {
    hide Seen, At, Debounced, Anchored, Alike, LastReset, AboveCount;
    DebounceCounts(plain, k);
    DebounceCounts(again, k);
    StartSurvives(plain, k);
    StartSurvives(again, k);
    SeenAlike(At(plain, k), At(again, k), plain.steps[k], again.steps[k]);
  }

  /** The exception: a restarted cycle has forgotten its duration and dries on where the other ends. */
  lemma RestartForgetsDuration(c: Config, a: St, b: St, i: Inputs, now: real, caps: Caps)
    requires Alike(a, b) && Forgets(c, a, b, i, now, caps)
    ensures Tick(c, a.snap, a.eph, i, now, caps).snap.state in {Cooldown, Faulted}
    ensures b.snap.state == Drying && Tick(c, b.snap, b.eph, i, now, caps) == Result(b.snap, b.eph, [])
  {
  }

  // ---- the sliding 24-hour duty ------------------------------------------------------------------

  /** Minutes recorded for the runs started in the 24 hours from `w`. */
  function WindowMin(duty: seq<Duty>, w: real): int
    decreases duty
  {
    if duty == [] then 0
    else
      var last := duty[|duty| - 1];
      WindowMin(duty[..|duty| - 1], w) + if w <= last.started < w + DAY_SEC then last.ran else 0
  }

  /** Each run was short, and was started while the runs before it left room under the cap. */
  predicate DutyOk(duty: seq<Duty>, cap: int, most: int) {
    forall n | 0 <= n < |duty| :: 0 <= duty[n].ran <= most && RecentMin(duty[..n], duty[n].started) < cap
  }

  lemma {:induction false} WindowBelowRecent(duty: seq<Duty>, w: real, now: real, cap: int, most: int)
    requires DutyOk(duty, cap, most) && now < w + DAY_SEC
    ensures 0 <= WindowMin(duty, w) <= RecentMin(duty, now)
    decreases duty
  {
    if duty != [] {
      DutyOkPrefix(duty, cap, most);
      WindowBelowRecent(duty[..|duty| - 1], w, now, cap, most);
    }
  }

  lemma DutyOkPrefix(duty: seq<Duty>, cap: int, most: int)
    requires DutyOk(duty, cap, most) && duty != []
    ensures DutyOk(duty[..|duty| - 1], cap, most)
  {
    hide RecentMin;
    var init := duty[..|duty| - 1];
    forall n | 0 <= n < |init| ensures 0 <= init[n].ran <= most && RecentMin(init[..n], init[n].started) < cap {
      assert init[..n] == duty[..n];
    }
  }

  lemma DutyOkSnoc(duty: seq<Duty>, d: Duty, cap: int, most: int)
    requires DutyOk(duty, cap, most) && 0 <= d.ran <= most && RecentMin(duty, d.started) < cap
    ensures DutyOk(duty + [d], cap, most)
  {
    hide RecentMin;
    var all := duty + [d];
    forall n | 0 <= n < |all| ensures 0 <= all[n].ran <= most && RecentMin(all[..n], all[n].started) < cap {
      assert all[..n] == duty[..n];
      assert n == |duty| ==> duty[..n] == duty;
    }
  }

  /** In any window, the runs before the last one fit under the cap. */
  lemma {:induction false} WindowBound(duty: seq<Duty>, w: real, cap: int, most: int)
    requires DutyOk(duty, cap, most)
    ensures WindowMin(duty, w) == 0 || WindowMin(duty, w) < cap + most
    decreases duty
  {
    hide DutyOk;
    if duty != [] {
      var init, last := duty[..|duty| - 1], duty[|duty| - 1];
      DutyOkPrefix(duty, cap, most);
      if w <= last.started < w + DAY_SEC {
        WindowBelowRecent(init, w, last.started, cap, most);
        LastIsOk(duty, cap, most);
      } else {
        WindowBound(init, w, cap, most);
      }
    }
  }

  lemma LastIsOk(duty: seq<Duty>, cap: int, most: int)
    requires DutyOk(duty, cap, most) && duty != []
    ensures var init, last := duty[..|duty| - 1], duty[|duty| - 1];
            0 <= last.ran <= most && RecentMin(init, last.started) < cap
  {
  }

  // ---- every run is short --------------------------------------------------------------------------

  /** A gap in seconds, rounded up to minutes. */
  function GapMin(gap: real): int {
    -(-gap / 60.0).Floor
  }

  /** Ticks come at most `gap` seconds apart. */
  predicate Paced(r: Run, gap: real) {
    gap >= 0.0 && forall k | 0 < k < |r.steps| :: r.steps[k].now - r.steps[k - 1].now <= gap
  }

  /** A cycle in progress still has a duration that will end it. */
  predicate Limited(st: St, limit: nat) {
    st.snap.state == Drying ==>
      st.eph.duration.Some? && st.eph.duration.value != 0 && st.eph.duration.value <= limit
  }

  /** No restart drops the duration of a cycle in progress. */
  predicate Uninterrupted(r: Run) {
    forall k | 0 <= k < |r.steps| :: r.steps[k].restarted ==> At(r, k).snap.state != Drying
  }

  predicate Timed(step: Step) {
    Reconcile(TargetTypes(step.config, step.inputs), step.inputs.profiles).duration != Some(0)
  }

  /** No announced cycle resolves to the duration zero, which the tick takes for "none". */
  predicate AllTimed(r: Run) {
    forall k | 0 <= k < |r.steps| :: Fires(r, k) ==> Timed(r.steps[k])
  }

  /** `limit` bounds every cycle: it covers the run cap, or the per-cycle cap where that one is in force. */
  predicate Bounding(r: Run, limit: nat) {
    limit >= r.caps.maxRunMin || (limit >= PER_CYCLE_MAX_MIN && Uninterrupted(r) && AllTimed(r))
  }

  lemma RecipeDuration(step: Step)
    requires Armed(step.config, step.inputs) && Timed(step)
    ensures var d := Reconcile(TargetTypes(step.config, step.inputs), step.inputs.profiles).duration;
            d.Some? && d.value != 0 && d.value <= PER_CYCLE_MAX_MIN
  {
    hide TargetTypes, Strictest;
  }

  lemma TriggerDuration(caps: Caps, v: St, step: Step)
    requires v.snap.state == Watching
    ensures Outcome(caps, v, step).snap.state == Drying ==>
              && FiresIn(Outcome(caps, v, step).events) && Armed(step.config, step.inputs)
              && Outcome(caps, v, step).eph.duration
                 == Reconcile(TargetTypes(step.config, step.inputs), step.inputs.profiles).duration
  {
    hide Armed, RecentMin, Reconcile, RunOf, RanMin, CooldownEnd, LimitText, DeltaText, AboveWake, EmitSkip;
  }

  lemma DryingStays(caps: Caps, v: St, step: Step)
    requires v.snap.state != Watching
    ensures Outcome(caps, v, step).snap.state == Drying ==>
              && v.snap.state == Drying && Outcome(caps, v, step) == Result(v.snap, v.eph, [])
              && RanMin(v.eph.started, step.now) < caps.maxRunMin
              && !DurationOver(v.eph, RanMin(v.eph.started, step.now))
  {
    hide Armed, RunOf, RanMin, CooldownEnd, LimitText, DeltaText, EmitSkip;
  }

  lemma {:induction false} DurationKept(r: Run, k: nat)
    requires Uninterrupted(r) && AllTimed(r) && k <= |r.steps|
    ensures Limited(At(r, k), PER_CYCLE_MAX_MIN)
    decreases k
  {
    hide Outcome, Timed, Recovered, Reconcile, Armed, TargetTypes, FiresIn;
    if k > 0 {
      DurationKept(r, k - 1);
      var step, v := r.steps[k - 1], SeenAt(r, k - 1);
      SeenLimited(At(r, k - 1), step);
      if v.snap.state == Watching {
        TriggerDuration(r.caps, v, step);
        if FiresIn(Outcome(r.caps, v, step).events) && Armed(step.config, step.inputs) {
          RecipeDuration(step);
        }
      } else {
        DryingStays(r.caps, v, step);
      }
    }
  }

  lemma SeenLimited(st: St, step: Step)
    requires Limited(st, PER_CYCLE_MAX_MIN) && (step.restarted ==> st.snap.state != Drying)
    ensures Limited(Seen(st, step), PER_CYCLE_MAX_MIN)
  {
  }

  /** The duty list is in order, and so is a cycle in progress at its last tick. */
  predicate OnDuty(st: St, last: real, cap: int, most: int, limit: nat) {
    && DutyOk(st.snap.duty, cap, most)
    && (st.snap.state == Drying ==>
          && RecentMin(st.snap.duty, st.snap.since) < cap
          && (last == st.snap.since || st.snap.since <= last < st.snap.since + 60.0 * limit as real))
  }

  lemma RanIsBounded(started: real, last: real, now: real, gap: real, limit: nat)
    requires last == started || started <= last < started + 60.0 * limit as real
    requires last <= now <= last + gap
    ensures 0 <= RanMin(started, now) <= limit + GapMin(gap)
  {
    var ran := (now - started) / 60.0;
    assert 0.0 <= ran <= limit as real + gap / 60.0;
    assert gap / 60.0 <= GapMin(gap) as real by {
      assert -gap / 60.0 == -(gap / 60.0);
    }
    assert ran <= (limit + GapMin(gap)) as real;
  }

  lemma RanIsShort(started: real, now: real, limit: nat)
    requires started <= now && RanMin(started, now) < limit
    ensures now < started + 60.0 * limit as real
  {
    var ran := (now - started) / 60.0;
    assert ran.Floor + 1 <= limit;
    assert ran < limit as real;
  }

  lemma TickDuty(caps: Caps, v: St, step: Step)
    ensures var r := Outcome(caps, v, step);
            && (r.snap.duty == v.snap.duty
                || (v.snap.state == Drying && r.snap.state == Cooldown
                    && r.snap.duty == v.snap.duty + [Duty(v.eph.started, RanMin(v.eph.started, step.now))]))
            && (r.snap.state == Drying && v.snap.state != Drying ==>
                  v.snap.state == Watching && r.snap.since == step.now && r.snap.duty == v.snap.duty
                  && RecentMin(v.snap.duty, step.now) < caps.dutyMaxMin)
  {
    hide Armed, RecentMin, Reconcile, RunOf, RanMin, CooldownEnd, LimitText, DeltaText;
    hide EmitSkip, AboveWake, DurationOver;
  }

  lemma StepOnDuty(caps: Caps, v: St, step: Step, last: real, gap: real, limit: nat)
    requires OnDuty(v, last, caps.dutyMaxMin, limit + GapMin(gap), limit) && Anchored(v)
    requires last <= step.now <= last + gap
    requires limit >= caps.maxRunMin || (Limited(v, PER_CYCLE_MAX_MIN) && limit >= PER_CYCLE_MAX_MIN)
    ensures var r := Outcome(caps, v, step);
            OnDuty(St(r.snap, r.eph), step.now, caps.dutyMaxMin, limit + GapMin(gap), limit)
  {
    hide Outcome, RanMin, DutyOk, RecentMin, GapMin;
    TickDuty(caps, v, step);
    if v.snap.state == Drying {
      DryingStays(caps, v, step);
      RanIsBounded(v.eph.started, last, step.now, gap, limit);
      FinishedRunOk(caps, v, step, limit + GapMin(gap));
      if RanMin(v.eph.started, step.now) < limit {
        RanIsShort(v.eph.started, step.now, limit);
      }
    }
  }

  lemma FinishedRunOk(caps: Caps, v: St, step: Step, most: int)
    requires DutyOk(v.snap.duty, caps.dutyMaxMin, most) && RecentMin(v.snap.duty, v.eph.started) < caps.dutyMaxMin
    requires 0 <= RanMin(v.eph.started, step.now) <= most
    ensures DutyOk(v.snap.duty + [Duty(v.eph.started, RanMin(v.eph.started, step.now))], caps.dutyMaxMin, most)
  {
    hide DutyOk, RecentMin, RanMin;
    DutyOkSnoc(v.snap.duty, Duty(v.eph.started, RanMin(v.eph.started, step.now)), caps.dutyMaxMin, most);
  }

  function LastTick(r: Run, k: nat): real
    requires k <= |r.steps|
  {
    if k == 0 then 0.0 else r.steps[k - 1].now
  }

  lemma {:induction false} DutyKept(r: Run, k: nat, gap: real, limit: nat)
    requires Timely(r) && AfterEpoch(r) && Paced(r, gap) && Bounding(r, limit) && k <= |r.steps|
    ensures OnDuty(At(r, k), LastTick(r, k), r.caps.dutyMaxMin, limit + GapMin(gap), limit)
    decreases k
  {
    hide Outcome, Seen, OnDuty, Anchored, GapMin, AllTimed, Uninterrupted, Limited;
    if k == 0 {
      BlankOnDuty(r, r.caps.dutyMaxMin, limit + GapMin(gap), limit);
    } else {
      DutyKept(r, k - 1, gap, limit);
      var step, v := r.steps[k - 1], SeenAt(r, k - 1);
      StartSurvives(r, k - 1);
      SeenOnDuty(r, k - 1, gap, limit);
      if k == 1 {
        FirstOnDuty(r, gap, limit);
      } else {
        StepOnDuty(r.caps, v, step, LastTick(r, k - 1), gap, limit);
      }
    }
  }

  lemma BlankOnDuty(r: Run, cap: int, most: int, limit: nat)
    ensures OnDuty(At(r, 0), 0.0, cap, most, limit)
  {
  }

  lemma SeenOnDuty(r: Run, k: nat, gap: real, limit: nat)
    requires k < |r.steps| && Bounding(r, limit)
    requires OnDuty(At(r, k), LastTick(r, k), r.caps.dutyMaxMin, limit + GapMin(gap), limit)
    ensures OnDuty(SeenAt(r, k), LastTick(r, k), r.caps.dutyMaxMin, limit + GapMin(gap), limit)
    ensures limit >= r.caps.maxRunMin || (Limited(SeenAt(r, k), PER_CYCLE_MAX_MIN) && limit >= PER_CYCLE_MAX_MIN)
  {
    hide At, DutyOk, RecentMin, GapMin, AllTimed, Limited;
    if limit < r.caps.maxRunMin {
      DurationKept(r, k);
      SeenLimited(At(r, k), r.steps[k]);
    }
  }

  lemma FirstOnDuty(r: Run, gap: real, limit: nat)
    requires |r.steps| > 0
    ensures OnDuty(At(r, 1), r.steps[0].now, r.caps.dutyMaxMin, limit + GapMin(gap), limit)
  {
    hide Armed, GapMin;
    assert At(r, 1) == Next(r.caps, At(r, 0), r.steps[0]);
  }

  /**
   * The sliding duty bound: with ticks at most `gap` apart, the minutes recorded
   * for runs started in any 24 hours stay under the daily cap plus one cycle
   * plus the gap rounded up.
   */
  lemma DutyIsBounded(r: Run, k: nat, w: real, gap: real, limit: nat)
    requires Timely(r) && AfterEpoch(r) && Paced(r, gap) && Bounding(r, limit) && k <= |r.steps|
    ensures var minutes := WindowMin(At(r, k).snap.duty, w);
            minutes == 0 || 0 < minutes < r.caps.dutyMaxMin + limit + GapMin(gap)
  {
    hide At, GapMin, RecentMin, Bounding, Paced, DutyOk;
    DutyKept(r, k, gap, limit);
    WindowBound(At(r, k).snap.duty, w, r.caps.dutyMaxMin, limit + GapMin(gap));
    WindowNotNegative(At(r, k).snap.duty, w, r.caps.dutyMaxMin, limit + GapMin(gap));
  }

  lemma {:induction false} WindowNotNegative(duty: seq<Duty>, w: real, cap: int, most: int)
    requires DutyOk(duty, cap, most)
    ensures WindowMin(duty, w) >= 0
    decreases duty
  {
    hide DutyOk;
    if duty != [] {
      DutyOkPrefix(duty, cap, most);
      LastIsOk(duty, cap, most);
      WindowNotNegative(duty[..|duty| - 1], w, cap, most);
    }
  }

  /** The inputs of the one fetcher there is, which passes no user profiles. */
  predicate NoUserProfiles(r: Run) {
    forall k | 0 <= k < |r.steps| :: r.steps[k].inputs.profiles == []
  }

  lemma ShippedStepIsTimed(step: Step)
    requires step.inputs.profiles == []
    ensures Timed(step)
  {
    hide TargetTypes, Strictest;
    if TargetTypes(step.config, step.inputs) != [] {
      ShippedRecipesAreTimed(TargetTypes(step.config, step.inputs));
    }
  }

  /** As shipped, the per-cycle cap is always in force, and the bound holds with it. */
  lemma ShippedDutyIsBounded(r: Run, k: nat, w: real, gap: real)
    requires Timely(r) && AfterEpoch(r) && Paced(r, gap) && Uninterrupted(r) && NoUserProfiles(r) && k <= |r.steps|
    ensures AllTimed(r)
    ensures var minutes := WindowMin(At(r, k).snap.duty, w);
            minutes == 0 || 0 < minutes < r.caps.dutyMaxMin + PER_CYCLE_MAX_MIN + GapMin(gap)
  {
    hide At, GapMin, Fires, Timed, Uninterrupted, Paced, WindowMin;
    forall j | 0 <= j < |r.steps| && Fires(r, j)
      ensures Timed(r.steps[j])
    {
      ShippedStepIsTimed(r.steps[j]);
    }
    DutyIsBounded(r, k, w, gap, PER_CYCLE_MAX_MIN);
  }
}
