/** Heating against recorded duty: which cycles count towards the daily cap, and which do not. */
module AutodryHeat {
  import opened Wrappers
  import opened Recipes
  import opened AutodryFsm
  import opened AutodryRuns
  import opened AutodryDuty

  /** A stretch of heating: when it began, its minutes, and whether the duty list knows it. */
  datatype Heating = Heating(started: real, ran: int, recorded: bool)

  /** The states in which the dryer is on: a cycle of the machine's own, or a manual one it watches. */
  predicate Heats(s: State) {
    s == Drying || s == ObservedDrying
  }

  predicate EndsCycle(v: St, out: Result) {
    Heats(v.snap.state) && !Heats(out.snap.state)
  }

  predicate FinishedIn(events: seq<Event>) {
    events != [] && events[0].Finished?
  }

  /** The cycle a tick ends. The machine's own start serves for its own cycles only: that
      of a manual one is lost in a restart, so it is taken from the run, as `since`. */
  function EndedBy(v: St, step: Step, out: Result, since: real): seq<Heating> {
    if EndsCycle(v, out) then
      var started := if v.snap.state == Drying then v.eph.started else since;
      [Heating(started, RanMin(started, step.now), v.snap.state == Drying && FinishedIn(out.events))]
    else []
  }

  /** When the machine last came into a heating state. */
  function HeatSince(r: Run, k: nat): real
    requires k <= |r.steps|
    decreases k
  {
    if k == 0 then 0.0
    else if Heats(At(r, k).snap.state) && !Heats(SeenAt(r, k - 1).snap.state) then r.steps[k - 1].now
    else HeatSince(r, k - 1)
  }

  /** All cycles, manual ones included, that ended in the first `k` ticks, however they ended. */
  function Cycles(r: Run, k: nat): seq<Heating>
    requires k <= |r.steps|
    decreases k
  {
    if k == 0 then []
    else
      var v := SeenAt(r, k - 1);
      Cycles(r, k - 1) + EndedBy(v, r.steps[k - 1], Outcome(r.caps, v, r.steps[k - 1]), HeatSince(r, k - 1))
  }

  /** The cycle in progress after `k` ticks, up to the last of them. */
  function Underway(r: Run, k: nat): seq<Heating>
    requires k <= |r.steps|
  {
    if k > 0 && Heats(At(r, k).snap.state) then
      [Heating(HeatSince(r, k), RanMin(HeatSince(r, k), r.steps[k - 1].now), false)]
    else []
  }

  /** All heating of the first `k` ticks. */
  function AllHeat(r: Run, k: nat): seq<Heating>
    requires k <= |r.steps|
  {
    Cycles(r, k) + Underway(r, k)
  }

  function Recorded(cycles: seq<Heating>): seq<Duty>
    decreases cycles
  {
    if cycles == [] then []
    else
      var last := cycles[|cycles| - 1];
      Recorded(cycles[..|cycles| - 1]) + if last.recorded then [Duty(last.started, last.ran)] else []
  }

  // ---- what the duty list records -----------------------------------------------------------

  /** A cycle is recorded unless it was a manual one or a print or a fault ended it. */
  lemma TickCycle(caps: Caps, v: St, step: Step, since: real)
    ensures var out := Outcome(caps, v, step);
            && out.snap.duty == v.snap.duty + Recorded(EndedBy(v, step, out, since))
            && (EndsCycle(v, out) ==>
                  (v.snap.state == Drying && FinishedIn(out.events)
                   <==> v.snap.state == Drying && !Busy(step.inputs) && out.snap.state != Faulted))
            && (Heats(v.snap.state) && Heats(out.snap.state) ==> out.snap.state == v.snap.state)
  {
    hide Armed, RecentMin, Reconcile, RunOf, RanMin, CooldownEnd, LimitText, DeltaText, AboveWake, DurationOver;
    assert v.snap.duty + [] == v.snap.duty;
    assert forall c: Heating :: [c][..0] == [];
  }

  lemma {:induction false} RecordedConcat(a: seq<Heating>, b: seq<Heating>)
    requires |b| <= 1
    ensures Recorded(a + b) == Recorded(a) + Recorded(b)
  {
    if b == [] {
      assert a + b == a;
    } else {
      assert (a + b)[..|a|] == a && b[..0] == [];
    }
  }

  /** In every run the duty list is exactly the recorded ones among the cycles. */
  lemma {:induction false} DutyIsRecorded(r: Run, k: nat)
    requires k <= |r.steps|
    ensures At(r, k).snap.duty == Recorded(Cycles(r, k))
    decreases k
  {
    hide Outcome, Recovered, EndsCycle, FinishedIn, HeatSince, Heats;
    if k > 0 {
      DutyIsRecorded(r, k - 1);
      var v, step := SeenAt(r, k - 1), r.steps[k - 1];
      TickCycle(r.caps, v, step, HeatSince(r, k - 1));
      RecordedConcat(Cycles(r, k - 1), EndedBy(v, step, Outcome(r.caps, v, step), HeatSince(r, k - 1)));
    }
  }

  lemma UnderwayIsUnrecorded(r: Run, k: nat)
    requires k <= |r.steps|
    ensures Recorded(AllHeat(r, k)) == Recorded(Cycles(r, k))
  {
    hide At, Cycles, HeatSince, RanMin;
    RecordedConcat(Cycles(r, k), Underway(r, k));
    assert forall c: Heating :: [c][..0] == [];
  }

  // ---- when heating began ----------------------------------------------------------------------

  /** What disk and memory call the start of a cycle is the tick that switched the dryer on. */
  lemma {:induction false} SinceIsTheTick(r: Run, k: nat)
    requires AfterEpoch(r) && k <= |r.steps|
    ensures At(r, k).snap.state == Drying ==> At(r, k).snap.since == At(r, k).eph.started == HeatSince(r, k)
    ensures k < |r.steps| && SeenAt(r, k).snap.state == Drying ==> SeenAt(r, k).eph.started == HeatSince(r, k)
    decreases k
  {
    hide Outcome, AfterEpoch;
    StartSurvives(r, k);
    if k > 0 {
      SinceIsTheTick(r, k - 1);
      var v, step := SeenAt(r, k - 1), r.steps[k - 1];
      TickDuty(r.caps, v, step);
      TickCycle(r.caps, v, step, 0.0);
      if v.snap.state == Drying {
        DryingStays(r.caps, v, step);
      }
    }
  }

  lemma {:induction false} StartedEarlier(r: Run, k: nat)
    requires Timely(r) && k <= |r.steps|
    ensures Heats(At(r, k).snap.state) ==> k > 0 && HeatSince(r, k) <= r.steps[k - 1].now
    decreases k
  {
    hide Outcome;
    if k > 0 {
      StartedEarlier(r, k - 1);
      if k > 1 {
        TimesOrdered(r, k - 2, k - 1);
      }
    }
  }

  /** A restart has come since the machine last entered a heating state. */
  predicate RestartedSince(r: Run, k: nat)
    requires k <= |r.steps|
    decreases k
  {
    k > 0
    && !(Heats(At(r, k).snap.state) && !Heats(SeenAt(r, k - 1).snap.state))
    && (RestartedSince(r, k - 1) || r.steps[k - 1].restarted)
  }

  lemma ObservedTick(caps: Caps, v: St, step: Step)
    ensures var out := Outcome(caps, v, step);
            && (out.snap.state == ObservedDrying ==>
                  if v.snap.state == ObservedDrying then out.eph == v.eph
                  else !Heats(v.snap.state) && out.eph.started == step.now)
            && (v.snap.state == ObservedDrying && out.snap.state != ObservedDrying ==>
                  && out.snap.lastRun.Some? && out.snap.lastRun.value.kind == Manual
                  && out.snap.lastRun.value.started == v.eph.started
                  && out.snap.lastRun.value.ran == RanMin(v.eph.started, step.now))
  {
    hide Armed, RecentMin, Reconcile, RanMin, CooldownEnd, LimitText, DeltaText, AboveWake, DurationOver, EmitSkip;
  }

  /** The start of a manual cycle is kept in memory only: a restart leaves zero. */
  lemma {:induction false} ObservedStart(r: Run, k: nat)
    requires k <= |r.steps|
    ensures At(r, k).snap.state == ObservedDrying ==>
              At(r, k).eph.started == if RestartedSince(r, k) then 0.0 else HeatSince(r, k)
    decreases k
  {
    hide Outcome;
    if k > 0 {
      ObservedStart(r, k - 1);
      ObservedTick(r.caps, SeenAt(r, k - 1), r.steps[k - 1]);
    }
  }

  /** So the record of a manual cycle has its start and minutes if and only if no restart came in
      between; after one it has a run that began with the epoch. */
  lemma ObservedRecordIff(r: Run, k: nat)
    requires AfterEpoch(r) && k < |r.steps|
    requires SeenAt(r, k).snap.state == ObservedDrying && At(r, k + 1).snap.state != ObservedDrying
    ensures var run, lost := At(r, k + 1).snap.lastRun, RestartedSince(r, k) || r.steps[k].restarted;
            && run.Some? && run.value.kind == Manual
            && (run.value.started == HeatSince(r, k) <==> !lost)
            && (lost ==> run.value.started == 0.0)
            && run.value.ran == RanMin(run.value.started, r.steps[k].now)
  {
    hide Outcome, RanMin, AfterEpoch, RestartedSince, HeatSince;
    ObservedStart(r, k);
    ObservedTick(r.caps, SeenAt(r, k), r.steps[k]);
    HeatIsLater(r, k);
  }

  lemma {:induction false} HeatIsLater(r: Run, k: nat)
    requires AfterEpoch(r) && k <= |r.steps| && Heats(At(r, k).snap.state)
    ensures HeatSince(r, k) > 0.0
    decreases k
  {
    hide Outcome;
    if Heats(SeenAt(r, k - 1).snap.state) {
      HeatIsLater(r, k - 1);
    }
  }

  // ---- heating in a window -----------------------------------------------------------------------

  /** Minutes heated by the cycles started in the 24 hours from `w`. */
  function WindowHeat(cycles: seq<Heating>, w: real): int
    decreases cycles
  {
    if cycles == [] then 0
    else
      var last := cycles[|cycles| - 1];
      WindowHeat(cycles[..|cycles| - 1], w) + if w <= last.started < w + DAY_SEC then last.ran else 0
  }

  predicate Unrecorded(c: Heating, w: real) {
    !c.recorded && w <= c.started < w + DAY_SEC
  }

  /** Recorded minutes are heating minutes exactly when no unrecorded cycle of the window ran any. */
  lemma {:induction false} HeatOfCycles(cycles: seq<Heating>, w: real)
    requires forall c <- cycles :: c.ran >= 0
    ensures WindowHeat(cycles, w) >= WindowMin(Recorded(cycles), w)
    ensures WindowHeat(cycles, w) == WindowMin(Recorded(cycles), w)
       <==> forall c <- cycles :: Unrecorded(c, w) ==> c.ran == 0
    decreases cycles
  {
    if cycles != [] {
      var init, last := cycles[..|cycles| - 1], cycles[|cycles| - 1];
      assert cycles == init + [last] && Recorded(init) + [] == Recorded(init);
      HeatOfCycles(init, w);
      WindowOfOneMore(Recorded(init), Duty(last.started, last.ran), w);
    }
  }

  lemma WindowOfOneMore(duty: seq<Duty>, d: Duty, w: real)
    ensures WindowMin(duty + [d], w) == WindowMin(duty, w) + if w <= d.started < w + DAY_SEC then d.ran else 0
  {
    assert (duty + [d])[..|duty|] == duty;
  }

  lemma HeatOfOneMore(cycles: seq<Heating>, c: Heating, w: real)
    ensures WindowHeat(cycles + [c], w) == WindowHeat(cycles, w) + if w <= c.started < w + DAY_SEC then c.ran else 0
  {
    assert (cycles + [c])[..|cycles|] == cycles;
  }

  lemma RanIsNatural(started: real, now: real)
    requires started <= now
    ensures RanMin(started, now) >= 0
  {
  }

  lemma {:induction false} CyclesAreNatural(r: Run, k: nat)
    requires Timely(r) && AfterEpoch(r) && k <= |r.steps|
    ensures forall c <- Cycles(r, k) :: c.ran >= 0
    decreases k
  {
    hide Outcome, RanMin, FinishedIn, AfterEpoch, HeatSince;
    if k > 0 {
      CyclesAreNatural(r, k - 1);
      StartedEarlier(r, k - 1);
      SinceIsTheTick(r, k - 1);
      var v, step := SeenAt(r, k - 1), r.steps[k - 1];
      if Heats(v.snap.state) {
        TimesOrdered(r, k - 2, k - 1);
        RanIsNatural(HeatSince(r, k - 1), step.now);
      }
    }
  }

  lemma MinutesAreNatural(r: Run, k: nat)
    requires Timely(r) && AfterEpoch(r) && k <= |r.steps|
    ensures forall c <- AllHeat(r, k) :: c.ran >= 0
  {
    hide At, RanMin, HeatSince, Cycles;
    CyclesAreNatural(r, k);
    StartedEarlier(r, k);
    if Heats(At(r, k).snap.state) {
      RanIsNatural(HeatSince(r, k), r.steps[k - 1].now);
    }
  }

  /** Over every run: the cap sees all heating of a window, the cycle in progress included, if and
      only if the cycles it does not see did none. */
  lemma HeatIsRecordedIff(r: Run, k: nat, w: real)
    requires Timely(r) && AfterEpoch(r) && k <= |r.steps|
    ensures WindowHeat(AllHeat(r, k), w) >= WindowMin(At(r, k).snap.duty, w)
    ensures WindowHeat(AllHeat(r, k), w) == WindowMin(At(r, k).snap.duty, w)
       <==> forall c <- AllHeat(r, k) :: Unrecorded(c, w) ==> c.ran == 0
  {
    hide At, AllHeat, Cycles, WindowHeat, WindowMin, Unrecorded;
    DutyIsRecorded(r, k);
    UnderwayIsUnrecorded(r, k);
    MinutesAreNatural(r, k);
    HeatOfCycles(AllHeat(r, k), w);
  }

  /** No unrecorded heating in the window but a cycle of the machine's own still in progress. */
  predicate AllSeen(r: Run, k: nat, w: real)
    requires k <= |r.steps|
  {
    && (forall c <- Cycles(r, k) :: Unrecorded(c, w) ==> c.ran == 0)
    && (At(r, k).snap.state == ObservedDrying ==> forall c <- Underway(r, k) :: Unrecorded(c, w) ==> c.ran == 0)
  }

  /** Then, and with the premises of the duty bound, the bound is one on all heating. */
  lemma HeatIsBounded(r: Run, k: nat, w: real, gap: real, limit: nat)
    requires Timely(r) && AfterEpoch(r) && Paced(r, gap) && Bounding(r, limit) && k <= |r.steps|
    requires AllSeen(r, k, w)
    ensures var minutes := WindowHeat(AllHeat(r, k), w);
            minutes == 0 || 0 < minutes < r.caps.dutyMaxMin + limit + GapMin(gap)
  {
    hide At, Cycles, WindowHeat, WindowMin, Unrecorded, Paced, Bounding, GapMin, HeatSince, RanMin, OnDuty;
    HeatIsRecordedIff(r, k, w);
    if At(r, k).snap.state == Drying {
      CyclesAreNatural(r, k);
      DutyIsRecorded(r, k);
      HeatOfCycles(Cycles(r, k), w);
      StartedEarlier(r, k);
      SinceIsTheTick(r, k);
      DutyKept(r, k, gap, limit);
      var u := Underway(r, k)[0];
      HeatOfOneMore(Cycles(r, k), u, w);
      GapIsNatural(r, gap);
      RunningFits(At(r, k), r.steps[k - 1].now, w, r.caps.dutyMaxMin, gap, limit);
    } else {
      assert forall c <- AllHeat(r, k) :: c in Cycles(r, k) || c in Underway(r, k);
      DutyIsBounded(r, k, w, gap, limit);
    }
  }

  lemma GapIsNatural(r: Run, gap: real)
    requires Paced(r, gap)
    ensures gap >= 0.0 && GapMin(gap) >= 0
  {
    assert -gap / 60.0 <= 0.0;
  }

  /** The cycle in progress counts like a finished one. */
  lemma RunningFits(st: St, last: real, w: real, cap: int, gap: real, limit: nat)
    requires st.snap.state == Drying && gap >= 0.0 && GapMin(gap) >= 0
    requires OnDuty(st, last, cap, limit + GapMin(gap), limit)
    ensures var ran := RanMin(st.snap.since, last);
            var minutes := WindowMin(st.snap.duty, w) + if w <= st.snap.since < w + DAY_SEC then ran else 0;
            minutes == 0 || 0 < minutes < cap + limit + GapMin(gap)
  {
    hide DutyOk, RecentMin, RanMin, WindowMin, GapMin;
    var ran := RanMin(st.snap.since, last);
    var d := Duty(st.snap.since, ran);
    RanIsBounded(st.snap.since, last, last, gap, limit);
    DutyOkSnoc(st.snap.duty, d, cap, limit + GapMin(gap));
    WindowBound(st.snap.duty + [d], w, cap, limit + GapMin(gap));
    WindowNotNegative(st.snap.duty + [d], w, cap, limit + GapMin(gap));
    WindowOfOneMore(st.snap.duty, d, w);
  }

  // ---- a machine among several ---------------------------------------------------------------------

  /** One machine per ACE is told that nothing else dries, so it watches no manual cycle: that
      heating is in none of its books. */
  lemma {:induction false} NothingObserved(r: Run, k: nat)
    requires k <= |r.steps| && forall i | 0 <= i < |r.steps| :: r.steps[i].inputs.dryer == Stopped
    ensures At(r, k).snap.state != ObservedDrying
    decreases k
  {
    hide Outcome;
    if k > 0 {
      NothingObserved(r, k - 1);
      NotObserving(r.caps, SeenAt(r, k - 1), r.steps[k - 1]);
    }
  }

  lemma NotObserving(caps: Caps, v: St, step: Step)
    requires step.inputs.dryer == Stopped && v.snap.state != ObservedDrying
    ensures Outcome(caps, v, step).snap.state != ObservedDrying
  {
    hide Armed, RecentMin, Reconcile, RunOf, RanMin, CooldownEnd, LimitText, DeltaText, AboveWake, DurationOver;
    hide EmitSkip;
  }
}
