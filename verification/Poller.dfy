/** The round-robin poller of `poller.py`, which decides whose machine ticks. */
module Poller {
  import opened Wrappers
  import opened AutodryFsm
  import opened AutodryRuns
  import opened AutodryManager
  import opened AutodryStore

  datatype Switch = Switched | GcodeFailed | RequeryFailed

  /** What one tick meets: the printer's state, the gate, the reported active ACE, how a switch would go. */
  datatype Env = Env(printing: bool, gate: bool, active: Option<int>, switch: Switch, world: Option<World>, now: real)

  /** `max(0, active_device - 1)`. */
  function ActiveIdx(raw: int): nat {
    if raw >= 1 then raw - 1 else 0
  }

  // ---- the round robin as a function ------------------------------------------------------

  datatype Poll = Poll(last: int, failures: map<nat, nat>)

  const FIRST := Poll(-1, map[])

  function Count(failures: map<nat, nat>, ace: nat): nat {
    if ace in failures then failures[ace] else 0
  }

  function Failures(p: Poll, ace: nat): nat {
    Count(p.failures, ace)
  }

  function Anchor(p: Poll, active: nat): int {
    if p.last == -1 then active else p.last
  }

  function Target(p: Poll, active: nat, n: nat): (t: nat)
    requires n >= 1 && p.last >= -1
    ensures t < n
  {
    (Anchor(p, active) + 1) % n
  }

  datatype Turned = Turned(poll: Poll, visited: Option<nat>)

  /** One tick: the new counters, and the ACE it visited. */
  function Turn(p: Poll, env: Env, n: nat): (r: Turned)
    requires n >= 1 && p.last >= -1
    ensures r.poll.last >= -1 && (r.visited.Some? ==> r.visited.value < n)
  {
    if env.printing || !env.gate || env.active.None? then Turned(p, None)
    else
      var active := ActiveIdx(env.active.value);
      var t := Target(p, active, n);
      if active == t then Turned(Poll(t, p.failures), Some(t))
      else
        match env.switch
        case Switched => Turned(Poll(t, p.failures[t := 0]), Some(t))
        case GcodeFailed => Turned(Poll(Anchor(p, active), p.failures[t := Failures(p, t) + 1]), None)
        case RequeryFailed => Turned(Poll(Anchor(p, active), p.failures[t := 1]), None)
  }

  function After(n: nat, envs: seq<Env>): (p: Poll)
    requires n >= 1
    ensures p.last >= -1
    decreases envs
  {
    if envs == [] then FIRST else Turn(After(n, envs[..|envs| - 1]), envs[|envs| - 1], n).poll
  }

  /** The ACEs visited by the idle ticks, in order. */
  function Visits(n: nat, envs: seq<Env>): seq<nat>
    requires n >= 1
    decreases envs
  {
    if envs == [] then []
    else
      var init := envs[..|envs| - 1];
      var visited := Turn(After(n, init), envs[|envs| - 1], n).visited;
      if visited.Some? then Visits(n, init) + [visited.value] else Visits(n, init)
  }

  /** The next ACE in the round. */
  function Succ(n: nat, ace: nat): nat {
    if ace + 1 < n then ace + 1 else 0
  }

  /** Each visit is followed by the next ACE, cyclically. */
  predicate Cyclic(n: nat, v: seq<nat>) {
    && (forall k | 0 <= k < |v| :: v[k] < n)
    && (forall k, j | 0 <= k && j == k + 1 < |v| :: v[j] == Succ(n, v[k]))
  }

  lemma SuccIsMod(n: nat, ace: nat)
    requires ace < n
    ensures (ace + 1) % n == Succ(n, ace)
  {
  }

  lemma TurnVisits(p: Poll, env: Env, n: nat)
    requires n >= 1 && p.last >= -1
    ensures var r := Turn(p, env, n);
            && (r.visited.Some? ==>
                  && r.poll.last == r.visited.value < n
                  && (0 <= p.last < n ==> r.visited.value == Succ(n, p.last)))
            && (r.visited.None? && p.last >= 0 ==> r.poll.last == p.last)
  {
    if 0 <= p.last < n {
      SuccIsMod(n, p.last);
    }
  }

  lemma CyclicSnoc(n: nat, v: seq<nat>, ace: nat)
    requires Cyclic(n, v) && ace < n && (v != [] ==> ace == Succ(n, v[|v| - 1]))
    ensures Cyclic(n, v + [ace])
  {
  }

  /** Whatever prints, failures and reports come between, the visits go round in order. */
  lemma {:induction false} VisitsAreCyclic(n: nat, envs: seq<Env>)
    requires n >= 1
    ensures Cyclic(n, Visits(n, envs))
    ensures Visits(n, envs) != [] ==> After(n, envs).last == Visits(n, envs)[|Visits(n, envs)| - 1]
    decreases envs
  {
    hide Turn, Cyclic, Succ;
    if envs == [] {
      assert Cyclic(n, []) by {
        NoVisits(n);
      }
    } else {
      var init, env := envs[..|envs| - 1], envs[|envs| - 1];
      VisitsAreCyclic(n, init);
      TurnVisits(After(n, init), env, n);
      var visited := Turn(After(n, init), env, n).visited;
      if Visits(n, init) != [] {
        InRange(n, Visits(n, init), |Visits(n, init)| - 1);
      }
      if visited.Some? {
        CyclicSnoc(n, Visits(n, init), visited.value);
      }
    }
  }

  lemma NoVisits(n: nat)
    ensures Cyclic(n, [])
  {
  }

  lemma InRange(n: nat, v: seq<nat>, k: nat)
    requires Cyclic(n, v) && k < |v|
    ensures v[k] < n
  {
  }

  /** The ACE `k` places after another, within one round. */
  function Onward(n: nat, ace: nat, k: nat): nat
    requires ace < n && k < n
  {
    if ace + k < n then ace + k else ace + k - n
  }

  lemma {:induction false} CyclicAt(n: nat, v: seq<nat>, i: nat, k: nat)
    requires Cyclic(n, v) && i + k < |v| && k < n
    ensures v[i] < n && v[i + k] == Onward(n, v[i], k)
    decreases k
  {
    if k > 0 {
      CyclicAt(n, v, i, k - 1);
      var before := i + (k - 1);
      assert v[i + k] == Succ(n, v[before]);
    }
  }

  /** Where in a round of `n` visits starting with ACE `first` an ACE is visited. */
  function Position(n: nat, first: nat, ace: nat): (k: nat)
    requires first < n && ace < n
    ensures k < n
  {
    if ace >= first then ace - first else ace + n - first
  }

  /** Any `n` consecutive visits see each of the `n` ACEs exactly once. */
  lemma RoundIsFair(n: nat, envs: seq<Env>, i: nat, ace: nat)
    requires n >= 1 && i + n <= |Visits(n, envs)| && ace < n
    ensures var v := Visits(n, envs);
            v[i] < n && forall j | i <= j < i + n :: v[j] == ace <==> j == i + Position(n, v[i], ace)
  {
    hide Visits, Turn, After;
    var v := Visits(n, envs);
    VisitsAreCyclic(n, envs);
    InRange(n, v, i);
    hide Cyclic;
    forall j | i <= j < i + n
      ensures v[j] == ace <==> j == i + Position(n, v[i], ace)
    {
      CyclicAt(n, v, i, j - i);
    }
  }

  lemma VisitsUnfold(n: nat, envs: seq<Env>)
    requires n >= 1 && envs != []
    ensures var init, visited := envs[..|envs| - 1], Turn(After(n, envs[..|envs| - 1]), envs[|envs| - 1], n).visited;
            Visits(n, envs) == if visited.Some? then Visits(n, init) + [visited.value] else Visits(n, init)
  {
    hide Turn;
  }

  /** An idle tick with the gate on, whose switch succeeds if one is needed. */
  predicate Succeeds(env: Env) {
    !env.printing && env.gate && env.active.Some? && env.switch == Switched
  }

  /** The ACE the `k`-th tick of a stretch visits. */
  function VisitedAt(n: nat, before: seq<Env>, stretch: seq<Env>, k: nat): Option<nat>
    requires n >= 1 && k < |stretch|
  {
    Turn(After(n, before + stretch[..k]), stretch[k], n).visited
  }

  lemma {:induction false} VisitsOfStretch(n: nat, before: seq<Env>, stretch: seq<Env>, k: nat)
    requires n >= 1 && k <= |stretch| && forall j | 0 <= j < k :: Succeeds(stretch[j])
    ensures var v, m := Visits(n, before + stretch[..k]), |Visits(n, before)|;
            |v| == m + k && forall j | m <= j < m + k :: VisitedAt(n, before, stretch, j - m) == Some(v[j])
    decreases k
  {
    hide Visits, After, Turn;
    var all := before + stretch[..k];
    if k == 0 {
      assert all == before;
    } else {
      VisitsOfStretch(n, before, stretch, k - 1);
      assert all[..|all| - 1] == before + stretch[..k - 1] && all[|all| - 1] == stretch[k - 1];
      VisitsUnfold(n, all);
      SuccessVisits(After(n, before + stretch[..k - 1]), stretch[k - 1], n);
    }
  }

  lemma SuccessVisits(p: Poll, env: Env, n: nat)
    requires n >= 1 && p.last >= -1 && Succeeds(env)
    ensures Turn(p, env, n).visited.Some?
  {
  }

  /** While switches succeed, `n` consecutive idle ticks visit every ACE exactly once. */
  lemma IdleRoundIsFair(n: nat, before: seq<Env>, round: seq<Env>, ace: nat) returns (k: nat)
    requires n >= 1 && |round| == n && ace < n && forall j | 0 <= j < n :: Succeeds(round[j])
    ensures k < n && forall j: nat | j < n :: VisitedAt(n, before, round, j) == Some(ace) <==> j == k
  {
    hide Visits, After, Turn, VisitedAt;
    assert round[..n] == round;
    VisitsOfStretch(n, before, round, n);
    var v, m := Visits(n, before + round), |Visits(n, before)|;
    RoundIsFair(n, before + round, m, ace);
    k := Position(n, v[m], ace);
    forall j: nat | j < n
      ensures VisitedAt(n, before, round, j) == Some(ace) <==> j == k
    {
      var i := m + j;
      assert VisitedAt(n, before, round, i - m) == Some(v[i]);
    }
  }

  // ---- failures -----------------------------------------------------------------------------

  /** The first round starts behind the ACE that is reported, which are numbered from 1 there and from 0
      here; a report of 0 or less stands for the first one. With one ACE there is nothing to switch. */
  lemma FirstVisit(n: nat, env: Env)
    requires n >= 1 && Succeeds(env) && env.active.value <= n
    ensures Turn(FIRST, env, n).visited == Some(if env.active.value >= 1 then env.active.value % n else 1 % n)
    ensures n == 1 ==> forall switch :: Turn(FIRST, env.(switch := switch), n).visited == Some(0)
  {
  }

  /** A switch is needed exactly when another ACE than the one to visit is reported. */
  lemma SwitchNeeded(n: nat, envs: seq<Env>, env: Env)
    requires n >= 1 && Succeeds(env) && 1 <= env.active.value <= n
    ensures var p, t := After(n, envs), Turn(After(n, envs), env, n).visited;
            && t.Some?
            && (Turn(p, env.(switch := GcodeFailed), n).visited.Some? <==> env.active.value == t.value + 1)
  {
    hide After;
  }

  predicate Attempts(p: Poll, env: Env, n: nat, ace: nat)
    requires n >= 1 && p.last >= -1
  {
    && !env.printing && env.gate && env.active.Some?
    && Target(p, ActiveIdx(env.active.value), n) == ace && ActiveIdx(env.active.value) != ace
  }

  /** Failed attempts at an ACE since a switch to it last went through. */
  function FailedSince(n: nat, envs: seq<Env>, ace: nat): nat
    requires n >= 1
    decreases envs
  {
    if envs == [] then 0
    else
      var init, env := envs[..|envs| - 1], envs[|envs| - 1];
      if !Attempts(After(n, init), env, n, ace) then FailedSince(n, init, ace)
      else
        match env.switch
        case Switched => 0
        case GcodeFailed => FailedSince(n, init, ace) + 1
        case RequeryFailed => 1
  }

  /** The counters hold exactly the failed attempts since the last switch that went through. */
  lemma {:induction false} FailuresCount(n: nat, envs: seq<Env>, ace: nat)
    requires n >= 1
    ensures Failures(After(n, envs), ace) == FailedSince(n, envs, ace)
    decreases envs
  {
    if envs != [] {
      FailuresCount(n, envs[..|envs| - 1], ace);
    }
  }

  /** A visited machine is still marked, and so held back, exactly when its ACE was active already, so
      that the visit needed no switch, and its last two attempts or more had failed. */
  lemma HeldBackIff(n: nat, envs: seq<Env>, env: Env, t: nat)
    requires n >= 1 && Turn(After(n, envs), env, n).visited == Some(t)
    ensures env.active.Some?
    ensures Failures(Turn(After(n, envs), env, n).poll, t) >= 2
       <==> ActiveIdx(env.active.value) == t && FailedSince(n, envs, t) >= 2
  {
    hide After, FailedSince;
    FailuresCount(n, envs, t);
  }

  /** An idle tick with the gate on that learns which ACE is active. */
  predicate Acts(env: Env) {
    !env.printing && env.gate && env.active.Some?
  }

  /** A tick that needs a switch to ACE `t` and does not get it. */
  predicate Fails(env: Env, t: nat) {
    Acts(env) && ActiveIdx(env.active.value) != t && env.switch != Switched
  }

  /** Whatever ACE is reported active, the next switch goes to `t`. */
  predicate Aims(p: Poll, n: nat, t: nat)
    requires n >= 1
  {
    p.last >= 0 && t == (p.last + 1) % n
  }

  function FailedTries(envs: seq<Env>): nat
    decreases envs
  {
    if envs == [] then 0 else FailedTries(envs[..|envs| - 1]) + if Acts(envs[|envs| - 1]) then 1 else 0
  }

  /** Failures of the switch command itself, which do not reset the count. */
  predicate Refused(env: Env) {
    Acts(env) ==> env.switch == GcodeFailed
  }

  /** After a failed switch nothing but a successful one moves the poller on, however the reported
      ACE varies and whatever prints intervene; each further failure is counted. */
  lemma {:induction false} FailingIsRetried(n: nat, before: seq<Env>, first: Env, more: seq<Env>)
    requires n >= 1 && Acts(first)
    requires Fails(first, Target(After(n, before), ActiveIdx(first.active.value), n))
    requires forall env <- more :: !Acts(env) || Fails(env, Target(After(n, before), ActiveIdx(first.active.value), n))
    ensures var t, p := Target(After(n, before), ActiveIdx(first.active.value), n), After(n, before + [first] + more);
            && Aims(p, n, t) && Visits(n, before + [first] + more) == Visits(n, before)
            && (Refused(first) && (forall env <- more :: Refused(env)) ==>
                  Failures(p, t) == Failures(After(n, before), t) + 1 + FailedTries(more))
    decreases more
  {
    var t := Target(After(n, before), ActiveIdx(first.active.value), n);
    hide Turn, Target, Visits, After, Failures, Aims, Acts, Fails;
    var all := before + [first] + more;
    VisitsUnfold(n, all);
    AfterUnfolds(n, all);
    if more == [] {
      assert all[..|all| - 1] == before && all[|all| - 1] == first;
      FirstFailure(After(n, before), first, n);
    } else {
      var init, env := more[..|more| - 1], more[|more| - 1];
      assert all[..|all| - 1] == before + [first] + init && all[|all| - 1] == env;
      FailingIsRetried(n, before, first, init);
      FurtherFailure(After(n, before + [first] + init), env, n, t);
    }
  }

  lemma FirstFailure(p: Poll, env: Env, n: nat)
    requires n >= 1 && p.last >= -1 && Acts(env) && Fails(env, Target(p, ActiveIdx(env.active.value), n))
    ensures var r, t := Turn(p, env, n), Target(p, ActiveIdx(env.active.value), n);
            && r.visited.None? && Aims(r.poll, n, t)
            && (Refused(env) ==> Failures(r.poll, t) == Failures(p, t) + 1)
  {
  }

  lemma FurtherFailure(p: Poll, env: Env, n: nat, t: nat)
    requires n >= 1 && Aims(p, n, t) && (!Acts(env) || Fails(env, t))
    ensures var r := Turn(p, env, n);
            && r.visited.None? && Aims(r.poll, n, t)
            && (Refused(env) ==> Failures(r.poll, t) == Failures(p, t) + if Acts(env) then 1 else 0)
  {
  }

  lemma AfterUnfolds(n: nat, envs: seq<Env>)
    requires n >= 1 && envs != []
    ensures After(n, envs) == Turn(After(n, envs[..|envs| - 1]), envs[|envs| - 1], n).poll
  {
    hide Turn;
  }

  // ---- the object ---------------------------------------------------------------------------------

  class MultiAcePoller {
    const manager: AutodryManager
    const n: nat
    const caps: Caps
    var lastPolled: int
    var failures: map<nat, nat>

    ghost predicate Valid()
      reads this, manager, manager.fsms, set f <- manager.fsms :: f.eph, set f <- manager.fsms :: f.eph.debounce
    {
      && n == |manager.fsms| && n >= 1 && lastPolled >= -1 && manager.Valid()
      && (forall i: nat | i < n :: manager.fsms[i].unreachable <==> Count(failures, i) >= 2)
    }

    function Value(): Poll
      reads this
    {
      Poll(lastPolled, failures)
    }

    constructor (manager: AutodryManager, caps: Caps)
      requires manager.Valid() && |manager.fsms| >= 1
      requires forall i | 0 <= i < |manager.fsms| :: !manager.fsms[i].unreachable
      ensures Valid() && this.manager == manager && this.caps == caps && Value() == FIRST
    {
      this.manager, this.n, this.caps := manager, |manager.fsms|, caps;
      lastPolled, failures := -1, map[];
    }

    /** Lock all machines but `pinned`; a negative number locks none. */
    method Lock(pinned: int)
      requires Valid()
      modifies manager.fsms
      ensures Valid()
      ensures forall i: nat | i < n ::
                && manager.fsms[i].State() == old(manager.fsms[i].State())
                && manager.fsms[i].config == old(manager.fsms[i].config)
                && manager.fsms[i].unreachable == old(manager.fsms[i].unreachable)
                && manager.fsms[i].locked == (pinned >= 0 && i != pinned)
    {
      hide Count, PerAce.State, PerAce.Valid;
      var i := 0;
      while i < n
        invariant 0 <= i <= n && Valid()
        invariant forall j: nat | j < n ::
                    && manager.fsms[j].State() == old(manager.fsms[j].State())
                    && manager.fsms[j].config == old(manager.fsms[j].config)
                    && manager.fsms[j].unreachable == old(manager.fsms[j].unreachable)
        invariant forall j: nat | j < i :: manager.fsms[j].locked == (pinned >= 0 && j != pinned)
        decreases n - i
      {
        manager.fsms[i].SetLocked(pinned >= 0 && i != pinned);
        i := i + 1;
      }
    }

    /** A machine went through one step of a run, or was held back and kept everything. */
    predicate Stepped(before: St, after: St, heldBack: bool, config: Settings, ace: nat, env: Env)
    {
      if heldBack || env.world.None? then after == before
      else
        after == Next(caps, before, StepOf(config, env.world.value, ace, env.now))
    }

    /** `_tick_printing`: all machines but the active one are locked, and only that one ticks. */
    method TickPrinting(env: Env)
      requires Valid()
      modifies manager.fsms, set f <- manager.fsms :: f.eph, set f <- manager.fsms :: f.eph.debounce
      ensures Valid() && Value() == old(Value())
      ensures env.active.None? ==> forall i: nat | i < n ::
                && manager.fsms[i].State() == old(manager.fsms[i].State())
                && manager.fsms[i].locked == old(manager.fsms[i].locked)
      ensures env.active.Some? ==>
                var active := ActiveIdx(env.active.value);
                && (forall i: nat | i < n :: manager.fsms[i].locked == (i != active))
                && (forall i: nat | i < n && i != active :: manager.fsms[i].State() == old(manager.fsms[i].State()))
                && (active < n ==>
                      var f := manager.fsms[active];
                      Stepped(old(f.State()), f.State(), f.unreachable || !f.config.enabled, f.config, active, env))
    {
      hide Next, StepOf, Count, Seen, Outcome;
      if env.active.None? {
        return;
      }
      var active := ActiveIdx(env.active.value);
      Lock(active);
      var known, events := manager.TickOneAce(active, env.world, env.now, caps);
    }

    /** The switch in `_tick_idle`, with the failure count and the unreachable flag it keeps. */
    method SwitchTo(target: nat, outcome: Switch)
      requires Valid() && target < n
      modifies this`failures, manager.fsms
      ensures Valid() && lastPolled == old(lastPolled)
      ensures failures == old(failures)[target := match outcome
                case Switched => 0
                case GcodeFailed => Count(old(failures), target) + 1
                case RequeryFailed => 1]
      ensures forall i: nat | i < n ::
                && manager.fsms[i].State() == old(manager.fsms[i].State())
                && manager.fsms[i].config == old(manager.fsms[i].config)
                && manager.fsms[i].locked == old(manager.fsms[i].locked)
    {
      hide PerAce.State, PerAce.Valid;
      var count := 0;
      match outcome {
        case Switched =>
          manager.fsms[target].SetUnreachable(false);
        case GcodeFailed =>
          count := Count(failures, target) + 1;
          if count >= 2 {
            manager.fsms[target].SetUnreachable(true);
          }
        case RequeryFailed =>
          count := 1;
          manager.fsms[target].SetUnreachable(false);
      }
      failures := failures[target := count];
    }

    /** The tick and the bookkeeping that end a visit. */
    method Visit(target: nat, env: Env)
      requires Valid() && target < n && !manager.fsms[target].locked
      modifies this`lastPolled, manager.fsms, set f <- manager.fsms :: f.eph, set f <- manager.fsms :: f.eph.debounce
      ensures Valid() && Value() == Poll(target, old(failures))
      ensures forall i: nat | i < n :: manager.fsms[i].locked == old(manager.fsms[i].locked)
      ensures forall i: nat | i < n && i != target :: manager.fsms[i].State() == old(manager.fsms[i].State())
      ensures var f := manager.fsms[target];
              Stepped(old(f.State()), f.State(), f.unreachable || !f.config.enabled, f.config, target, env)
    {
      hide Next, StepOf, Count, Seen, Outcome, PerAce.State, PerAce.Valid;
      var known, events := manager.TickOneAce(target, env.world, env.now, caps);
      lastPolled := target;
    }

    /**
     * `_tick_idle`: one tick of the round robin. Only the visited machine may
     * change; a failed switch changes none.
     */
    method TickIdle(env: Env) returns (visited: Option<nat>)
      requires Valid() && !env.printing
      modifies this`lastPolled, this`failures, manager.fsms,
               set f <- manager.fsms :: f.eph, set f <- manager.fsms :: f.eph.debounce
      ensures Valid() && Turned(Value(), visited) == Turn(old(Value()), env, n)
      ensures forall i: nat | i < n :: manager.fsms[i].locked == (!env.gate && old(manager.fsms[i].locked))
      ensures forall i: nat | i < n && visited != Some(i) :: manager.fsms[i].State() == old(manager.fsms[i].State())
      ensures visited.Some? ==>
                var f := manager.fsms[visited.value];
                Stepped(old(f.State()), f.State(), f.unreachable || !f.config.enabled, f.config, visited.value, env)
    {
      hide Next, StepOf, Seen, Outcome, PerAce.State, PerAce.Valid, Stepped, Count;
      visited := None;
      if !env.gate {
        return;
      }
      Lock(-1);
      if env.active.None? {
        return;
      }
      var active := ActiveIdx(env.active.value);
      if lastPolled == -1 {
        lastPolled := active;
      }
      var target := (lastPolled + 1) % n;
      if active != target {
        SwitchTo(target, env.switch);
        if env.switch != Switched {
          return;
        }
      }
      Visit(target, env);
      visited := Some(target);
    }

    /** `tick`. */
    method Tick(env: Env) returns (visited: Option<nat>)
      requires Valid()
      modifies this`lastPolled, this`failures, manager.fsms,
               set f <- manager.fsms :: f.eph, set f <- manager.fsms :: f.eph.debounce
      ensures Valid() && Turned(Value(), visited) == Turn(old(Value()), env, n)
      ensures forall i: nat | i < n && Ticked(env, visited) != Some(i) ::
                manager.fsms[i].State() == old(manager.fsms[i].State())
      ensures var ticked := Ticked(env, visited);
              ticked.Some? && ticked.value < n ==>
                var f := manager.fsms[ticked.value];
                Stepped(old(f.State()), f.State(), f.unreachable || !f.config.enabled, f.config, ticked.value, env)
      ensures forall i: nat | i < n ::
                manager.fsms[i].locked
                == if env.printing && env.active.Some? then i != ActiveIdx(env.active.value)
                   else (env.printing || !env.gate) && old(manager.fsms[i].locked)
    {
      hide Stepped, Count, PerAce.State, PerAce.Valid, Turn;
      PrintingTurn(Value(), env, n);
      if env.printing {
        TickPrinting(env);
        visited := None;
      } else {
        visited := TickIdle(env);
      }
    }
  }

  /** The ACE whose machine a tick turns to. */
  function Ticked(env: Env, visited: Option<nat>): Option<nat> {
    if !env.printing then visited
    else if env.active.Some? then Some(ActiveIdx(env.active.value))
    else None
  }

  lemma PrintingTurn(p: Poll, env: Env, n: nat)
    requires n >= 1 && p.last >= -1
    ensures env.printing ==> Turn(p, env, n) == Turned(p, None)
  {
  }
}
