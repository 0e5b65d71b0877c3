module Paging {
  import opened Wrappers

  // Offline paging: evicting the tool needed furthest in the future loses to no other
  // schedule. A job is a sequence of lines, each asking for a tool or for none. A head holds a tool
  // or nothing. The whole argument is one invariant between the planner's heads and the
  // heads of an arbitrary schedule: for every horizon, the schedule can be ahead in the
  // number of tools it holds that are needed by then only by as many loads as it has
  // already paid more than the planner.

  type Heads = seq<Option<nat>>

  /** The line from `i` on that next asks for `t`, or the length of the job. */
  function NextUse(reqs: seq<Option<nat>>, i: nat, t: nat): (n: nat)
    requires i <= |reqs|
    ensures i <= n <= |reqs|
    ensures n < |reqs| ==> reqs[n] == Some(t)
    ensures forall j | i <= j < n :: reqs[j] != Some(t)
    decreases |reqs| - i
  {
    if i == |reqs| || reqs[i] == Some(t) then i else NextUse(reqs, i + 1, t)
  }

  /** How long a head's content can be spared after line `i`: an empty head, or a tool
      never asked for again, for the rest of the job. */
  function Spare(reqs: seq<Option<nat>>, i: nat, content: Option<nat>): (n: nat)
    requires i < |reqs|
    ensures n <= |reqs|
  {
    match content
    case None => |reqs|
    case Some(t) => NextUse(reqs, i + 1, t)
  }

  /** The head to evict: the one that can be spared longest, the lowest of several. */
  function Victim(heads: Heads, reqs: seq<Option<nat>>, i: nat): (v: nat)
    requires 0 < |heads| && i < |reqs|
    ensures v < |heads|
    ensures forall h | 0 <= h < |heads| :: Spare(reqs, i, heads[h]) <= Spare(reqs, i, heads[v])
    ensures forall h | 0 <= h < v :: Spare(reqs, i, heads[h]) < Spare(reqs, i, heads[v])
  {
    if |heads| == 1 then 0
    else
      var last := |heads| - 1;
      var v := Victim(heads[..last], reqs, i);
      assert forall h | 0 <= h < last :: heads[..last][h] == heads[h];
      if Spare(reqs, i, heads[last]) > Spare(reqs, i, heads[v]) then last else v
  }

  predicate Misses(heads: Heads, request: Option<nat>) {
    request.Some? && request !in heads
  }

  function Serve(heads: Heads, reqs: seq<Option<nat>>, i: nat): (after: Heads)
    requires 0 < |heads| && i < |reqs|
    ensures |after| == |heads|
  {
    if Misses(heads, reqs[i]) then heads[Victim(heads, reqs, i) := reqs[i]] else heads
  }

  /** The first `k` different tools of the job, in order of first use. */
  function FirstTools(reqs: seq<Option<nat>>, k: nat, i: nat): (r: seq<nat>)
    requires i <= |reqs|
    ensures |r| <= k
    decreases i
  {
    if i == 0 then []
    else
      var before := FirstTools(reqs, k, i - 1);
      match reqs[i - 1]
      case Some(t) => if t in before || |before| == k then before else before + [t]
      case None => before
  }

  function InitialHeads(reqs: seq<Option<nat>>, k: nat): (heads: Heads)
    ensures |heads| == k
  {
    var first := FirstTools(reqs, k, |reqs|);
    seq(k, h requires 0 <= h < k => if h < |first| then Some(first[h]) else None)
  }

  /** The planner's heads before line `i`. */
  function PlannerHeads(reqs: seq<Option<nat>>, k: nat, i: nat): (heads: Heads)
    requires 0 < k && i <= |reqs|
    ensures |heads| == k
    decreases i
  {
    if i == 0 then InitialHeads(reqs, k) else Serve(PlannerHeads(reqs, k, i - 1), reqs, i - 1)
  }

  /** The swaps made before line `i`. */
  function SwapsBefore(reqs: seq<Option<nat>>, k: nat, i: nat): nat
    requires 0 < k && i <= |reqs|
    decreases i
  {
    if i == 0 then 0
    else SwapsBefore(reqs, k, i - 1) + (if Misses(PlannerHeads(reqs, k, i - 1), reqs[i - 1]) then 1 else 0)
  }

  // ---- schedules -------------------------------------------------------------

  /** Any way at all to run the job on `k` heads: a free choice of what the heads hold at
      the start and before every line, with every requested tool on some head in time. */
  ghost predicate IsSchedule(s: seq<Heads>, reqs: seq<Option<nat>>, k: nat) {
    && |s| == |reqs| + 1
    && (forall i | 0 <= i < |s| :: |s[i]| == k)
    && (forall i | 0 <= i < |reqs| && reqs[i].Some? :: reqs[i] in s[i + 1])
  }

  /** The heads that get a tool they did not hold. */
  function Loads(before: Heads, after: Heads): nat
    requires |before| == |after|
    decreases after
  {
    if after == [] then 0
    else
      var last := |after| - 1;
      Loads(before[..last], after[..last]) + (if after[last].Some? && after[last] != before[last] then 1 else 0)
  }

  function CostBefore(s: seq<Heads>, i: nat): nat
    requires i < |s|
    requires forall j, m | 0 <= j < m < |s| :: |s[j]| == |s[m]|
    decreases i
  {
    if i == 0 then 0 else CostBefore(s, i - 1) + Loads(s[i - 1], s[i])
  }

  function Cost(s: seq<Heads>): nat
    requires |s| > 0
    requires forall j, m | 0 <= j < m < |s| :: |s[j]| == |s[m]|
  {
    CostBefore(s, |s| - 1)
  }

  // ---- heads as sets ---------------------------------------------------------

  /** The tools on the heads. */
  function Tools(heads: Heads): (r: set<nat>)
    ensures forall t :: t in r <==> Some(t) in heads
    decreases heads
  {
    if heads == [] then {}
    else
      var last := |heads| - 1;
      assert forall t :: Some(t) in heads <==> Some(t) in heads[..last] || heads[last] == Some(t);
      Tools(heads[..last]) + (if heads[last].Some? then {heads[last].value} else {})
  }

  lemma {:induction false} ToolsFit(heads: Heads)
    ensures |Tools(heads)| <= |heads|
    decreases heads
  {
    if heads != [] {
      ToolsFit(heads[..|heads| - 1]);
    }
  }

  lemma {:induction false} NewToolsWereLoaded(before: Heads, after: Heads)
    requires |before| == |after|
    ensures |Tools(after) - Tools(before)| <= Loads(before, after)
    decreases after
  {
    if after != [] {
      var last := |after| - 1;
      var b, a := Tools(before[..last]), Tools(after[..last]);
      NewToolsWereLoaded(before[..last], after[..last]);
      assert b <= Tools(before);
      if after[last].Some? && after[last] != before[last] {
        var t := after[last].value;
        CardinalityBound(Tools(after) - Tools(before), (a - b) + {t});
      } else {
        CardinalityBound(Tools(after) - Tools(before), a - b);
      }
    }
  }

  lemma CardinalityBound<T>(a: set<T>, b: set<T>)
    requires a <= b
    ensures |a| <= |b|
  {
    if a != b {
      assert b == a + (b - a) && a !! (b - a);
    }
  }

  ghost predicate NoToolTwice(heads: Heads) {
    forall g, h | 0 <= g < h < |heads| && heads[g].Some? :: heads[g] != heads[h]
  }

  lemma {:induction false} FullHeads(heads: Heads)
    requires NoToolTwice(heads) && None !in heads
    ensures |Tools(heads)| == |heads|
    decreases heads
  {
    if heads != [] {
      var rest, last := heads[..|heads| - 1], heads[|heads| - 1];
      assert forall h | 0 <= h < |rest| :: rest[h] == heads[h];
      FullHeads(rest);
      assert last in heads && last !in rest;
      assert Tools(heads) == Tools(rest) + {last.value};
    }
  }

  // ---- horizons --------------------------------------------------------------

  /** The tools of a set that are asked for from line `i` up to and including line `tau`. */
  function Soon(reqs: seq<Option<nat>>, tools: set<nat>, i: nat, tau: nat): set<nat>
    requires i <= |reqs|
  {
    set t | t in tools && NextUse(reqs, i, t) <= tau
  }

  /** The planner's invariant against any schedule that has paid `lead` more. */
  ghost predicate NotAhead(reqs: seq<Option<nat>>, i: nat, any: set<nat>, planner: set<nat>, lead: int)
    requires i <= |reqs|
  {
    && lead >= 0
    && forall tau | i <= tau < |reqs| :: |Soon(reqs, any, i, tau)| - |Soon(reqs, planner, i, tau)| <= lead
  }

  /** The planner has filled its heads, or holds every tool the job will ever ask for. */
  ghost predicate Settled(reqs: seq<Option<nat>>, heads: Heads) {
    && NoToolTwice(heads)
    && (None !in heads || forall j | 0 <= j < |reqs| && reqs[j].Some? :: reqs[j] in heads)
  }

  // ---- the start -------------------------------------------------------------

  lemma {:induction false} FirstToolsAre(reqs: seq<Option<nat>>, k: nat, i: nat)
    requires i <= |reqs|
    ensures var first := FirstTools(reqs, k, i);
            && (forall g, h | 0 <= g < h < |first| :: first[g] != first[h])
            && (forall h | 0 <= h < |first| :: NextUse(reqs, 0, first[h]) < i)
            && (|first| < k ==> forall j | 0 <= j < i && reqs[j].Some? :: reqs[j].value in first)
            && (|first| == k ==> forall j, h | 0 <= j < i && 0 <= h < k && reqs[j].Some? && reqs[j].value !in first ::
                  NextUse(reqs, 0, first[h]) <= j)
    decreases i
  {
    hide NextUse;
    if i > 0 {
      FirstToolsAre(reqs, k, i - 1);
    }
  }

  lemma InitialHeadsAre(reqs: seq<Option<nat>>, k: nat)
    ensures var first, heads := FirstTools(reqs, k, |reqs|), InitialHeads(reqs, k);
            && Settled(reqs, heads)
            && forall t :: t in Tools(heads) <==> t in first
  {
    FirstToolsAre(reqs, k, |reqs|);
    var first, heads := FirstTools(reqs, k, |reqs|), InitialHeads(reqs, k);
    forall t | t in first
      ensures Some(t) in heads
    {
      var h :| 0 <= h < |first| && first[h] == t;
      assert heads[h] == Some(t);
    }
    assert forall h | 0 <= h < |first| :: first[h] in first;
    if None in heads {
      assert |first| < k;
    }
  }

  /** The first `k` tools are as good a start as any choice of `k`. */
  lemma StartNotAhead(reqs: seq<Option<nat>>, k: nat, any: Heads)
    requires |any| == k
    ensures NotAhead(reqs, 0, Tools(any), Tools(InitialHeads(reqs, k)), 0)
  {
    hide NextUse, Tools, FirstTools, InitialHeads;
    var first, heads := FirstTools(reqs, k, |reqs|), InitialHeads(reqs, k);
    FirstToolsAre(reqs, k, |reqs|);
    InitialHeadsAre(reqs, k);
    forall tau | 0 <= tau < |reqs|
      ensures |Soon(reqs, Tools(any), 0, tau)| <= |Soon(reqs, Tools(heads), 0, tau)|
    {
      var a, b := Soon(reqs, Tools(any), 0, tau), Soon(reqs, Tools(heads), 0, tau);
      if t :| t in a && t !in first {
        var j := NextUse(reqs, 0, t);
        assert reqs[j].value !in first;
        assert |first| == k;
        assert None !in heads;
        FullHeads(heads);
        assert b == Tools(heads);
        ToolsFit(any);
        CardinalityBound(a, Tools(any));
      } else {
        CardinalityBound(a, b);
      }
    }
  }

  // ---- one line --------------------------------------------------------------

  /** Passing line `i` moves nobody's next use but the requested tool's. */
  lemma NextUseAfter(reqs: seq<Option<nat>>, i: nat, t: nat)
    requires i < |reqs|
    ensures NextUse(reqs, i, t) == if reqs[i] == Some(t) then i else NextUse(reqs, i + 1, t)
  {
  }

  lemma SoonAfter(reqs: seq<Option<nat>>, tools: set<nat>, i: nat, tau: nat)
    requires i < |reqs|
    requires forall t | t in tools :: reqs[i] != Some(t)
    ensures Soon(reqs, tools, i + 1, tau) == Soon(reqs, tools, i, tau)
  {
    hide NextUse;
    forall t | t in tools
      ensures NextUse(reqs, i + 1, t) == NextUse(reqs, i, t)
    {
      NextUseAfter(reqs, i, t);
    }
  }

  lemma SoonSplit(reqs: seq<Option<nat>>, tools: set<nat>, t: nat, i: nat, tau: nat)
    requires i <= |reqs| && t !in tools
    ensures |Soon(reqs, tools + {t}, i, tau)|
         == |Soon(reqs, tools, i, tau)| + (if NextUse(reqs, i, t) <= tau then 1 else 0)
  {
    hide NextUse;
    var without := Soon(reqs, tools, i, tau);
    if NextUse(reqs, i, t) <= tau {
      assert Soon(reqs, tools + {t}, i, tau) == without + {t};
    } else {
      assert Soon(reqs, tools + {t}, i, tau) == without;
    }
  }

  /** The schedule's own change before line `i` is paid for by its loads. */
  lemma AnyMoves(reqs: seq<Option<nat>>, i: nat, before: Heads, after: Heads, planner: set<nat>, lead: int)
    requires i < |reqs| && |before| == |after|
    requires NotAhead(reqs, i, Tools(before), planner, lead)
    ensures NotAhead(reqs, i, Tools(after), planner, lead + Loads(before, after))
  {
    NewToolsWereLoaded(before, after);
    var a, b := Tools(after), Tools(before);
    forall tau | i <= tau < |reqs|
      ensures |Soon(reqs, a, i, tau)| <= |Soon(reqs, b, i, tau)| + Loads(before, after)
    {
      CardinalityBound(Soon(reqs, a, i, tau), Soon(reqs, b, i, tau) + (a - b));
    }
  }

  /** Passing a line changes the horizon count of a set holding the requested tool by
      that tool alone. */
  lemma PassLine(reqs: seq<Option<nat>>, i: nat, tools: set<nat>, t: nat, tau: nat)
    requires i < |reqs| && reqs[i] == Some(t) && t in tools && i < tau
    ensures |Soon(reqs, tools, i + 1, tau)|
         == |Soon(reqs, tools, i, tau)| - (if NextUse(reqs, i + 1, t) <= tau then 0 else 1)
  {
    hide Soon, NextUse;
    var others := tools - {t};
    assert tools == others + {t};
    SoonSplit(reqs, others, t, i, tau);
    SoonSplit(reqs, others, t, i + 1, tau);
    SoonAfter(reqs, others, i, tau);
    NextUseAfter(reqs, i, t);
  }

  lemma HitLine(reqs: seq<Option<nat>>, i: nat, any: set<nat>, planner: set<nat>, lead: int)
    requires i < |reqs| && NotAhead(reqs, i, any, planner, lead)
    requires reqs[i].Some? ==> reqs[i].value in any && reqs[i].value in planner
    ensures NotAhead(reqs, i + 1, any, planner, lead)
  {
    hide Soon, NextUse;
    var next := i + 1;
    forall tau | next <= tau < |reqs|
      ensures |Soon(reqs, any, next, tau)| - |Soon(reqs, planner, next, tau)| <= lead
    {
      match reqs[i]
      case Some(t) =>
        PassLine(reqs, i, any, t, tau);
        PassLine(reqs, i, planner, t, tau);
      case None =>
        SoonAfter(reqs, any, i, tau);
        SoonAfter(reqs, planner, i, tau);
    }
  }

  /** A miss costs the planner one of its lead, and the horizons still hold: below the
      evicted tool's next use nothing was lost, and from there on the planner's other
      heads are all needed. */
  lemma MissLine(reqs: seq<Option<nat>>, i: nat, any: set<nat>, planner: set<nat>, lead: int, t: nat, out: nat)
    requires i < |reqs| && NotAhead(reqs, i, any, planner, lead)
    requires reqs[i] == Some(t) && t in any && t !in planner
    requires out in planner && |any| <= |planner|
    requires forall x | x in planner :: NextUse(reqs, i, x) <= NextUse(reqs, i, out)
    ensures NotAhead(reqs, i + 1, any, planner - {out} + {t}, lead - 1)
  {
    hide Soon, NextUse;
    LeadIsEarned(reqs, i, any, planner, t);
    var next, planner' := i + 1, planner - {out} + {t};
    forall tau | next <= tau < |reqs|
      ensures |Soon(reqs, any, next, tau)| - |Soon(reqs, planner', next, tau)| <= lead - 1
    {
      PassLine(reqs, i, any, t, tau);
      SoonSplit(reqs, planner - {out}, t, next, tau);
      SoonAfter(reqs, planner - {out}, i, tau);
      SoonSplit(reqs, planner - {out}, out, i, tau);
      assert planner - {out} + {out} == planner;
      if NextUse(reqs, i, out) <= tau {
        AllSoon(reqs, i, planner, tau);
        SoonFits(reqs, any, i, tau);
      }
    }
  }

  lemma LeadIsEarned(reqs: seq<Option<nat>>, i: nat, any: set<nat>, planner: set<nat>, t: nat)
    requires i < |reqs| && reqs[i] == Some(t) && t in any && t !in planner
    ensures |Soon(reqs, any, i, i)| >= 1 && |Soon(reqs, planner, i, i)| == 0
  {
    NextUseAfter(reqs, i, t);
    assert t in Soon(reqs, any, i, i);
    assert forall x | x in planner :: NextUse(reqs, i, x) > i;
    assert Soon(reqs, planner, i, i) == {};
  }

  lemma AllSoon(reqs: seq<Option<nat>>, i: nat, tools: set<nat>, tau: nat)
    requires i <= |reqs| && forall x | x in tools :: NextUse(reqs, i, x) <= tau
    ensures Soon(reqs, tools, i, tau) == tools
  {
    hide NextUse;
  }

  lemma SoonFits(reqs: seq<Option<nat>>, tools: set<nat>, i: nat, tau: nat)
    requires i <= |reqs|
    ensures |Soon(reqs, tools, i, tau)| <= |tools|
  {
    CardinalityBound(Soon(reqs, tools, i, tau), tools);
  }

  // ---- the whole job ----------------------------------------------------------

  lemma {:induction false} PlannerStaysSettled(reqs: seq<Option<nat>>, k: nat, i: nat)
    requires 0 < k && i <= |reqs|
    ensures Settled(reqs, PlannerHeads(reqs, k, i))
    decreases i
  {
    if i == 0 {
      InitialHeadsAre(reqs, k);
    } else {
      PlannerStaysSettled(reqs, k, i - 1);
    }
  }

  /** The tool a miss evicts. */
  function Evicted(heads: Heads, reqs: seq<Option<nat>>, i: nat): (out: nat)
    requires 0 < |heads| && i < |reqs| && None !in heads
    ensures out in Tools(heads)
  {
    assert heads[Victim(heads, reqs, i)] in heads;
    heads[Victim(heads, reqs, i)].value
  }

  /** A miss replaces the evicted tool by the requested one, and nothing else. */
  lemma MissTools(heads: Heads, reqs: seq<Option<nat>>, i: nat)
    requires 0 < |heads| && i < |reqs| && NoToolTwice(heads) && None !in heads
    requires Misses(heads, reqs[i])
    ensures Tools(Serve(heads, reqs, i)) == Tools(heads) - {Evicted(heads, reqs, i)} + {reqs[i].value}
  {
    hide Victim, NextUse, Tools;
    var v, out := Victim(heads, reqs, i), Evicted(heads, reqs, i);
    var after := Serve(heads, reqs, i);
    forall t: nat
      ensures t in Tools(after) <==> (t in Tools(heads) && t != out) || t == reqs[i].value
    {
      if t in Tools(heads) && t != out {
        var h :| 0 <= h < |heads| && heads[h] == Some(t);
        assert after[h] == Some(t);
      }
      if t in Tools(after) && t != reqs[i].value {
        var h :| 0 <= h < |after| && after[h] == Some(t);
        assert heads[h] == Some(t);
      }
      assert after[v] == reqs[i];
    }
  }

  /** The evicted tool is the one needed furthest in the future. */
  lemma EvictedIsFurthest(heads: Heads, reqs: seq<Option<nat>>, i: nat)
    requires 0 < |heads| && i < |reqs| && None !in heads
    requires Misses(heads, reqs[i])
    ensures forall x | x in Tools(heads) :: NextUse(reqs, i, x) <= NextUse(reqs, i, Evicted(heads, reqs, i))
  {
    hide Victim, NextUse, Tools;
    var v, out := Victim(heads, reqs, i), Evicted(heads, reqs, i);
    NextUseAfter(reqs, i, out);
    forall x | x in Tools(heads)
      ensures NextUse(reqs, i, x) <= NextUse(reqs, i, out)
    {
      NextUseAfter(reqs, i, x);
      var h :| 0 <= h < |heads| && heads[h] == Some(x);
      assert Spare(reqs, i, heads[h]) <= Spare(reqs, i, heads[v]);
    }
  }

  lemma MissServed(reqs: seq<Option<nat>>, heads: Heads, i: nat, any: Heads, lead: int)
    requires i < |reqs| && 0 < |heads| == |any| && Settled(reqs, heads)
    requires Misses(heads, reqs[i]) && reqs[i] in any
    requires NotAhead(reqs, i, Tools(any), Tools(heads), lead)
    ensures NotAhead(reqs, i + 1, Tools(any), Tools(Serve(heads, reqs, i)), lead - 1)
  {
    hide NextUse, Tools, Victim, NotAhead, Serve, Evicted;
    MissTools(heads, reqs, i);
    EvictedIsFurthest(heads, reqs, i);
    FullHeads(heads);
    ToolsFit(any);
    MissLine(reqs, i, Tools(any), Tools(heads), lead, reqs[i].value, Evicted(heads, reqs, i));
  }

  lemma {:induction false} PlannerNeverBehind(reqs: seq<Option<nat>>, k: nat, s: seq<Heads>, i: nat)
    requires 0 < k && IsSchedule(s, reqs, k) && i <= |reqs|
    ensures NotAhead(reqs, i, Tools(s[i]), Tools(PlannerHeads(reqs, k, i)), CostBefore(s, i) - SwapsBefore(reqs, k, i))
    decreases i
  {
    hide NotAhead, Tools, NextUse, Loads;
    if i == 0 {
      StartNotAhead(reqs, k, s[0]);
    } else {
      var j := i - 1;
      var heads := PlannerHeads(reqs, k, j);
      var lead := CostBefore(s, j) - SwapsBefore(reqs, k, j);
      PlannerNeverBehind(reqs, k, s, j);
      AnyMoves(reqs, j, s[j], s[i], Tools(heads), lead);
      PlannerStaysSettled(reqs, k, j);
      if Misses(heads, reqs[j]) {
        MissServed(reqs, heads, j, s[i], lead + Loads(s[j], s[i]));
      } else {
        HitLine(reqs, j, Tools(s[i]), Tools(heads), lead + Loads(s[j], s[i]));
      }
    }
  }

  /** No schedule makes fewer swaps than the planner. */
  lemma PlannerIsOptimal(reqs: seq<Option<nat>>, k: nat, s: seq<Heads>)
    requires 0 < k && IsSchedule(s, reqs, k)
    ensures SwapsBefore(reqs, k, |reqs|) <= Cost(s)
  {
    PlannerNeverBehind(reqs, k, s, |reqs|);
  }

  /** The planner's own run, as a schedule. */
  function PlannerSchedule(reqs: seq<Option<nat>>, k: nat): (s: seq<Heads>)
    requires 0 < k
    ensures |s| == |reqs| + 1
    ensures forall i | 0 <= i < |s| :: |s[i]| == k
  {
    seq(|reqs| + 1, i requires 0 <= i <= |reqs| => PlannerHeads(reqs, k, i))
  }

  /** The bound is met: the planner's run serves every line at exactly the cost counted. */
  lemma PlannerMeetsItsCost(reqs: seq<Option<nat>>, k: nat)
    requires 0 < k
    ensures IsSchedule(PlannerSchedule(reqs, k), reqs, k)
    ensures Cost(PlannerSchedule(reqs, k)) == SwapsBefore(reqs, k, |reqs|)
  {
    var s := PlannerSchedule(reqs, k);
    forall i | 0 <= i < |reqs| && reqs[i].Some?
      ensures reqs[i] in s[i + 1]
    {
      var heads := PlannerHeads(reqs, k, i);
      if Misses(heads, reqs[i]) {
        assert s[i + 1][Victim(heads, reqs, i)] == reqs[i];
      }
    }
    CostIsSwaps(reqs, k, |reqs|);
  }

  lemma {:induction false} CostIsSwaps(reqs: seq<Option<nat>>, k: nat, i: nat)
    requires 0 < k && i <= |reqs|
    ensures CostBefore(PlannerSchedule(reqs, k), i) == SwapsBefore(reqs, k, i)
    decreases i
  {
    if i > 0 {
      CostIsSwaps(reqs, k, i - 1);
      var heads := PlannerHeads(reqs, k, i - 1);
      if Misses(heads, reqs[i - 1]) {
        var v := Victim(heads, reqs, i - 1);
        assert heads[v] in heads;
        LoadsOfUpdate(heads, v, reqs[i - 1]);
      } else {
        LoadsOfNothing(heads);
      }
    }
  }

  lemma {:induction false} LoadsOfNothing(heads: Heads)
    ensures Loads(heads, heads) == 0
    decreases heads
  {
    if heads != [] {
      LoadsOfNothing(heads[..|heads| - 1]);
    }
  }

  lemma {:induction false} LoadsOfUpdate(heads: Heads, v: nat, content: Option<nat>)
    requires v < |heads| && content.Some? && content != heads[v]
    ensures Loads(heads, heads[v := content]) == 1
    decreases heads
  {
    var last := |heads| - 1;
    if v == last {
      assert heads[v := content][..last] == heads[..last];
      LoadsOfNothing(heads[..last]);
    } else {
      assert heads[v := content][..last] == heads[..last][v := content];
      LoadsOfUpdate(heads[..last], v, content);
    }
  }

  /** A tool on a head has been asked for, or will be. */
  lemma {:induction false} HeldIsRequested(reqs: seq<Option<nat>>, k: nat, i: nat, t: nat)
    requires 0 < k && i <= |reqs| && Some(t) in PlannerHeads(reqs, k, i)
    ensures Some(t) in reqs
    decreases i
  {
    if i == 0 {
      InitialHeadsAre(reqs, k);
      FirstToolsAre(reqs, k, |reqs|);
      assert t in Tools(InitialHeads(reqs, k));
      assert reqs[NextUse(reqs, 0, t)] == Some(t);
    } else if Some(t) in PlannerHeads(reqs, k, i - 1) {
      HeldIsRequested(reqs, k, i - 1, t);
    } else {
      assert reqs[i - 1] == Some(t);
    }
  }

  // ---- jobs without swaps -------------------------------------------------------

  /** The different tools of a job. */
  function AskedFor(reqs: seq<Option<nat>>): (r: set<nat>)
    ensures forall t :: t in r <==> Some(t) in reqs
  {
    Tools(reqs)
  }

  /** A schedule pays for every tool beyond the ones it starts with. */
  lemma AskedForCosts(s: seq<Heads>, reqs: seq<Option<nat>>, k: nat)
    requires IsSchedule(s, reqs, k)
    ensures |AskedFor(reqs)| <= k + Cost(s)
  {
    hide Loads, Tools;
    var n := |s| - 1;
    ToolsFit(s[0]);
    var gathered := Gathered(s, n);
    GatheredCosts(s, n);
    forall t | t in AskedFor(reqs)
      ensures t in gathered
    {
      var i :| 0 <= i < |reqs| && reqs[i] == Some(t);
      GatheredGrows(s, i + 1, n, t);
    }
    CardinalityBound(AskedFor(reqs), gathered);
  }

  /** All tools that were on a head at some point up to `i`. */
  function Gathered(s: seq<Heads>, i: nat): set<nat>
    requires i < |s|
    decreases i
  {
    if i == 0 then Tools(s[0]) else Gathered(s, i - 1) + Tools(s[i])
  }

  lemma {:induction false} GatheredGrows(s: seq<Heads>, i: nat, n: nat, t: nat)
    requires i <= n < |s| && t in Tools(s[i])
    ensures t in Gathered(s, n)
    decreases n
  {
    if i < n {
      GatheredGrows(s, i, n - 1, t);
    }
  }

  lemma {:induction false} GatheredCosts(s: seq<Heads>, i: nat)
    requires i < |s|
    requires forall j, m | 0 <= j < m < |s| :: |s[j]| == |s[m]|
    ensures Tools(s[i]) <= Gathered(s, i)
    ensures |Gathered(s, i)| <= |Tools(s[0])| + CostBefore(s, i)
    decreases i
  {
    hide Loads, Tools;
    if i > 0 {
      GatheredCosts(s, i - 1);
      NewToolsWereLoaded(s[i - 1], s[i]);
      var before, new_ := Gathered(s, i - 1), Tools(s[i]) - Tools(s[i - 1]);
      CardinalityBound(Gathered(s, i), before + new_);
    }
  }

  /** Heads that hold a given set of tools. */
  ghost function HeadsFor(tools: set<nat>, k: nat): (heads: Heads)
    requires |tools| <= k
    ensures |heads| == k && forall t | t in tools :: Some(t) in heads
    decreases k
  {
    if k == 0 then []
    else if tools == {} then HeadsFor({}, k - 1) + [None]
    else
      var t :| t in tools;
      var rest := HeadsFor(tools - {t}, k - 1);
      assert forall x | x in tools :: x == t || x in tools - {t};
      rest + [Some(t)]
  }

  lemma {:induction false} StandingStillIsFree(s: seq<Heads>, i: nat)
    requires i < |s| && forall j | 0 <= j < |s| :: s[j] == s[0]
    ensures CostBefore(s, i) == 0
    decreases i
  {
    if i > 0 {
      StandingStillIsFree(s, i - 1);
      LoadsOfNothing(s[i]);
    }
  }
}
