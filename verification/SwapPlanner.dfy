/** `plan_swaps`: the loop, the plan it builds, and the plan's optimality. */
module SwapPlanner {
  import opened Wrappers
  import opened Gcode
  import opened Paging

  const HEADS: nat := 4

  datatype SwapEvent = SwapEvent(line: nat, layer: nat, head: nat,
                                 fromAce: int, fromSlot: int, toAce: int, toSlot: int)

  /** The planner between two lines. `homes` is the head each tool was last used on. */
  datatype PlanState = PlanState(heads: Heads, homes: map<nat, nat>, layer: nat, swaps: seq<SwapEvent>)

  /** The head that holds a tool. */
  function HeadOf(heads: Heads, t: nat): (h: nat)
    requires Some(t) in heads
    ensures h < |heads| && heads[h] == Some(t)
  {
    if heads[0] == Some(t) then 0 else 1 + HeadOf(heads[1..], t)
  }

  function SwapAt(bound: Bindings, heads: Heads, i: nat, layer: nat, v: nat, t: nat): SwapEvent
    requires v < |heads| && IsResolved(bound, t)
  {
    var out := if heads[v].Some? && IsResolved(bound, heads[v].value) then bound[heads[v].value] else None;
    SwapEvent(i, layer, v, if out.Some? then out.value.ace else 0, if out.Some? then out.value.slot else 0,
              bound[t].value.ace, bound[t].value.slot)
  }

  function PlanLine(bound: Bindings, lines: seq<Line>, i: nat, s: PlanState): PlanState
    requires i < |lines| && 0 < |s.heads|
  {
    var reqs := Requests(bound, lines);
    if lines[i].Layer? then s.(layer := lines[i].n)
    else
      match reqs[i]
      case None => s
      case Some(t) =>
        if Some(t) in s.heads then s.(homes := s.homes[t := HeadOf(s.heads, t)])
        else
          var v := Victim(s.heads, reqs, i);
          s.(heads := Serve(s.heads, reqs, i), homes := s.homes[t := v],
             swaps := s.swaps + [SwapAt(bound, s.heads, i, s.layer, v, t)])
  }

  /** The planner on `k` heads, before line `i`. */
  function PlanUpTo(bound: Bindings, lines: seq<Line>, k: nat, i: nat): (s: PlanState)
    requires 0 < k && i <= |lines|
    ensures |s.heads| == k
    decreases i
  {
    if i == 0 then PlanState(InitialHeads(Requests(bound, lines), k), map[], 0, [])
    else PlanLine(bound, lines, i - 1, PlanUpTo(bound, lines, k, i - 1))
  }

  function Plan(bound: Bindings, lines: seq<Line>, k: nat): PlanState
    requires 0 < k
  {
    PlanUpTo(bound, lines, k, |lines|)
  }

  lemma PlanLineIsServe(bound: Bindings, lines: seq<Line>, i: nat, s: PlanState)
    requires i < |lines| && 0 < |s.heads|
    ensures var reqs, after := Requests(bound, lines), PlanLine(bound, lines, i, s);
            && after.heads == Serve(s.heads, reqs, i)
            && |after.swaps| == |s.swaps| + if Misses(s.heads, reqs[i]) then 1 else 0
  {
    hide Victim, SwapAt, HeadOf, IsResolved;
  }

  /** The heads and the swap count are those of the paging model. */
  lemma {:induction false} PlanIsPaging(bound: Bindings, lines: seq<Line>, k: nat, i: nat)
    requires 0 < k && i <= |lines|
    ensures PlanUpTo(bound, lines, k, i).heads == PlannerHeads(Requests(bound, lines), k, i)
    ensures |PlanUpTo(bound, lines, k, i).swaps| == SwapsBefore(Requests(bound, lines), k, i)
    decreases i
  {
    hide PlanLine, Serve, InitialHeads, Request;
    if i > 0 {
      PlanIsPaging(bound, lines, k, i - 1);
      PlanLineIsServe(bound, lines, i - 1, PlanUpTo(bound, lines, k, i - 1));
    }
  }

  /** The promise of `plan_swaps`: for every job, whatever else one does with the heads,
      and whatever they hold at the start, one reassigns heads at least as often. */
  lemma PlanIsMinimal(bound: Bindings, lines: seq<Line>, k: nat, s: seq<Heads>)
    requires 0 < k && IsSchedule(s, Requests(bound, lines), k)
    ensures |Plan(bound, lines, k).swaps| <= Cost(s)
  {
    PlanIsPaging(bound, lines, k, |lines|);
    PlannerIsOptimal(Requests(bound, lines), k, s);
  }

  /** And the plan itself is such a schedule, at exactly its number of swaps. */
  lemma PlanIsASchedule(bound: Bindings, lines: seq<Line>, k: nat)
    requires 0 < k
    ensures IsSchedule(PlannerSchedule(Requests(bound, lines), k), Requests(bound, lines), k)
    ensures Cost(PlannerSchedule(Requests(bound, lines), k)) == |Plan(bound, lines, k).swaps|
  {
    PlanIsPaging(bound, lines, k, |lines|);
    PlannerMeetsItsCost(Requests(bound, lines), k);
  }

  /** A job needs no swap at all exactly when it asks for no more tools than there are heads. */
  lemma SwapFreeJobs(bound: Bindings, lines: seq<Line>, k: nat)
    requires 0 < k
    ensures Plan(bound, lines, k).swaps == [] <==> |AskedFor(Requests(bound, lines))| <= k
  {
    hide PlanUpTo;
    var reqs := Requests(bound, lines);
    if |AskedFor(reqs)| <= k {
      var heads := HeadsFor(AskedFor(reqs), k);
      var s := seq(|reqs| + 1, i requires 0 <= i <= |reqs| => heads);
      StandingStillIsFree(s, |s| - 1);
      PlanIsMinimal(bound, lines, k, s);
    } else {
      PlanIsASchedule(bound, lines, k);
      AskedForCosts(PlannerSchedule(reqs, k), reqs, k);
    }
  }

  // ---- the method -------------------------------------------------------------

  /** The lines among the first `n` that name tool `t`, in order. */
  function UsesBefore(lines: seq<Line>, t: nat, n: nat): seq<nat>
    requires n <= |lines|
    decreases n
  {
    if n == 0 then []
    else UsesBefore(lines, t, n - 1) + (if PlannerTool(lines[n - 1]) && lines[n - 1].n == t then [n - 1] else [])
  }

  lemma {:induction false} UsesBeforeAre(lines: seq<Line>, t: nat, n: nat)
    requires n <= |lines|
    ensures forall j :: j in UsesBefore(lines, t, n) <==> 0 <= j < n && PlannerTool(lines[j]) && lines[j].n == t
    decreases n
  {
    if n > 0 {
      UsesBeforeAre(lines, t, n - 1);
    }
  }

  ghost predicate KnowsUses(lines: seq<Line>, futureUses: map<nat, seq<nat>>, n: nat)
    requires n <= |lines|
  {
    forall t :: (if t in futureUses then futureUses[t] else []) == UsesBefore(lines, t, n)
  }

  lemma KnowsUsesStep(lines: seq<Line>, futureUses: map<nat, seq<nat>>, n: nat)
    requires n < |lines| && KnowsUses(lines, futureUses, n)
    ensures PlannerTool(lines[n]) ==>
              var t := lines[n].n;
              KnowsUses(lines, futureUses[t := (if t in futureUses then futureUses[t] else []) + [n]], n + 1)
    ensures !PlannerTool(lines[n]) ==> KnowsUses(lines, futureUses, n + 1)
  {
    assert forall t :: UsesBefore(lines, t, n + 1)
                    == UsesBefore(lines, t, n) + (if PlannerTool(lines[n]) && lines[n].n == t then [n] else []);
  }

  /** The first pass: tools in order of appearance, and where each is used. */
  method ScanTools(bound: Bindings, lines: seq<Line>) returns (order: seq<nat>, futureUses: map<nat, seq<nat>>)
    ensures order == AppearanceOrder(bound, lines, |lines|)
    ensures KnowsUses(lines, futureUses, |lines|)
  {
    hide KnowsUses;
    order, futureUses := [], map[];
    var seen: set<nat> := {};
    assert KnowsUses(lines, futureUses, 0) by { NoUsesYet(lines); }
    for i := 0 to |lines|
      invariant order == AppearanceOrder(bound, lines, i)
      invariant forall t | t in order :: t in seen
      invariant forall t | t in seen && IsResolved(bound, t) :: t in order
      invariant KnowsUses(lines, futureUses, i)
    {
      KnowsUsesStep(lines, futureUses, i);
      if PlannerTool(lines[i]) {
        var t := lines[i].n;
        if t !in seen {
          seen := seen + {t};
          if IsResolved(bound, t) {
            order := order + [t];
          }
        }
        futureUses := futureUses[t := (if t in futureUses then futureUses[t] else []) + [i]];
      }
    }
  }

  lemma NoUsesYet(lines: seq<Line>)
    ensures KnowsUses(lines, map[], 0)
  {
  }

  /** The different tools asked for by the first `i` lines, in order of first use. */
  function AppearanceOrder(bound: Bindings, lines: seq<Line>, i: nat): seq<nat>
    requires i <= |lines|
    decreases i
  {
    if i == 0 then []
    else
      var before := AppearanceOrder(bound, lines, i - 1);
      match Request(bound, lines[i - 1])
      case Some(t) => if t in before then before else before + [t]
      case None => before
  }

  lemma {:induction false} OrderStartsWithFirstTools(bound: Bindings, lines: seq<Line>, k: nat, i: nat)
    requires i <= |lines|
    ensures var order, first := AppearanceOrder(bound, lines, i), FirstTools(Requests(bound, lines), k, i);
            first == if |order| <= k then order else order[..k]
    decreases i
  {
    hide Request;
    if i > 0 {
      OrderStartsWithFirstTools(bound, lines, k, i - 1);
      var before, first := AppearanceOrder(bound, lines, i - 1), FirstTools(Requests(bound, lines), k, i - 1);
      assert Requests(bound, lines)[i - 1] == Request(bound, lines[i - 1]);
      if |before| > k {
        assert forall t | t in first :: t in before;
        assert forall t :: (before + [t])[..k] == before[..k];
      }
    }
  }

  /** `min([u for u in uses if u > lineno])`, or -1. */
  method NextAfter(uses: seq<nat>, lineno: nat) returns (next: int)
    ensures next == -1 ==> forall u | u in uses :: u <= lineno
    ensures next != -1 ==> next >= 0 && next in uses && next > lineno && forall u | u in uses && u > lineno :: next <= u
  {
    next := -1;
    for j := 0 to |uses|
      invariant next == -1 ==> forall m | 0 <= m < j :: uses[m] <= lineno
      invariant next != -1 ==> next >= 0 && next in uses && next > lineno
                               && forall m | 0 <= m < j && uses[m] > lineno :: next <= uses[m]
    {
      if uses[j] > lineno && (next == -1 || uses[j] < next) {
        next := uses[j];
      }
    }
  }

  /** `remaining_uses` of one head, and what it says of how long the head can be spared. */
  method RemainingUse(bound: Bindings, lines: seq<Line>, futureUses: map<nat, seq<nat>>, lineno: nat,
                      content: Option<nat>)
    returns (remaining: int)
    requires lineno < |lines|
    requires content.Some? ==> IsResolved(bound, content.value)
    requires KnowsUses(lines, futureUses, |lines|)
    ensures remaining == SpareKey(Spare(Requests(bound, lines), lineno, content), |lines|)
  {
    if content == None {
      return -1;
    }
    var t := content.value;
    var uses := if t in futureUses then futureUses[t] else [];
    remaining := NextAfter(uses, lineno);
    UsesBeforeAre(lines, t, |lines|);
    ghost var reqs := Requests(bound, lines);
    ghost var next := NextUse(reqs, lineno + 1, t);
    assert forall u | u in uses :: reqs[u] == Some(t);
    if next < |lines| {
      assert next in uses;
    }
  }

  /** A head's `remaining_uses` entry: -1 when it is free for the rest of the job. */
  function SpareKey(spare: nat, n: nat): int {
    if spare >= n then -1 else spare
  }

  /** Whether the eviction key of `a` comes strictly before that of `b`, apart from the
      head index that breaks ties. */
  predicate EvictBefore(a: int, b: int) {
    (a == -1 && b != -1) || (a != -1 && b != -1 && -a < -b)
  }

  method ChooseVictim(bound: Bindings, lines: seq<Line>, futureUses: map<nat, seq<nat>>, lineno: nat,
                      heads: array<Option<nat>>)
    returns (evictHead: nat)
    requires lineno < |lines| && heads.Length > 0
    requires forall h | 0 <= h < heads.Length && heads[h].Some? :: IsResolved(bound, heads[h].value)
    requires KnowsUses(lines, futureUses, |lines|)
    ensures evictHead == Victim(heads[..], Requests(bound, lines), lineno)
  {
    hide Spare, KnowsUses;
    ghost var reqs := Requests(bound, lines);
    ghost var n := |lines|;
    evictHead := 0;
    var best := RemainingUse(bound, lines, futureUses, lineno, heads[0]);
    for h := 1 to heads.Length
      invariant evictHead < h
      invariant best == SpareKey(Spare(reqs, lineno, heads[evictHead]), n)
      invariant forall g | 0 <= g < h :: Spare(reqs, lineno, heads[g]) <= Spare(reqs, lineno, heads[evictHead])
      invariant forall g | 0 <= g < evictHead :: Spare(reqs, lineno, heads[g]) < Spare(reqs, lineno, heads[evictHead])
    {
      var remaining := RemainingUse(bound, lines, futureUses, lineno, heads[h]);
      if EvictBefore(remaining, best) {
        evictHead, best := h, remaining;
      }
    }
    VictimIsUnique(heads[..], reqs, lineno, evictHead);
  }

  lemma VictimIsUnique(heads: Heads, reqs: seq<Option<nat>>, i: nat, v: nat)
    requires i < |reqs| && v < |heads|
    requires forall h | 0 <= h < |heads| :: Spare(reqs, i, heads[h]) <= Spare(reqs, i, heads[v])
    requires forall h | 0 <= h < v :: Spare(reqs, i, heads[h]) < Spare(reqs, i, heads[v])
    ensures v == Victim(heads, reqs, i)
  {
    hide Spare;
    var w := Victim(heads, reqs, i);
    assert Spare(reqs, i, heads[v]) <= Spare(reqs, i, heads[w]);
  }

  /** The resolutions with the heads of a plan written into them. */
  function Housed(resolutions: seq<ToolResolution>, homes: map<nat, nat>): (r: seq<ToolResolution>)
    ensures |r| == |resolutions|
  {
    seq(|resolutions|, t requires 0 <= t < |resolutions| =>
      if t in homes then resolutions[t].(physicalHead := Some(homes[t])) else resolutions[t])
  }

  /** The two dictionaries of the planner mirror each other. */
  ghost predicate Mirrored(heads: Heads, toolToHead: map<nat, nat>) {
    && (forall t :: t in toolToHead <==> Some(t) in heads)
    && (forall t :: t in toolToHead ==> toolToHead[t] < |heads| && heads[toolToHead[t]] == Some(t))
  }

  /** Every tool on a head is resolved. */
  ghost predicate AllResolved(bound: Bindings, heads: Heads) {
    forall h | 0 <= h < |heads| && heads[h].Some? :: IsResolved(bound, heads[h].value)
  }

  lemma HeadOfIsUnique(heads: Heads, h: nat)
    requires NoToolTwice(heads) && h < |heads| && heads[h].Some?
    ensures HeadOf(heads, heads[h].value) == h
  {
    hide HeadOf;
    var g := HeadOf(heads, heads[h].value);
    assert g <= h && h <= g;
  }

  /** Steps 1 and 2 of the planner's own account: the initial dictionaries. */
  method PreloadHeads(order: seq<nat>, headToTool: array<Option<nat>>) returns (toolToHead: map<nat, nat>)
    requires headToTool.Length == HEADS
    requires forall h | 0 <= h < HEADS :: headToTool[h] == None
    requires Distinct(order)
    modifies headToTool
    ensures headToTool[..] == seq(HEADS, h requires 0 <= h < HEADS => if h < |order| then Some(order[h]) else None)
    ensures Mirrored(headToTool[..], toolToHead)
  {
    toolToHead := map[];
    var count := if |order| <= HEADS then |order| else HEADS;
    for nextHead := 0 to count
      invariant forall h | 0 <= h < HEADS :: headToTool[h] == if h < nextHead then Some(order[h]) else None
      invariant Mirrored(headToTool[..], toolToHead)
    {
      ghost var before := headToTool[..];
      var t := order[nextHead];
      assert Some(t) !in before;
      MirroredUpdate(before, toolToHead, nextHead, t);
      headToTool[nextHead] := Some(t);
      toolToHead := toolToHead[t := nextHead];
      assert headToTool[..] == before[nextHead := Some(t)];
    }
  }

  ghost predicate Distinct(s: seq<nat>) {
    forall g, h | 0 <= g < h < |s| :: s[g] != s[h]
  }

  lemma {:induction false} OrderIsDistinct(bound: Bindings, lines: seq<Line>, i: nat)
    requires i <= |lines|
    ensures Distinct(AppearanceOrder(bound, lines, i))
    decreases i
  {
    if i > 0 {
      OrderIsDistinct(bound, lines, i - 1);
      var before := AppearanceOrder(bound, lines, i - 1);
      assert forall g | 0 <= g < |before| :: before[g] in before;
    }
  }

  lemma PreloadIsInitial(bound: Bindings, lines: seq<Line>, k: nat)
    ensures var order := AppearanceOrder(bound, lines, |lines|);
            InitialHeads(Requests(bound, lines), k)
              == seq(k, h requires 0 <= h < k => if h < |order| then Some(order[h]) else None)
  {
    hide AppearanceOrder, FirstTools;
    OrderStartsWithFirstTools(bound, lines, k, |lines|);
  }

  /** Every tool on a head is resolved. */
  lemma {:induction false} PlanHoldsResolved(bound: Bindings, lines: seq<Line>, k: nat, i: nat)
    requires 0 < k && i <= |lines|
    ensures AllResolved(bound, PlannerHeads(Requests(bound, lines), k, i))
    decreases i
  {
    hide Victim;
    var reqs := Requests(bound, lines);
    if i == 0 {
      FirstToolsAre(reqs, k, |lines|);
      var first := FirstTools(reqs, k, |lines|);
      forall h | 0 <= h < |first|
        ensures IsResolved(bound, first[h])
      {
        assert reqs[NextUse(reqs, 0, first[h])] == Some(first[h]);
      }
    } else {
      PlanHoldsResolved(bound, lines, k, i - 1);
    }
  }

  lemma HousedUpdate(resolutions: seq<ToolResolution>, homes: map<nat, nat>, t: nat, h: nat)
    requires t < |resolutions|
    ensures Housed(resolutions, homes[t := h])
         == Housed(resolutions, homes)[t := Housed(resolutions, homes)[t].(physicalHead := Some(h))]
  {
  }

  lemma MirroredUpdate(heads: Heads, toolToHead: map<nat, nat>, v: nat, t: nat)
    requires Mirrored(heads, toolToHead) && NoToolTwice(heads)
    requires v < |heads| && Some(t) !in heads
    ensures var rest := if heads[v].Some? then toolToHead - {heads[v].value} else toolToHead;
            Mirrored(heads[v := Some(t)], rest[t := v])
  {
    var after := heads[v := Some(t)];
    forall x: nat
      ensures Some(x) in after <==> x == t || (Some(x) in heads && heads[v] != Some(x))
    {
      if Some(x) in heads && heads[v] != Some(x) {
        var h :| 0 <= h < |heads| && heads[h] == Some(x);
        assert after[h] == Some(x);
      }
      if Some(x) in after && x != t {
        var h :| 0 <= h < |after| && after[h] == Some(x);
        assert heads[h] == Some(x) && h != v;
      }
      assert after[v] == Some(t);
    }
  }

  /** The planner's mutable state stands for `s`. */
  ghost predicate Represents(heads: Heads, toolToHead: map<nat, nat>, layer: nat, swaps: seq<SwapEvent>,
                             written: seq<ToolResolution>, original: seq<ToolResolution>, s: PlanState) {
    && Mirrored(heads, toolToHead)
    && s == PlanState(heads, s.homes, layer, swaps)
    && written == Housed(original, s.homes)
  }

  /** A resolved tool that is on a head already. */
  lemma HitStep(bound: Bindings, lines: seq<Line>, i: nat, s: PlanState, toolToHead: map<nat, nat>,
                written: seq<ToolResolution>, original: seq<ToolResolution>)
    requires i < |lines| && 0 < |s.heads| && NoToolTwice(s.heads)
    requires Represents(s.heads, toolToHead, s.layer, s.swaps, written, original, s)
    requires Request(bound, lines[i]).Some? && lines[i].n in toolToHead && lines[i].n < |original|
    ensures var t := lines[i].n;
            Represents(s.heads, toolToHead, s.layer, s.swaps,
                       written[t := written[t].(physicalHead := Some(toolToHead[t]))], original,
                       PlanLine(bound, lines, i, s))
  {
    hide HeadOf, Housed;
    var t := lines[i].n;
    HeadOfIsUnique(s.heads, toolToHead[t]);
    HousedUpdate(original, s.homes, t, toolToHead[t]);
  }

  /** A resolved tool that is on no head. */
  lemma MissStep(bound: Bindings, lines: seq<Line>, i: nat, s: PlanState, toolToHead: map<nat, nat>,
                 written: seq<ToolResolution>, original: seq<ToolResolution>)
    requires i < |lines| && 0 < |s.heads| && NoToolTwice(s.heads)
    requires Represents(s.heads, toolToHead, s.layer, s.swaps, written, original, s)
    requires Request(bound, lines[i]).Some? && lines[i].n !in toolToHead && lines[i].n < |original|
    ensures var t, v := lines[i].n, Victim(s.heads, Requests(bound, lines), i);
            var gone := s.heads[v];
            var rest := if gone.Some? && gone.value in toolToHead then toolToHead - {gone.value} else toolToHead;
            Represents(s.heads[v := Some(t)], rest[t := v], s.layer,
                       s.swaps + [SwapAt(bound, s.heads, i, s.layer, v, t)],
                       written[t := written[t].(physicalHead := Some(v))], original, PlanLine(bound, lines, i, s))
  {
    hide Victim, Housed;
    var t, v := lines[i].n, Victim(s.heads, Requests(bound, lines), i);
    MirroredUpdate(s.heads, toolToHead, v, t);
    HousedUpdate(original, s.homes, t, v);
    if s.heads[v].Some? {
      assert s.heads[v] in s.heads;
    }
  }

  /** `plan_swaps` */
  method PlanSwaps(resolutions: array<ToolResolution>, lines: seq<Line>) returns (swaps: seq<SwapEvent>)
    modifies resolutions
    ensures var plan := Plan(BindingsOf(old(resolutions[..])), lines, HEADS);
            && swaps == plan.swaps
            && resolutions[..] == Housed(old(resolutions[..]), plan.homes)
  {
    hide Victim, Spare, InitialHeads, NextUse, UsesBefore, AppearanceOrder, PlannerHeads, HeadOf, Housed, PlanLine;
    hide Mirrored, Represents, SwapAt, NoToolTwice, KnowsUses;
    var resolved := BindingsOf(resolutions[..]);
    ghost var original := resolutions[..];
    var order, futureUses := ScanTools(resolved, lines);
    OrderIsDistinct(resolved, lines, |lines|);
    PreloadIsInitial(resolved, lines, HEADS);
    var headToTool: array<Option<nat>> := new Option<nat>[HEADS](_ => None);
    var toolToHead: map<nat, nat> := PreloadHeads(order, headToTool);
    swaps := [];
    var currentLayer := 0;
    ghost var s := PlanUpTo(resolved, lines, HEADS, 0);
    StartRepresents(resolved, lines, toolToHead, original);
    for lineno := 0 to |lines|
      invariant s == PlanUpTo(resolved, lines, HEADS, lineno)
      invariant Represents(headToTool[..], toolToHead, currentLayer, swaps, resolutions[..], original, s)
    {
      RepresentedParts(headToTool[..], toolToHead, currentLayer, swaps, resolutions[..], original, s);
      PlanFacts(resolved, lines, lineno);
      ghost var sBefore := s;
      s := PlanLine(resolved, lines, lineno, s);
      OtherLine(resolved, lines, lineno, sBefore, toolToHead, resolutions[..], original);
      if lines[lineno].Layer? {
        currentLayer := lines[lineno].n;
        continue;
      }
      if !PlannerTool(lines[lineno]) {
        continue;
      }
      var t := lines[lineno].n;
      if !IsResolved(resolved, t) {
        continue;
      }
      ghost var written := resolutions[..];
      if t in toolToHead {
        HitStep(resolved, lines, lineno, sBefore, toolToHead, written, original);
        if t < resolutions.Length {
          resolutions[t] := resolutions[t].(physicalHead := Some(toolToHead[t]));
        }
        assert resolutions[..] == written[t := written[t].(physicalHead := Some(toolToHead[t]))];
        continue;
      }
      MissStep(resolved, lines, lineno, sBefore, toolToHead, written, original);
      var evictHead := ChooseVictim(resolved, lines, futureUses, lineno, headToTool);
      var oldTool := headToTool[evictHead];
      swaps := swaps + [SwapAt(resolved, headToTool[..], lineno, currentLayer, evictHead, t)];
      if oldTool.Some? && oldTool.value in toolToHead {
        toolToHead := toolToHead - {oldTool.value};
      }
      headToTool[evictHead] := Some(t);
      toolToHead := toolToHead[t := evictHead];
      if t < resolutions.Length {
        resolutions[t] := resolutions[t].(physicalHead := Some(evictHead));
      }
      assert resolutions[..] == written[t := written[t].(physicalHead := Some(evictHead))];
      assert headToTool[..] == sBefore.heads[evictHead := Some(t)];
    }
    RepresentedParts(headToTool[..], toolToHead, currentLayer, swaps, resolutions[..], original, s);
  }

  /** The last pass of the source, which gives a head to tools on heads that have none
      written yet, finds nothing to do: such a tool has been asked for. */
  lemma FinalPassIsIdle(bound: Bindings, lines: seq<Line>, k: nat)
    requires 0 < k
    ensures var plan := Plan(bound, lines, k);
            forall t | t in Tools(plan.heads) :: t in plan.homes
  {
    hide PlanUpTo, Tools, NextUse;
    HeldToolsAreWanted(bound, lines, k, |lines|);
    var reqs := Requests(bound, lines);
    forall t | t in Tools(Plan(bound, lines, k).heads)
      ensures t in Plan(bound, lines, k).homes
    {
      assert NextUse(reqs, |lines|, t) >= |lines|;
    }
  }

  /** Every tool on a head has a head written or will be asked for. */
  predicate HeldAreWanted(bound: Bindings, lines: seq<Line>, s: PlanState, i: nat)
    requires i <= |lines|
  {
    forall t | t in Tools(s.heads) :: t in s.homes || NextUse(Requests(bound, lines), i, t) < |lines|
  }

  lemma {:induction false} HeldToolsAreWanted(bound: Bindings, lines: seq<Line>, k: nat, i: nat)
    requires 0 < k && i <= |lines|
    ensures HeldAreWanted(bound, lines, PlanUpTo(bound, lines, k, i), i)
    decreases i
  {
    hide HeldAreWanted, PlanLine, InitialHeads, Requests;
    if i == 0 {
      FirstAreWanted(bound, lines, k);
    } else {
      HeldToolsAreWanted(bound, lines, k, i - 1);
      WantedAfter(bound, lines, k, i - 1);
    }
  }

  lemma FirstAreWanted(bound: Bindings, lines: seq<Line>, k: nat)
    requires 0 < k
    ensures HeldAreWanted(bound, lines, PlanUpTo(bound, lines, k, 0), 0)
  {
    hide Tools, NextUse, Requests, FirstTools;
    InitialHeadsAre(Requests(bound, lines), k);
    FirstToolsAre(Requests(bound, lines), k, |lines|);
  }

  lemma WantedAfter(bound: Bindings, lines: seq<Line>, k: nat, i: nat)
    requires 0 < k && i < |lines| && HeldAreWanted(bound, lines, PlanUpTo(bound, lines, k, i), i)
    ensures HeldAreWanted(bound, lines, PlanUpTo(bound, lines, k, i + 1), i + 1)
  {
    var s := PlanUpTo(bound, lines, k, i);
    var reqs := Requests(bound, lines);
    assert PlanUpTo(bound, lines, k, i + 1) == PlanLine(bound, lines, i, s);
    hide PlanUpTo, PlanLine, Requests;
    if Misses(s.heads, reqs[i]) {
      PlanIsPaging(bound, lines, k, i);
      PlannerStaysSettled(reqs, k, i);
      WantedAfterMiss(bound, lines, i, s);
    } else {
      WantedAfterHit(bound, lines, i, s);
    }
  }

  lemma WantedAfterMiss(bound: Bindings, lines: seq<Line>, i: nat, s: PlanState)
    requires i < |lines| && HeldAreWanted(bound, lines, s, i) && 0 < |s.heads|
    requires Misses(s.heads, Requests(bound, lines)[i]) && Settled(Requests(bound, lines), s.heads)
    ensures HeldAreWanted(bound, lines, PlanLine(bound, lines, i, s), i + 1)
  {
    hide Victim, HeadOf, Tools, SwapAt, NextUse, Requests;
    var reqs := Requests(bound, lines);
    var after := PlanLine(bound, lines, i, s);
    PlanLineIsServe(bound, lines, i, s);
    MissTools(s.heads, reqs, i);
    WrittenHomes(bound, lines, i, s);
    forall t | t in Tools(after.heads)
      ensures t in after.homes || NextUse(reqs, i + 1, t) < |lines|
    {
      NextUseAfter(reqs, i, t);
    }
  }

  lemma WantedAfterHit(bound: Bindings, lines: seq<Line>, i: nat, s: PlanState)
    requires i < |lines| && HeldAreWanted(bound, lines, s, i) && 0 < |s.heads|
    requires !Misses(s.heads, Requests(bound, lines)[i])
    ensures HeldAreWanted(bound, lines, PlanLine(bound, lines, i, s), i + 1)
  {
    hide Victim, HeadOf, Tools, SwapAt, NextUse, Requests;
    var reqs := Requests(bound, lines);
    var after := PlanLine(bound, lines, i, s);
    PlanLineIsServe(bound, lines, i, s);
    WrittenHomes(bound, lines, i, s);
    forall t | t in Tools(after.heads)
      ensures t in after.homes || NextUse(reqs, i + 1, t) < |lines|
    {
      NextUseAfter(reqs, i, t);
    }
  }

  /** A line writes the head of the tool it asks for, and takes no home away. */
  lemma WrittenHomes(bound: Bindings, lines: seq<Line>, i: nat, s: PlanState)
    requires i < |lines| && 0 < |s.heads|
    ensures var after := PlanLine(bound, lines, i, s);
            && (forall t | t in s.homes :: t in after.homes)
            && (Requests(bound, lines)[i].Some? ==> Requests(bound, lines)[i].value in after.homes)
  {
    hide Victim, HeadOf, SwapAt, Request;
  }

  /** What a line that asks for no resolved tool does to the represented state. */
  lemma OtherLine(bound: Bindings, lines: seq<Line>, i: nat, s: PlanState, toolToHead: map<nat, nat>,
                  written: seq<ToolResolution>, original: seq<ToolResolution>)
    requires i < |lines| && 0 < |s.heads|
    requires Represents(s.heads, toolToHead, s.layer, s.swaps, written, original, s)
    ensures Request(bound, lines[i]) == None ==>
              Represents(s.heads, toolToHead, if lines[i].Layer? then lines[i].n else s.layer, s.swaps,
                         written, original,
                         PlanLine(bound, lines, i, s))
  {
    hide Housed;
  }

  lemma RepresentedParts(heads: Heads, toolToHead: map<nat, nat>, layer: nat, swaps: seq<SwapEvent>,
                         written: seq<ToolResolution>, original: seq<ToolResolution>, s: PlanState)
    requires Represents(heads, toolToHead, layer, swaps, written, original, s)
    ensures s.heads == heads && s.layer == layer && s.swaps == swaps && |written| == |original|
    ensures written == Housed(original, s.homes)
    ensures forall t :: t in toolToHead ==> toolToHead[t] < |heads|
  {
  }

  lemma StartRepresents(bound: Bindings, lines: seq<Line>, toolToHead: map<nat, nat>, original: seq<ToolResolution>)
    requires Mirrored(InitialHeads(Requests(bound, lines), HEADS), toolToHead)
    ensures var s := PlanUpTo(bound, lines, HEADS, 0);
            Represents(s.heads, toolToHead, 0, [], original, original, s)
  {
    assert original == Housed(original, map[]);
  }

  lemma PlanFacts(bound: Bindings, lines: seq<Line>, i: nat)
    requires i < |lines|
    ensures var s := PlanUpTo(bound, lines, HEADS, i);
            && PlanUpTo(bound, lines, HEADS, i + 1) == PlanLine(bound, lines, i, s)
            && NoToolTwice(s.heads) && AllResolved(bound, s.heads)
  {
    hide PlannerHeads, NoToolTwice, AllResolved, PlanLine;
    PlanIsPaging(bound, lines, HEADS, i);
    PlannerStaysSettled(Requests(bound, lines), HEADS, i);
    PlanHoldsResolved(bound, lines, HEADS, i);
  }
}
