/** `optimize_aliases`: tools of the same material and colour become one. */
module Aliases {
  import opened Wrappers
  import opened Gcode
  import opened Matching
  import opened Paging
  import opened SwapPlanner

  datatype AliasDecision = AliasDecision(line: nat, layer: Option<nat>, original: nat, alias: nat)

  /** The tools the pass looks at: those with a material and colour to compare. */
  predicate HasMeta(rs: seq<ToolResolution>, n: nat) {
    n < |rs| && rs[n].quality != Unmatched
  }

  predicate Considers(rs: seq<ToolResolution>, l: Line) {
    ColumnTool(l) && HasMeta(rs, l.n)
  }

  /** The first tool of the given material and colour among the first `i` lines. */
  function FirstSeen(rs: seq<ToolResolution>, lines: seq<Line>, i: nat, meta: ToolMeta): (r: Option<nat>)
    requires i <= |lines|
    ensures r.Some? ==> HasMeta(rs, r.value) && rs[r.value].tool == meta
    decreases i
  {
    if i == 0 then None
    else
      match FirstSeen(rs, lines, i - 1, meta)
      case Some(m) => Some(m)
      case None =>
        if Considers(rs, lines[i - 1]) && rs[lines[i - 1].n].tool == meta then Some(lines[i - 1].n) else None
  }

  /** The pass as one static map from tools to tools. */
  function AliasOf(rs: seq<ToolResolution>, lines: seq<Line>, n: nat): nat {
    if !HasMeta(rs, n) then n
    else
      match FirstSeen(rs, lines, |lines|, rs[n].tool)
      case Some(m) => m
      case None => n
  }

  function AliasLine(rs: seq<ToolResolution>, lines: seq<Line>, l: Line): Line {
    if Considers(rs, l) then Tool(AliasOf(rs, lines, l.n), l.indented, l.args) else l
  }

  function Aliased(rs: seq<ToolResolution>, lines: seq<Line>): (r: seq<Line>)
    ensures |r| == |lines|
  {
    seq(|lines|, i requires 0 <= i < |lines| => AliasLine(rs, lines, lines[i]))
  }

  lemma {:induction false} FirstSeenStays(rs: seq<ToolResolution>, lines: seq<Line>, i: nat, j: nat, meta: ToolMeta)
    requires i <= j <= |lines| && FirstSeen(rs, lines, i, meta).Some?
    ensures FirstSeen(rs, lines, j, meta) == FirstSeen(rs, lines, i, meta)
    decreases j
  {
    if i < j {
      FirstSeenStays(rs, lines, i, j - 1, meta);
    }
  }

  /** Seen from the loop: what was seen before line `i` decides the alias of line `i`. */
  lemma AliasAtLine(rs: seq<ToolResolution>, lines: seq<Line>, i: nat)
    requires i < |lines| && Considers(rs, lines[i])
    ensures var n := lines[i].n;
            AliasOf(rs, lines, n) ==
              match FirstSeen(rs, lines, i, rs[n].tool)
              case Some(m) => m
              case None => n
  {
    FirstSeenStays(rs, lines, i + 1, |lines|, rs[lines[i].n].tool);
  }

  /** The decisions the pass reports: one per line whose tool changes. */
  function Decisions(rs: seq<ToolResolution>, lines: seq<Line>, i: nat): seq<AliasDecision>
    requires i <= |lines|
    decreases i
  {
    if i == 0 then []
    else
      var l := lines[i - 1];
      Decisions(rs, lines, i - 1)
      + (if Considers(rs, l) && AliasOf(rs, lines, l.n) != l.n
         then [AliasDecision(i - 1, LayerBefore(lines, i), l.n, AliasOf(rs, lines, l.n))] else [])
  }

  function LayerBefore(lines: seq<Line>, i: nat): Option<nat>
    requires i <= |lines|
    decreases i
  {
    if i == 0 then None
    else if lines[i - 1].Layer? && lines[i - 1].canonical then Some(lines[i - 1].n)
    else LayerBefore(lines, i - 1)
  }

  /** `seen_tools`: exactly the first-seen tool of every material and colour met so far. */
  ghost predicate SeenAre(rs: seq<ToolResolution>, lines: seq<Line>, i: nat, seen: set<nat>)
    requires i <= |lines|
  {
    && (forall m | m in seen :: HasMeta(rs, m) && FirstSeen(rs, lines, i, rs[m].tool) == Some(m))
    && (forall n: nat | HasMeta(rs, n) && FirstSeen(rs, lines, i, rs[n].tool).Some? ::
          FirstSeen(rs, lines, i, rs[n].tool).value in seen)
  }

  lemma SeenStep(rs: seq<ToolResolution>, lines: seq<Line>, i: nat, seen: set<nat>)
    requires i < |lines| && SeenAre(rs, lines, i, seen)
    ensures !Considers(rs, lines[i]) ==> SeenAre(rs, lines, i + 1, seen)
    ensures Considers(rs, lines[i]) ==>
              var n := lines[i].n;
              var first := FirstSeen(rs, lines, i, rs[n].tool);
              && (first.Some? ==> first.value in seen && SeenAre(rs, lines, i + 1, seen))
              && (first.None? ==> SeenAre(rs, lines, i + 1, seen + {n}))
              && (forall m | m in seen && rs[m].tool == rs[n].tool :: first == Some(m))
  {
  }

  method OptimizeAliases(lines: seq<Line>, resolutions: seq<ToolResolution>)
    returns (outLines: seq<Line>, decisions: seq<AliasDecision>)
    ensures outLines == Aliased(resolutions, lines)
    ensures decisions == Decisions(resolutions, lines, |lines|)
  {
    hide FirstSeen, SeenAre, AliasOf;
    var seenTools: set<nat> := {};
    outLines, decisions := lines, [];
    var currentLayer := None;
    SeenNothing(resolutions, lines);
    for i := 0 to |lines|
      invariant |outLines| == |lines|
      invariant forall j | 0 <= j < |lines| ::
                  outLines[j] == if j < i then AliasLine(resolutions, lines, lines[j]) else lines[j]
      invariant decisions == Decisions(resolutions, lines, i)
      invariant currentLayer == LayerBefore(lines, i)
      invariant SeenAre(resolutions, lines, i, seenTools)
    {
      SeenStep(resolutions, lines, i, seenTools);
      if lines[i].Layer? && lines[i].canonical {
        currentLayer := Some(lines[i].n);
        continue;
      }
      if !ColumnTool(lines[i]) {
        continue;
      }
      var n := lines[i].n;
      if !HasMeta(resolutions, n) {
        continue;
      }
      AliasAtLine(resolutions, lines, i);
      SeenMeta(resolutions, lines, i, seenTools);
      if m :| m in seenTools && m != n && m < |resolutions| && resolutions[m].tool == resolutions[n].tool {
        outLines := outLines[i := Tool(m, lines[i].indented, lines[i].args)];
        decisions := decisions + [AliasDecision(i, currentLayer, n, m)];
      } else {
        assert n in seenTools ==> seenTools + {n} == seenTools;
        seenTools := seenTools + {n};
      }
    }
  }

  lemma SeenNothing(rs: seq<ToolResolution>, lines: seq<Line>)
    ensures SeenAre(rs, lines, 0, {})
  {
  }

  lemma SeenMeta(rs: seq<ToolResolution>, lines: seq<Line>, i: nat, seen: set<nat>)
    requires i <= |lines| && SeenAre(rs, lines, i, seen)
    ensures forall m | m in seen :: m < |rs|
  {
  }

  // ---- what the pass does --------------------------------------------------------

  /** Line `j` has, at column 0, a matched tool of the given material and colour. */
  predicate ShowsMeta(rs: seq<ToolResolution>, lines: seq<Line>, j: nat, meta: ToolMeta) {
    && j < |lines| && lines[j].Tool? && !lines[j].indented
    && lines[j].n < |rs| && rs[lines[j].n].quality != Unmatched && rs[lines[j].n].tool == meta
  }

  lemma {:induction false} FirstSeenIs(rs: seq<ToolResolution>, lines: seq<Line>, i: nat, meta: ToolMeta)
    requires i <= |lines|
    ensures var first := FirstSeen(rs, lines, i, meta);
            if first.None? then forall j: nat | j < i :: !ShowsMeta(rs, lines, j, meta)
            else exists j: nat | j < i ::
                   && ShowsMeta(rs, lines, j, meta) && lines[j].n == first.value
                   && forall m: nat | m < j :: !ShowsMeta(rs, lines, m, meta)
    decreases i
  {
    if i > 0 {
      FirstSeenIs(rs, lines, i - 1, meta);
    }
  }

  /** The alias of a matched tool is the first of its material and colour that the job shows at column 0,
      itself if there is none; an unmatched one keeps its number. */
  lemma AliasIsFirst(rs: seq<ToolResolution>, lines: seq<Line>, n: nat)
    ensures n >= |rs| || rs[n].quality == Unmatched ==> AliasOf(rs, lines, n) == n
    ensures n < |rs| && rs[n].quality != Unmatched ==>
              var meta, m := rs[n].tool, AliasOf(rs, lines, n);
              || (m == n && forall j: nat :: !ShowsMeta(rs, lines, j, meta))
              || (exists j: nat ::
                    && ShowsMeta(rs, lines, j, meta) && lines[j].n == m
                    && forall i: nat | i < j :: !ShowsMeta(rs, lines, i, meta))
  {
    hide FirstSeen;
    if HasMeta(rs, n) {
      FirstSeenIs(rs, lines, |lines|, rs[n].tool);
    }
  }

  /** `layer` is the number of the last canonical marker up to line `i`, if there is one. */
  ghost predicate MarkerBefore(lines: seq<Line>, i: nat, layer: Option<nat>)
    requires i <= |lines|
  {
    if layer.None? then forall j | 0 <= j < i :: !(lines[j].Layer? && lines[j].canonical)
    else exists j: nat | j < i ::
           && lines[j].Layer? && lines[j].canonical && lines[j].n == layer.value
           && forall m | j < m < i :: !(lines[m].Layer? && lines[m].canonical)
  }

  lemma {:induction false} LayerBeforeIs(lines: seq<Line>, i: nat)
    requires i <= |lines|
    ensures MarkerBefore(lines, i, LayerBefore(lines, i))
    decreases i
  {
    if i > 0 {
      LayerBeforeIs(lines, i - 1);
    }
  }

  /** A decision is reported for a line. */
  predicate Decided(rs: seq<ToolResolution>, lines: seq<Line>, d: AliasDecision) {
    && d.line < |lines| && lines[d.line].Tool? && !lines[d.line].indented && lines[d.line].n == d.original
    && AliasOf(rs, lines, d.original) == d.alias != d.original
  }

  /** Only the number of a column-0 tool line changes, to the alias; its arguments stay. */
  lemma AliasedLine(rs: seq<ToolResolution>, lines: seq<Line>, i: nat)
    requires i < |lines|
    ensures Aliased(rs, lines)[i]
         == if lines[i].Tool? && !lines[i].indented then Tool(AliasOf(rs, lines, lines[i].n), false, lines[i].args)
            else lines[i]
  {
    AliasIsFirst(rs, lines, if lines[i].Tool? then lines[i].n else 0);
  }

  /** The reports on the first `i` lines. */
  ghost predicate Reports(rs: seq<ToolResolution>, lines: seq<Line>, i: nat, ds: seq<AliasDecision>) {
    && (forall d <- ds :: Decided(rs, lines, d) && d.line < i && MarkerBefore(lines, d.line, d.layer))
    && (forall j: nat | j < i && j < |lines| && Aliased(rs, lines)[j] != lines[j] :: exists d <- ds :: d.line == j)
    && (forall x, y | 0 <= x < y < |ds| :: ds[x].line < ds[y].line)
  }

  lemma DecisionStep(rs: seq<ToolResolution>, lines: seq<Line>, i: nat)
    requires i < |lines|
    ensures var l, before := lines[i], Decisions(rs, lines, i);
            if l.Tool? && !l.indented && AliasOf(rs, lines, l.n) != l.n then
              exists layer :: MarkerBefore(lines, i, layer)
                && Decisions(rs, lines, i + 1) == before + [AliasDecision(i, layer, l.n, AliasOf(rs, lines, l.n))]
            else Decisions(rs, lines, i + 1) == before && Aliased(rs, lines)[i] == l
  {
    hide AliasOf, LayerBefore, MarkerBefore;
    var l := lines[i];
    AliasedLine(rs, lines, i);
    if l.Tool? {
      AliasIsFirst(rs, lines, l.n);
      LayerAtTool(lines, i + 1);
    }
    var before: seq<AliasDecision> := Decisions(rs, lines, i);
    assert before + [] == before;
  }

  lemma ReportsOneMore(rs: seq<ToolResolution>, lines: seq<Line>, i: nat, ds: seq<AliasDecision>, d: AliasDecision)
    requires i < |lines| && Reports(rs, lines, i, ds)
    requires d.line == i && Decided(rs, lines, d) && MarkerBefore(lines, i, d.layer)
    ensures Reports(rs, lines, i + 1, ds + [d])
  {
    hide Decided, MarkerBefore, Aliased;
    var all := ds + [d];
    assert d in all && forall e <- ds :: e in all;
    forall j: nat | j < i + 1 && Aliased(rs, lines)[j] != lines[j]
      ensures exists e <- all :: e.line == j
    {
      if j < i {
        var e :| e in ds && e.line == j;
        assert e in all;
      }
    }
    assert forall x | 0 <= x < |ds| :: ds[x] in ds;
  }

  lemma NothingReported(rs: seq<ToolResolution>, lines: seq<Line>)
    ensures Reports(rs, lines, 0, Decisions(rs, lines, 0))
  {
  }

  lemma ReportsStep(rs: seq<ToolResolution>, lines: seq<Line>, i: nat)
    requires i < |lines| && Reports(rs, lines, i, Decisions(rs, lines, i))
    ensures Reports(rs, lines, i + 1, Decisions(rs, lines, i + 1))
  {
    DecisionStep(rs, lines, i);
    hide Decisions, Reports, AliasOf, Aliased, MarkerBefore;
    var l, before := lines[i], Decisions(rs, lines, i);
    if l.Tool? && !l.indented && AliasOf(rs, lines, l.n) != l.n {
      var layer :| MarkerBefore(lines, i, layer)
        && Decisions(rs, lines, i + 1) == before + [AliasDecision(i, layer, l.n, AliasOf(rs, lines, l.n))];
      ReportsOneMore(rs, lines, i, before, AliasDecision(i, layer, l.n, AliasOf(rs, lines, l.n)));
    } else {
      ReportsUnchanged(rs, lines, i, before);
    }
  }

  /** Exactly the changed lines are reported, in order, each with both numbers and its layer. */
  lemma {:induction false} DecisionsAre(rs: seq<ToolResolution>, lines: seq<Line>, i: nat)
    requires i <= |lines|
    ensures Reports(rs, lines, i, Decisions(rs, lines, i))
    decreases i
  {
    hide Decisions, Reports;
    if i == 0 {
      NothingReported(rs, lines);
    } else {
      DecisionsAre(rs, lines, i - 1);
      ReportsStep(rs, lines, i - 1);
    }
  }

  lemma ReportsUnchanged(rs: seq<ToolResolution>, lines: seq<Line>, i: nat, ds: seq<AliasDecision>)
    requires i < |lines| && Reports(rs, lines, i, ds) && Aliased(rs, lines)[i] == lines[i]
    ensures Reports(rs, lines, i + 1, ds)
  {
    hide Decided, MarkerBefore, Aliased;
  }

  lemma LayerAtTool(lines: seq<Line>, i: nat)
    requires 0 < i <= |lines| && !lines[i - 1].Layer?
    ensures MarkerBefore(lines, i - 1, LayerBefore(lines, i))
  {
    LayerBeforeIs(lines, i - 1);
  }

  // ---- what the pass preserves -----------------------------------------------------

  /** The two tool patterns agree where it matters for the planner: a line that makes it
      provide a tool with another alias starts at column 0. */
  predicate RenamesAreSeen(rs: seq<ToolResolution>, lines: seq<Line>) {
    forall i | 0 <= i < |lines| && PlannerTool(lines[i]) && AliasOf(rs, lines, lines[i].n) != lines[i].n ::
      ColumnTool(lines[i])
  }

  /** They agree on all tools that the pass compares. */
  predicate PatternsAgree(rs: seq<ToolResolution>, lines: seq<Line>) {
    forall i | 0 <= i < |lines| && PlannerTool(lines[i]) && HasMeta(rs, lines[i].n) :: ColumnTool(lines[i])
  }

  /** An alias has the material, the colour, and hence the very slot of the original. */
  lemma AliasKeepsTheSlot(rs: seq<ToolResolution>, lines: seq<Line>, n: nat)
    requires Coherent(rs) && n < |rs|
    ensures AliasOf(rs, lines, n) < |rs|
    ensures rs[AliasOf(rs, lines, n)].tool == rs[n].tool
    ensures rs[AliasOf(rs, lines, n)].resolved == rs[n].resolved
  {
  }

  function AliasRequest(rs: seq<ToolResolution>, lines: seq<Line>, r: Option<nat>): Option<nat> {
    match r
    case None => None
    case Some(t) => Some(AliasOf(rs, lines, t))
  }

  /** The planner sees the same requests, each through the static map. */
  lemma AliasedRequests(rs: seq<ToolResolution>, lines: seq<Line>, i: nat)
    requires Coherent(rs) && RenamesAreSeen(rs, lines) && i < |lines|
    ensures Requests(BindingsOf(rs), Aliased(rs, lines))[i]
         == AliasRequest(rs, lines, Requests(BindingsOf(rs), lines)[i])
  {
    hide FirstSeen, AliasOf;
    var l := lines[i];
    if l.Tool? && l.n < |rs| {
      AliasKeepsTheSlot(rs, lines, l.n);
    }
  }

  function AliasHeads(rs: seq<ToolResolution>, lines: seq<Line>, heads: Heads): (r: Heads)
    ensures |r| == |heads|
  {
    seq(|heads|, h requires 0 <= h < |heads| => AliasRequest(rs, lines, heads[h]))
  }

  lemma {:induction false} AliasedLoads(rs: seq<ToolResolution>, lines: seq<Line>, before: Heads, after: Heads)
    requires |before| == |after|
    ensures Loads(AliasHeads(rs, lines, before), AliasHeads(rs, lines, after)) <= Loads(before, after)
    decreases after
  {
    hide AliasOf;
    if after != [] {
      var last := |after| - 1;
      AliasedLoads(rs, lines, before[..last], after[..last]);
      assert AliasHeads(rs, lines, before)[..last] == AliasHeads(rs, lines, before[..last]);
      assert AliasHeads(rs, lines, after)[..last] == AliasHeads(rs, lines, after[..last]);
    }
  }

  function AliasSchedule(rs: seq<ToolResolution>, lines: seq<Line>, s: seq<Heads>): (r: seq<Heads>)
    ensures |r| == |s|
    ensures forall i | 0 <= i < |s| :: |r[i]| == |s[i]|
  {
    seq(|s|, i requires 0 <= i < |s| => AliasHeads(rs, lines, s[i]))
  }

  lemma {:induction false} AliasedCost(rs: seq<ToolResolution>, lines: seq<Line>, s: seq<Heads>, i: nat)
    requires i < |s|
    requires forall j, m | 0 <= j < m < |s| :: |s[j]| == |s[m]|
    ensures CostBefore(AliasSchedule(rs, lines, s), i) <= CostBefore(s, i)
    decreases i
  {
    hide AliasHeads, Loads;
    if i > 0 {
      AliasedCost(rs, lines, s, i - 1);
      AliasedLoads(rs, lines, s[i - 1], s[i]);
    }
  }

  lemma AliasedScheduleServes(rs: seq<ToolResolution>, lines: seq<Line>, s: seq<Heads>, k: nat)
    requires Coherent(rs) && RenamesAreSeen(rs, lines)
    requires IsSchedule(s, Requests(BindingsOf(rs), lines), k)
    ensures IsSchedule(AliasSchedule(rs, lines, s), Requests(BindingsOf(rs), Aliased(rs, lines)), k)
  {
    hide AliasOf, Aliased, Requests;
    var reqs, reqs' := Requests(BindingsOf(rs), lines), Requests(BindingsOf(rs), Aliased(rs, lines));
    forall i | 0 <= i < |reqs'| && reqs'[i].Some?
      ensures reqs'[i] in AliasSchedule(rs, lines, s)[i + 1]
    {
      AliasedRequests(rs, lines, i);
      var h :| 0 <= h < |s[i + 1]| && s[i + 1][h] == reqs[i];
      assert AliasHeads(rs, lines, s[i + 1])[h] == reqs'[i];
    }
  }

  /** Aliasing before planning never adds a swap, if it sees every line of a tool it renames. */
  lemma AliasingNeverAddsSwaps(rs: seq<ToolResolution>, lines: seq<Line>, k: nat)
    requires 0 < k && Coherent(rs) && RenamesAreSeen(rs, lines)
    ensures |Plan(BindingsOf(rs), Aliased(rs, lines), k).swaps| <= |Plan(BindingsOf(rs), lines, k).swaps|
  {
    hide Plan, PlannerSchedule, AliasSchedule, Aliased, Requests;
    var bound := BindingsOf(rs);
    var s := PlannerSchedule(Requests(bound, lines), k);
    PlanIsASchedule(bound, lines, k);
    AliasedScheduleServes(rs, lines, s, k);
    PlanIsMinimal(bound, Aliased(rs, lines), k, AliasSchedule(rs, lines, s));
    AliasedCost(rs, lines, s, |s| - 1);
  }

  /** Five spools for six tools: tool 5 is tool 0 under another number. */
  function SixTools(): (rs: seq<ToolResolution>)
    ensures |rs| == 6
  {
    var bind := (color: string, slot: int) =>
      ToolResolution(ToolMeta("PLA", color), Exact, Some(Candidate(0, slot, slot)), None);
    [bind("red", 0), bind("blue", 1), bind("cyan", 2), bind("pink", 3), bind("gold", 4), bind("red", 0)]
  }

  /** Tool 5 appears first on a line only the aliasing pass reads, because it carries
      arguments; the last line is one only the planner reads, because it is indented. */
  function OddJob(): (lines: seq<Line>)
    ensures |lines| == 6
  {
    [Tool(5, false, true), Tool(1, false, false), Tool(2, false, false), Tool(3, false, false),
     Tool(0, false, false), Tool(0, true, false)]
  }

  lemma FirstOfItsKind(rs: seq<ToolResolution>, lines: seq<Line>, i: nat)
    requires i < |lines| && Considers(rs, lines[i])
    requires forall j | 0 <= j < i && Considers(rs, lines[j]) :: rs[lines[j].n].tool != rs[lines[i].n].tool
    ensures FirstSeen(rs, lines, |lines|, rs[lines[i].n].tool) == Some(lines[i].n)
  {
    NotSeen(rs, lines, i, rs[lines[i].n].tool);
    FirstSeenStays(rs, lines, i + 1, |lines|, rs[lines[i].n].tool);
  }

  lemma {:induction false} NotSeen(rs: seq<ToolResolution>, lines: seq<Line>, i: nat, meta: ToolMeta)
    requires i <= |lines|
    requires forall j | 0 <= j < i && Considers(rs, lines[j]) :: rs[lines[j].n].tool != meta
    ensures FirstSeen(rs, lines, i, meta) == None
    decreases i
  {
    if i > 0 {
      NotSeen(rs, lines, i - 1, meta);
    }
  }

  lemma OddJobAliased()
    ensures Aliased(SixTools(), OddJob())
         == [Tool(5, false, true), Tool(1, false, false), Tool(2, false, false), Tool(3, false, false),
             Tool(5, false, false), Tool(0, true, false)]
    ensures AliasOf(SixTools(), OddJob(), 0) == 5
  {
    hide FirstSeen;
    FirstOfItsKind(SixTools(), OddJob(), 0);
    FirstOfItsKind(SixTools(), OddJob(), 1);
    FirstOfItsKind(SixTools(), OddJob(), 2);
    FirstOfItsKind(SixTools(), OddJob(), 3);
  }

  lemma OddJobRequests()
    ensures Requests(BindingsOf(SixTools()), OddJob()) == [None, Some(1), Some(2), Some(3), Some(0), Some(0)]
    ensures Requests(BindingsOf(SixTools()), Aliased(SixTools(), OddJob()))
         == [None, Some(1), Some(2), Some(3), Some(5), Some(0)]
  {
    hide Aliased, FirstSeen;
    OddJobAliased();
  }

  lemma OddJobTools()
    ensures |AskedFor([None, Some(1), Some(2), Some(3), Some(0), Some(0)])| == 4
    ensures |AskedFor([None, Some(1), Some(2), Some(3), Some(5), Some(0)])| == 5
  {
    hide Tools, AskedFor;
    var before: seq<Option<nat>> := [None, Some(1), Some(2), Some(3), Some(0), Some(0)];
    var after: seq<Option<nat>> := [None, Some(1), Some(2), Some(3), Some(5), Some(0)];
    assert before[1] in before && before[2] in before && before[3] in before && before[4] in before;
    assert AskedFor(before) == {0, 1, 2, 3};
    assert after[1] in after && after[2] in after && after[3] in after && after[4] in after && after[5] in after;
    assert AskedFor(after) == {0, 1, 2, 3, 5};
  }

  /** The agreement is needed: without it, four tools that fitted on
      the four heads become five, and the pass adds a swap. */
  lemma DisagreementCanAddASwap()
    ensures Coherent(SixTools()) && !RenamesAreSeen(SixTools(), OddJob())
    ensures Plan(BindingsOf(SixTools()), OddJob(), HEADS).swaps == []
    ensures Plan(BindingsOf(SixTools()), Aliased(SixTools(), OddJob()), HEADS).swaps != []
  {
    hide Plan, Aliased, Requests, AskedFor, AliasOf;
    var bound := BindingsOf(SixTools());
    OddJobAliased();
    OddJobRequests();
    OddJobTools();
    SwapFreeJobs(bound, OddJob(), HEADS);
    SwapFreeJobs(bound, Aliased(SixTools(), OddJob()), HEADS);
    assert OddJob()[5] == Tool(0, true, false);
  }

  // ---- one head a slot --------------------------------------------------------------

  /** After aliasing, every tool asked for is its own alias. */
  lemma AliasedAreRepresentatives(rs: seq<ToolResolution>, lines: seq<Line>, t: nat)
    requires Coherent(rs) && PatternsAgree(rs, lines)
    requires Some(t) in Requests(BindingsOf(rs), Aliased(rs, lines))
    ensures t < |rs| && FirstSeen(rs, lines, |lines|, rs[t].tool) == Some(t)
  {
    hide FirstSeen;
    var i :| 0 <= i < |lines| && Requests(BindingsOf(rs), Aliased(rs, lines))[i] == Some(t);
    var n := lines[i].n;
    AliasAtLine(rs, lines, i);
    AliasKeepsTheSlot(rs, lines, n);
    FirstSeenIsThere(rs, lines, i);
  }

  lemma FirstSeenIsThere(rs: seq<ToolResolution>, lines: seq<Line>, i: nat)
    requires i < |lines|
    ensures Considers(rs, lines[i]) ==> FirstSeen(rs, lines, |lines|, rs[lines[i].n].tool).Some?
  {
    if Considers(rs, lines[i]) {
      FirstSeenStays(rs, lines, i + 1, |lines|, rs[lines[i].n].tool);
    }
  }

  /** With exact matching and every slot listed once, no two heads of the resulting plan
      ever hold the same (ace, slot). */
  lemma NoSlotOnTwoHeads(tools: seq<ToolMeta>, aces: seq<AceBlock>, lines: seq<Line>, k: nat, i: nat, g: nat, h: nat)
    requires 0 < k && i <= |lines| && g < h < k
    requires SlotsListedOnce(AllBindings(aces))
    requires PatternsAgree(MatchTools(tools, aces, _ => None), lines)
    ensures var rs := MatchTools(tools, aces, _ => None);
            var heads := PlanUpTo(BindingsOf(rs), Aliased(rs, lines), k, i).heads;
            heads[g].Some? && heads[h].Some? ==> !SameSlot(rs, heads[g].value, heads[h].value)
  {
    hide PlanUpTo, PlannerHeads, FirstSeen, MatchTools, SameSlot, Aliased;
    var rs := MatchTools(tools, aces, _ => None);
    var out := Aliased(rs, lines);
    var reqs := Requests(BindingsOf(rs), out);
    var heads := PlannerHeads(reqs, k, i);
    MatchIsCoherent(tools, aces, _ => None);
    PlanIsPaging(BindingsOf(rs), out, k, i);
    PlannerStaysSettled(reqs, k, i);
    if heads[g].Some? && heads[h].Some? {
      var m, n := heads[g].value, heads[h].value;
      assert heads[g] in heads && heads[h] in heads;
      HeldIsRequested(reqs, k, i, m);
      HeldIsRequested(reqs, k, i, n);
      AliasedAreRepresentatives(rs, lines, m);
      AliasedAreRepresentatives(rs, lines, n);
      if SameSlot(rs, m, n) {
        ExactMatchSeparates(tools, aces, m, n);
        SameMeta(tools, aces, m, n);
      }
    }
  }

  lemma SameMeta(tools: seq<ToolMeta>, aces: seq<AceBlock>, m: nat, n: nat)
    requires m < |tools| && n < |tools| && tools[m] == tools[n]
    ensures var rs := MatchTools(tools, aces, _ => None);
            rs[m].tool == rs[n].tool
  {
  }
}
