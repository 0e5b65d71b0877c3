/** `rewrite_gcode`, and what its output does on a machine with physical heads. */
module Rewriter {
  import opened Wrappers
  import opened Gcode
  import opened Paging
  import opened SwapPlanner

  // ---- the machine -------------------------------------------------------------

  datatype Spot = Spot(ace: int, slot: int)

  /** What each physical head has loaded. */
  type Loaded = seq<Option<Spot>>

  /** The heads after some lines, and for every Tn line what the selected head then held. */
  datatype Run = Run(heads: Loaded, seen: seq<Option<Spot>>)

  function Execute(r: Run, l: Line): (after: Run)
    ensures |after.heads| == |r.heads|
  {
    match l
    case Load(h, ace, slot) => if h < |r.heads| then r.(heads := r.heads[h := Some(Spot(ace, slot))]) else r
    case Park(h) => if h < |r.heads| then r.(heads := r.heads[h := None]) else r
    case Tool(n, _, _) => r.(seen := r.seen + [if n < |r.heads| then r.heads[n] else None])
    case _ => r
  }

  function ExecuteAll(r: Run, lines: seq<Line>): (after: Run)
    ensures |after.heads| == |r.heads|
    decreases lines
  {
    if lines == [] then r else Execute(ExecuteAll(r, lines[..|lines| - 1]), lines[|lines| - 1])
  }

  lemma {:induction false} ExecuteConcat(r: Run, a: seq<Line>, b: seq<Line>)
    ensures ExecuteAll(r, a + b) == ExecuteAll(ExecuteAll(r, a), b)
    decreases b
  {
    if b == [] {
      assert a + b == a;
    } else {
      var last := |b| - 1;
      assert (a + b)[..|a| + last] == a + b[..last];
      ExecuteConcat(r, a, b[..last]);
    }
  }

  // ---- the rewriter ------------------------------------------------------------

  /** `swap_by_line`: of several swaps at a line, the last. */
  function SwapFor(swaps: seq<SwapEvent>, i: nat): Option<SwapEvent>
    decreases swaps
  {
    if swaps == [] then None
    else if swaps[|swaps| - 1].line == i then Some(swaps[|swaps| - 1])
    else SwapFor(swaps[..|swaps| - 1], i)
  }

  /** The head a logical tool number is rewritten to. */
  function Physical(rs: seq<ToolResolution>, n: nat): nat {
    if n < |rs| && rs[n].physicalHead.Some? then rs[n].physicalHead.value else n
  }

  /** The first line that looks like the slicer's header, or line 0. */
  function HeaderInsertAt(lines: seq<Line>, i: nat): nat
    requires i <= |lines|
    decreases |lines| - i
  {
    if i == |lines| then 0
    else if lines[i] == Other(true) then i
    else HeaderInsertAt(lines, i + 1)
  }

  function HeaderComments(rs: seq<ToolResolution>): seq<Line> {
    seq(|rs| + 2, _ => Emitted)
  }

  /** The output for one input line. */
  function Chunk(lines: seq<Line>, rs: seq<ToolResolution>, swaps: seq<SwapEvent>, i: nat): seq<Line>
    requires i < |lines|
  {
    var l := lines[i];
    (if i == HeaderInsertAt(lines, 0) + 1 then HeaderComments(rs) else [])
    + (match SwapFor(swaps, i)
       case Some(sw) => [Park(sw.head), Load(sw.head, sw.toAce, sw.toSlot)]
       case None => [])
    + [if PlannerTool(l) then Tool(Physical(rs, l.n), false, false) else l]
  }

  function Rewritten(lines: seq<Line>, rs: seq<ToolResolution>, swaps: seq<SwapEvent>, i: nat): seq<Line>
    requires i <= |lines|
    decreases i
  {
    if i == 0 then [] else Rewritten(lines, rs, swaps, i - 1) + Chunk(lines, rs, swaps, i - 1)
  }

  method FindHeader(lines: seq<Line>) returns (at: nat)
    ensures at == HeaderInsertAt(lines, 0)
  {
    at := 0;
    for i := 0 to |lines|
      invariant at == 0
      invariant HeaderInsertAt(lines, 0) == HeaderInsertAt(lines, i)
    {
      if lines[i] == Other(true) {
        at := i;
        break;
      }
    }
  }

  method SwapsByLine(swaps: seq<SwapEvent>) returns (byLine: map<nat, SwapEvent>)
    ensures forall i :: (if i in byLine then Some(byLine[i]) else None) == SwapFor(swaps, i)
  {
    byLine := map[];
    for j := 0 to |swaps|
      invariant forall i :: (if i in byLine then Some(byLine[i]) else None) == SwapFor(swaps[..j], i)
    {
      assert swaps[..j + 1][..j] == swaps[..j];
      byLine := byLine[swaps[j].line := swaps[j]];
    }
    assert swaps[..|swaps|] == swaps;
  }

  method RewriteGcode(lines: seq<Line>, resolutions: seq<ToolResolution>, swaps: seq<SwapEvent>)
    returns (out: seq<Line>)
    ensures out == Rewritten(lines, resolutions, swaps, |lines|)
  {
    hide SwapFor, HeaderInsertAt;
    var swapByLine := SwapsByLine(swaps);
    var headerInsertAt := FindHeader(lines);
    out := [];
    var headerEmitted := false;
    for lineno := 0 to |lines|
      invariant headerEmitted <==> lineno > headerInsertAt + 1
      invariant out == Rewritten(lines, resolutions, swaps, lineno)
    {
      ghost var before := out;
      if !headerEmitted && lineno == headerInsertAt + 1 {
        out := out + HeaderComments(resolutions);
        headerEmitted := true;
      }
      assert (if lineno in swapByLine then Some(swapByLine[lineno]) else None) == SwapFor(swaps, lineno);
      if lineno in swapByLine {
        var sw := swapByLine[lineno];
        out := out + [Park(sw.head), Load(sw.head, sw.toAce, sw.toSlot)];
      }
      var l := lines[lineno];
      out := out + [if PlannerTool(l) then Tool(Physical(resolutions, l.n), false, false) else l];
      assert out == before + Chunk(lines, resolutions, swaps, lineno);
    }
  }

  // ---- what becomes of the lines ---------------------------------------------------

  /** The kinds of lines that the rewriter puts in. */
  predicate Insertable(l: Line) {
    l.Park? || l.Load? || l.Emitted?
  }

  /** The lines that neither select a tool nor are such. */
  function Ordinary(lines: seq<Line>): seq<Line>
    decreases lines
  {
    if lines == [] then []
    else
      var l := lines[|lines| - 1];
      Ordinary(lines[..|lines| - 1]) + if l.Tool? || Insertable(l) then [] else [l]
  }

  lemma {:induction false} OrdinaryConcat(a: seq<Line>, b: seq<Line>)
    ensures Ordinary(a + b) == Ordinary(a) + Ordinary(b)
    decreases b
  {
    if b == [] {
      assert a + b == a;
    } else {
      assert (a + b)[..|a + b| - 1] == a + b[..|b| - 1];
      OrdinaryConcat(a, b[..|b| - 1]);
    }
  }

  /** What stands in the output before a line's own. */
  function Inserts(lines: seq<Line>, rs: seq<ToolResolution>, swaps: seq<SwapEvent>, i: nat): seq<Line>
    requires i < |lines|
  {
    Chunk(lines, rs, swaps, i)[..|Chunk(lines, rs, swaps, i)| - 1]
  }

  /** Before a line stand the header comments, after the line that looks like the slicer's header, then
      the park and the load of the line's swap, and nothing else; then the line itself, a tool line of
      the planner's with the number of its head. */
  lemma LineInPlace(lines: seq<Line>, rs: seq<ToolResolution>, swaps: seq<SwapEvent>, i: nat)
    requires i < |lines|
    ensures var l, c := lines[i], Chunk(lines, rs, swaps, i);
            && c == Inserts(lines, rs, swaps, i) + [c[|c| - 1]]
            && c[|c| - 1] == (if l.Tool? && !l.args then Tool(Physical(rs, l.n), false, false) else l)
    ensures var swap := SwapFor(swaps, i);
            Inserts(lines, rs, swaps, i)
            == (if i == HeaderInsertAt(lines, 0) + 1 then seq(|rs| + 2, _ => Emitted) else [])
               + (if swap.Some? then [Park(swap.value.head), Load(swap.value.head, swap.value.toAce, swap.value.toSlot)]
                  else [])
    ensures forall l <- Inserts(lines, rs, swaps, i) :: Insertable(l)
  {
    hide SwapFor, HeaderInsertAt;
  }

  lemma {:induction false} HeaderFrom(lines: seq<Line>, i: nat)
    requires i <= |lines|
    ensures var at := HeaderInsertAt(lines, i);
            if forall j | i <= j < |lines| :: lines[j] != Other(true) then at == 0
            else i <= at < |lines| && lines[at] == Other(true) && forall j | i <= j < at :: lines[j] != Other(true)
    decreases |lines| - i
  {
    if i < |lines| && lines[i] != Other(true) {
      HeaderFrom(lines, i + 1);
    }
  }

  /** Where each line of the input stands in the output. */
  function Places(lines: seq<Line>, rs: seq<ToolResolution>, swaps: seq<SwapEvent>, i: nat): (at: seq<nat>)
    requires i <= |lines|
    ensures |at| == i
    decreases i
  {
    if i == 0 then []
    else Places(lines, rs, swaps, i - 1) + [|Rewritten(lines, rs, swaps, i - 1)| + |Inserts(lines, rs, swaps, i - 1)|]
  }

  /** A tool line of the planner's gets the number of its head, any other stays as it is. */
  function Renumbered(rs: seq<ToolResolution>, l: Line): Line {
    if l.Tool? && !l.args then Tool(Physical(rs, l.n), false, false) else l
  }

  /** `out` has exactly the lines `own`, at the ascending places `at`, among parks, loads and comments. */
  predicate Embeds(out: seq<Line>, at: seq<nat>, own: seq<Line>) {
    && |at| == |own|
    && (forall j | 0 <= j < |at| :: at[j] < |out| && out[at[j]] == own[j])
    && (forall j, m | 0 <= j < m < |at| :: at[j] < at[m])
    && (forall x: nat | x < |out| && x !in at :: Insertable(out[x]))
  }

  lemma EmbedsOneMore(out: seq<Line>, at: seq<nat>, own: seq<Line>, ins: seq<Line>, l: Line)
    requires Embeds(out, at, own) && forall x <- ins :: Insertable(x)
    ensures Embeds(out + ins + [l], at + [|out| + |ins|], own + [l])
  {
    hide Insertable;
    var all, places := out + ins + [l], at + [|out| + |ins|];
    assert places[|at|] in places && forall t <- at :: t in places;
    forall x: nat | x < |all| && x !in places
      ensures Insertable(all[x])
    {
      if x >= |out| {
        assert all[x] == ins[x - |out|];
      }
    }
  }

  lemma OneMoreChunk(lines: seq<Line>, rs: seq<ToolResolution>, swaps: seq<SwapEvent>, i: nat)
    requires i < |lines|
    ensures Rewritten(lines, rs, swaps, i + 1)
         == Rewritten(lines, rs, swaps, i) + Inserts(lines, rs, swaps, i) + [Renumbered(rs, lines[i])]
    ensures forall l <- Inserts(lines, rs, swaps, i) :: Insertable(l)
  {
    hide Chunk, Inserts, Insertable, SwapFor, HeaderInsertAt;
    LineInPlace(lines, rs, swaps, i);
  }

  /** Every line of the input is in the output, once and in order, unchanged unless the planner
      reads it; whatever else is there is a park, a load or a comment. */
  lemma {:induction false} EveryLineSurvives(lines: seq<Line>, rs: seq<ToolResolution>, swaps: seq<SwapEvent>, i: nat)
    requires i <= |lines|
    ensures Embeds(Rewritten(lines, rs, swaps, i), Places(lines, rs, swaps, i),
                   seq(i, j requires 0 <= j < i => Renumbered(rs, lines[j])))
    decreases i
  {
    hide Chunk, Inserts, Insertable, Renumbered, Embeds, Rewritten;
    if i == 0 {
      NothingEmbeds(lines, rs, swaps);
    } else {
      EveryLineSurvives(lines, rs, swaps, i - 1);
      OneMoreChunk(lines, rs, swaps, i - 1);
      var own := seq(i - 1, j requires 0 <= j < i - 1 => Renumbered(rs, lines[j]));
      EmbedsOneMore(Rewritten(lines, rs, swaps, i - 1), Places(lines, rs, swaps, i - 1), own,
                    Inserts(lines, rs, swaps, i - 1), Renumbered(rs, lines[i - 1]));
      assert seq(i, j requires 0 <= j < i => Renumbered(rs, lines[j])) == own + [Renumbered(rs, lines[i - 1])];
    }
  }

  lemma NothingEmbeds(lines: seq<Line>, rs: seq<ToolResolution>, swaps: seq<SwapEvent>)
    ensures Embeds(Rewritten(lines, rs, swaps, 0), [], [])
  {
  }

  /** The ordinary lines of the output are those of the input. */
  lemma {:induction false} OrdinaryLinesSurvive(lines: seq<Line>, rs: seq<ToolResolution>, swaps: seq<SwapEvent>,
                                                i: nat)
    requires i <= |lines|
    ensures Ordinary(Rewritten(lines, rs, swaps, i)) == Ordinary(lines[..i])
    decreases i
  {
    hide Chunk, Inserts, Insertable, Renumbered, Rewritten, Ordinary;
    if i == 0 {
      NothingOrdinary(lines, rs, swaps);
    } else {
      OrdinaryLinesSurvive(lines, rs, swaps, i - 1);
      OneMoreChunk(lines, rs, swaps, i - 1);
      var before, ins := Rewritten(lines, rs, swaps, i - 1), Inserts(lines, rs, swaps, i - 1);
      var l := lines[i - 1];
      OrdinaryConcat(before + ins, [Renumbered(rs, l)]);
      OrdinaryConcat(before, ins);
      NoneOrdinary(ins);
      OrdinaryConcat(lines[..i - 1], [l]);
      assert lines[..i] == lines[..i - 1] + [l];
      SameOrdinary(rs, l);
    }
  }

  lemma NothingOrdinary(lines: seq<Line>, rs: seq<ToolResolution>, swaps: seq<SwapEvent>)
    ensures Ordinary(Rewritten(lines, rs, swaps, 0)) == Ordinary(lines[..0])
  {
  }

  lemma SameOrdinary(rs: seq<ToolResolution>, l: Line)
    ensures Ordinary([Renumbered(rs, l)]) == Ordinary([l])
  {
  }

  lemma {:induction false} NoneOrdinary(lines: seq<Line>)
    requires forall l <- lines :: Insertable(l)
    ensures Ordinary(lines) == []
    decreases lines
  {
    if lines != [] {
      assert lines[|lines| - 1] in lines;
      NoneOrdinary(lines[..|lines| - 1]);
    }
  }

  predicate LoadsParked(out: seq<Line>) {
    forall x | 0 <= x < |out| && out[x].Load? :: x > 0 && out[x - 1] == Park(out[x].head)
  }

  lemma LoadsParkedConcat(a: seq<Line>, b: seq<Line>)
    requires LoadsParked(a) && LoadsParked(b)
    ensures LoadsParked(a + b)
  {
    forall x | 0 <= x < |a + b| && (a + b)[x].Load?
      ensures x > 0 && (a + b)[x - 1] == Park((a + b)[x].head)
    {
      if x >= |a| {
        assert b[x - |a|].Load?;
      }
    }
  }

  lemma InsertsParked(lines: seq<Line>, rs: seq<ToolResolution>, swaps: seq<SwapEvent>, i: nat)
    requires i < |lines|
    ensures LoadsParked(Inserts(lines, rs, swaps, i))
  {
    hide Inserts, Chunk, SwapFor, HeaderInsertAt;
    LineInPlace(lines, rs, swaps, i);
  }

  /** In the output every load comes right after the park of its head. */
  lemma {:induction false} LoadsFollowParks(lines: seq<Line>, rs: seq<ToolResolution>, swaps: seq<SwapEvent>, i: nat)
    requires i <= |lines| && NoForeignLoads(lines)
    ensures LoadsParked(Rewritten(lines, rs, swaps, i))
    decreases i
  {
    hide Chunk, Inserts, LoadsParked, Insertable;
    if i == 0 {
      NothingParked(lines, rs, swaps);
    } else {
      LoadsFollowParks(lines, rs, swaps, i - 1);
      OneMoreChunk(lines, rs, swaps, i - 1);
      InsertsParked(lines, rs, swaps, i - 1);
      var before, ins := Rewritten(lines, rs, swaps, i - 1), Inserts(lines, rs, swaps, i - 1);
      LoadsParkedConcat(before, ins);
      OwnLineParked(rs, lines[i - 1]);
      LoadsParkedConcat(before + ins, [Renumbered(rs, lines[i - 1])]);
    }
  }

  lemma NothingParked(lines: seq<Line>, rs: seq<ToolResolution>, swaps: seq<SwapEvent>)
    ensures LoadsParked(Rewritten(lines, rs, swaps, 0))
  {
  }

  lemma OwnLineParked(rs: seq<ToolResolution>, l: Line)
    requires !l.Load?
    ensures LoadsParked([Renumbered(rs, l)])
  {
  }

  /** So a machine that runs it never loads a head that still holds something. */
  lemma NeverLoadsOntoASpool(lines: seq<Line>, rs: seq<ToolResolution>, swaps: seq<SwapEvent>, r: Run, x: nat)
    requires NoForeignLoads(lines)
    requires var out := Rewritten(lines, rs, swaps, |lines|);
             x < |out| && out[x].Load? && out[x].head < |r.heads|
    ensures var out := Rewritten(lines, rs, swaps, |lines|);
            ExecuteAll(r, out[..x]).heads[out[x].head] == None
  {
    hide Rewritten;
    LoadsFollowParks(lines, rs, swaps, |lines|);
    var out := Rewritten(lines, rs, swaps, |lines|);
    assert out[..x][..x - 1] == out[..x - 1] && out[..x][x - 1] == out[x - 1];
  }

  // ---- the plan on the machine ---------------------------------------------------

  function SpotOf(bound: Bindings, content: Option<nat>): Option<Spot> {
    match content
    case Some(t) =>
      if IsResolved(bound, t) then Some(Spot(bound[t].value.ace, bound[t].value.slot)) else None
    case None => None
  }

  /** The machine loaded as the planner believes it to be. */
  function LoadedAs(bound: Bindings, heads: Heads): (r: Loaded)
    ensures |r| == |heads|
  {
    seq(|heads|, h requires 0 <= h < |heads| => SpotOf(bound, heads[h]))
  }

  /** The only load and park lines are those the rewriter adds. */
  predicate NoForeignLoads(lines: seq<Line>) {
    forall i | 0 <= i < |lines| :: !lines[i].Load? && !lines[i].Park?
  }

  /** The swap the plan makes at line `i`, if any. */
  function SwapMade(bound: Bindings, lines: seq<Line>, k: nat, i: nat): Option<SwapEvent>
    requires 0 < k && i < |lines|
  {
    var before, reqs := PlanUpTo(bound, lines, k, i), Requests(bound, lines);
    if Misses(before.heads, reqs[i])
    then Some(SwapAt(bound, before.heads, i, before.layer, Victim(before.heads, reqs, i), reqs[i].value))
    else None
  }

  lemma SwapForSnoc(swaps: seq<SwapEvent>, sw: SwapEvent, i: nat)
    ensures SwapFor(swaps + [sw], i) == if sw.line == i then Some(sw) else SwapFor(swaps, i)
  {
    assert (swaps + [sw])[..|swaps|] == swaps;
  }

  /** In a plan, a line has a swap exactly when it missed, and it is the swap made there. */
  lemma {:induction false} SwapForPlan(bound: Bindings, lines: seq<Line>, k: nat, n: nat, i: nat)
    requires 0 < k && i < |lines| && n <= |lines|
    ensures SwapFor(PlanUpTo(bound, lines, k, n).swaps, i) == if i < n then SwapMade(bound, lines, k, i) else None
    decreases n
  {
    hide SwapMade, PlanLine;
    if n > 0 {
      SwapForPlan(bound, lines, k, n - 1, i);
      SwapAtLine(bound, lines, k, n - 1);
      var made, before := SwapMade(bound, lines, k, n - 1), PlanUpTo(bound, lines, k, n - 1).swaps;
      if made.Some? {
        SwapForSnoc(before, made.value, i);
      } else {
        assert PlanUpTo(bound, lines, k, n).swaps == before;
      }
    }
  }

  lemma SwapAtLine(bound: Bindings, lines: seq<Line>, k: nat, i: nat)
    requires 0 < k && i < |lines|
    ensures var made := SwapMade(bound, lines, k, i);
            && PlanUpTo(bound, lines, k, i + 1).swaps ==
                 PlanUpTo(bound, lines, k, i).swaps + (if made.Some? then [made.value] else [])
            && (made.Some? ==> made.value.line == i && MadeOn(bound, lines, k, i, made.value))
  {
    hide Victim, HeadOf;
  }

  /** The swap loads the requested tool's spool on the victim. */
  predicate MadeOn(bound: Bindings, lines: seq<Line>, k: nat, i: nat, sw: SwapEvent)
    requires 0 < k && i < |lines|
  {
    var heads, reqs := PlanUpTo(bound, lines, k, i).heads, Requests(bound, lines);
    sw.head == Victim(heads, reqs, i) && Some(Spot(sw.toAce, sw.toSlot)) == SpotOf(bound, reqs[i])
  }

  /** What the output for one line does: it brings the machine from the planner's heads
      before the line to its heads after it, and a tool line then selects `Physical`. */
  lemma ChunkRuns(bound: Bindings, lines: seq<Line>, rs: seq<ToolResolution>, k: nat, i: nat, r: Run)
    requires 0 < k && i < |lines| && NoForeignLoads(lines)
    requires r.heads == LoadedAs(bound, PlanUpTo(bound, lines, k, i).heads)
    ensures var after := LoadedAs(bound, PlanUpTo(bound, lines, k, i + 1).heads);
            ExecuteAll(r, Chunk(lines, rs, Plan(bound, lines, k).swaps, i)) ==
              Run(after, r.seen + (if lines[i].Tool? then [SelectedAt(rs, lines, i, after)] else []))
  {
    hide Victim, SwapAt, HeaderInsertAt, SwapFor, PlanUpTo, Chunk;
    var s, reqs := PlanUpTo(bound, lines, k, i), Requests(bound, lines);
    var swaps := Plan(bound, lines, k).swaps;
    SwapForPlan(bound, lines, k, |lines|, i);
    SwapAtLine(bound, lines, k, i);
    HeadsAfter(bound, lines, k, i);
    var after := PlanUpTo(bound, lines, k, i + 1).heads;
    var swapped :=
      if Misses(s.heads, reqs[i]) then r.heads[Victim(s.heads, reqs, i) := SpotOf(bound, reqs[i])] else r.heads;
    assert swapped == LoadedAs(bound, after);
    ChunkParts(lines, rs, swaps, i, r);
  }

  lemma HeadsAfter(bound: Bindings, lines: seq<Line>, k: nat, i: nat)
    requires 0 < k && i < |lines|
    ensures PlanUpTo(bound, lines, k, i + 1).heads
         == Serve(PlanUpTo(bound, lines, k, i).heads, Requests(bound, lines), i)
  {
    PlanLineIsServe(bound, lines, i, PlanUpTo(bound, lines, k, i));
  }

  function SelectedAt(rs: seq<ToolResolution>, lines: seq<Line>, i: nat, heads: Loaded): Option<Spot>
    requires i < |lines| && lines[i].Tool?
  {
    var p := if PlannerTool(lines[i]) then Physical(rs, lines[i].n) else lines[i].n;
    if p < |heads| then heads[p] else None
  }

  lemma ChunkParts(lines: seq<Line>, rs: seq<ToolResolution>, swaps: seq<SwapEvent>, i: nat, r: Run)
    requires i < |lines| && NoForeignLoads(lines)
    requires SwapFor(swaps, i).Some? ==> SwapFor(swaps, i).value.head < |r.heads|
    ensures var heads := match SwapFor(swaps, i)
                         case Some(sw) => r.heads[sw.head := Some(Spot(sw.toAce, sw.toSlot))]
                         case None => r.heads;
            ExecuteAll(r, Chunk(lines, rs, swaps, i)) ==
              Run(heads, r.seen + (if lines[i].Tool? then [SelectedAt(rs, lines, i, heads)] else []))
  {
    hide SwapFor, HeaderInsertAt;
    var header := if i == HeaderInsertAt(lines, 0) + 1 then HeaderComments(rs) else [];
    var swap := match SwapFor(swaps, i)
                case Some(sw) => [Park(sw.head), Load(sw.head, sw.toAce, sw.toSlot)]
                case None => [];
    var l := lines[i];
    var last := if PlannerTool(l) then Tool(Physical(rs, l.n), false, false) else l;
    assert Chunk(lines, rs, swaps, i) == header + swap + [last];
    ExecuteConcat(r, header + swap, [last]);
    ExecuteConcat(r, header, swap);
    CommentsDoNothing(r, |header|);
    assert header == seq(|header|, _ => Emitted);
    SwapRuns(r, swap, SwapFor(swaps, i));
    var mid := ExecuteAll(r, swap);
    assert ExecuteAll(mid, [last]) == Execute(mid, last) by {
      assert [last][..0] == [];
    }
  }

  lemma {:induction false} CommentsDoNothing(r: Run, n: nat)
    ensures ExecuteAll(r, seq(n, _ => Emitted)) == r
    decreases n
  {
    if n > 0 {
      CommentsDoNothing(r, n - 1);
      assert seq(n, _ => Emitted)[..n - 1] == seq(n - 1, _ => Emitted);
    }
  }

  lemma SwapRuns(r: Run, swap: seq<Line>, sw: Option<SwapEvent>)
    requires sw.Some? ==> sw.value.head < |r.heads|
    requires swap == match sw
                     case Some(e) => [Park(e.head), Load(e.head, e.toAce, e.toSlot)]
                     case None => []
    ensures ExecuteAll(r, swap) == match sw
                                   case Some(e) => r.(heads := r.heads[e.head := Some(Spot(e.toAce, e.toSlot))])
                                   case None => r
  {
    if sw.Some? {
      var e := sw.value;
      assert swap[..1] == [Park(e.head)] && swap[..1][..0] == [];
      assert ExecuteAll(r, swap[..1]) == Execute(r, Park(e.head));
      assert r.heads[e.head := None][e.head := Some(Spot(e.toAce, e.toSlot))]
          == r.heads[e.head := Some(Spot(e.toAce, e.toSlot))];
    }
  }

  // ---- whose meaning is kept -------------------------------------------------------

  /** The resolved tool a line names, whichever of the two patterns accepts the line. */
  function Named(bound: Bindings, l: Line): Option<nat> {
    if l.Tool? && IsResolved(bound, l.n) then Some(l.n) else None
  }

  /** What every Tn line of the input stands for: the spot of a resolved tool, and nothing
      for a tool that is bound to none. */
  function Wanted(bound: Bindings, lines: seq<Line>, i: nat): seq<Option<Spot>>
    requires i <= |lines|
    decreases i
  {
    if i == 0 then []
    else
      Wanted(bound, lines, i - 1)
      + (if lines[i - 1].Tool? then [SpotOf(bound, Named(bound, lines[i - 1]))] else [])
  }

  /** Wherever something is wanted, that is what the selected head holds. */
  ghost predicate Delivers(seen: seq<Option<Spot>>, wanted: seq<Option<Spot>>) {
    && |seen| == |wanted|
    && forall j | 0 <= j < |wanted| && wanted[j].Some? :: seen[j] == wanted[j]
  }

  /** The output of planner and rewriter, run from the planner's initial heads. */
  function RunOf(bound: Bindings, lines: seq<Line>, rs: seq<ToolResolution>, k: nat, i: nat): Run
    requires 0 < k && i <= |lines|
  {
    ExecuteAll(Run(LoadedAs(bound, InitialHeads(Requests(bound, lines), k)), []),
               Rewritten(lines, rs, Plan(bound, lines, k).swaps, i))
  }

  lemma {:induction false} MachineFollowsPlan(bound: Bindings, lines: seq<Line>, rs: seq<ToolResolution>,
                                              k: nat, i: nat)
    requires 0 < k && i <= |lines| && NoForeignLoads(lines)
    ensures RunOf(bound, lines, rs, k, i).heads == LoadedAs(bound, PlanUpTo(bound, lines, k, i).heads)
    decreases i
  {
    hide Chunk, ExecuteAll, PlanUpTo, PlanLine, Execute, InitialHeads;
    if i == 0 {
      StartOfPlan(bound, lines, k);
      NothingRuns(Run(LoadedAs(bound, InitialHeads(Requests(bound, lines), k)), []));
    } else {
      MachineFollowsPlan(bound, lines, rs, k, i - 1);
      RunStep(bound, lines, rs, k, i - 1);
    }
  }

  lemma StartOfPlan(bound: Bindings, lines: seq<Line>, k: nat)
    requires 0 < k
    ensures PlanUpTo(bound, lines, k, 0) == PlanState(InitialHeads(Requests(bound, lines), k), map[], 0, [])
  {
  }

  lemma NothingRuns(r: Run)
    ensures ExecuteAll(r, []) == r
  {
  }

  lemma RunStep(bound: Bindings, lines: seq<Line>, rs: seq<ToolResolution>, k: nat, i: nat)
    requires 0 < k && i < |lines| && NoForeignLoads(lines)
    requires RunOf(bound, lines, rs, k, i).heads == LoadedAs(bound, PlanUpTo(bound, lines, k, i).heads)
    ensures var after := LoadedAs(bound, PlanUpTo(bound, lines, k, i + 1).heads);
            RunOf(bound, lines, rs, k, i + 1) ==
              Run(after, RunOf(bound, lines, rs, k, i).seen
                         + (if lines[i].Tool? then [SelectedAt(rs, lines, i, after)] else []))
  {
    hide Chunk, ExecuteAll, PlanUpTo, PlanLine, Execute, InitialHeads;
    var swaps := Plan(bound, lines, k).swaps;
    ExecuteConcat(Run(LoadedAs(bound, InitialHeads(Requests(bound, lines), k)), []),
                  Rewritten(lines, rs, swaps, i), Chunk(lines, rs, swaps, i));
    ChunkRuns(bound, lines, rs, k, i, RunOf(bound, lines, rs, k, i));
  }

  /** The line's resolved tool sits on the head that the line then selects. */
  ghost predicate LineIsRight(bound: Bindings, lines: seq<Line>, rs: seq<ToolResolution>, k: nat, i: nat)
    requires 0 < k && i < |lines|
  {
    var r := Named(bound, lines[i]);
    r.Some? ==>
      SelectedAt(rs, lines, i, LoadedAs(bound, PlanUpTo(bound, lines, k, i + 1).heads)) == SpotOf(bound, r)
  }

  lemma {:induction false} DeliversLineByLine(bound: Bindings, lines: seq<Line>, rs: seq<ToolResolution>,
                                              k: nat, i: nat)
    requires 0 < k && i <= |lines| && NoForeignLoads(lines)
    ensures Delivers(RunOf(bound, lines, rs, k, i).seen, Wanted(bound, lines, i))
       <==> forall j | 0 <= j < i :: LineIsRight(bound, lines, rs, k, j)
    ensures |RunOf(bound, lines, rs, k, i).seen| == |Wanted(bound, lines, i)|
    decreases i
  {
    hide PlanUpTo, RunOf, SelectedAt, LoadedAs, LineIsRight, Delivers;
    if i == 0 {
      NothingSeen(bound, lines, rs, k);
    } else {
      DeliversLineByLine(bound, lines, rs, k, i - 1);
      MachineFollowsPlan(bound, lines, rs, k, i - 1);
      RunStep(bound, lines, rs, k, i - 1);
      if lines[i - 1].Tool? {
        var after := LoadedAs(bound, PlanUpTo(bound, lines, k, i).heads);
        DeliversOneMore(RunOf(bound, lines, rs, k, i - 1).seen, Wanted(bound, lines, i - 1),
                        SelectedAt(rs, lines, i - 1, after), SpotOf(bound, Named(bound, lines[i - 1])));
      } else {
        assert RunOf(bound, lines, rs, k, i).seen == RunOf(bound, lines, rs, k, i - 1).seen;
        assert Wanted(bound, lines, i) == Wanted(bound, lines, i - 1);
      }
      LastLine(bound, lines, rs, k, i);
    }
  }

  lemma LastLine(bound: Bindings, lines: seq<Line>, rs: seq<ToolResolution>, k: nat, i: nat)
    requires 0 < k && 0 < i <= |lines|
    ensures LineIsRight(bound, lines, rs, k, i - 1) <==>
              (lines[i - 1].Tool? ==>
                 var s := SelectedAt(rs, lines, i - 1, LoadedAs(bound, PlanUpTo(bound, lines, k, i).heads));
                 var w := SpotOf(bound, Named(bound, lines[i - 1]));
                 w.Some? ==> s == w)
    ensures (forall j | 0 <= j < i :: LineIsRight(bound, lines, rs, k, j)) <==>
              && (forall j | 0 <= j < i - 1 :: LineIsRight(bound, lines, rs, k, j))
              && LineIsRight(bound, lines, rs, k, i - 1)
  {
    hide PlanUpTo, SelectedAt, LoadedAs;
  }

  lemma NothingSeen(bound: Bindings, lines: seq<Line>, rs: seq<ToolResolution>, k: nat)
    requires 0 < k
    ensures RunOf(bound, lines, rs, k, 0).seen == [] && Delivers([], [])
  {
  }

  lemma DeliversOneMore(seen: seq<Option<Spot>>, wanted: seq<Option<Spot>>, s: Option<Spot>, w: Option<Spot>)
    requires |seen| == |wanted|
    ensures Delivers(seen + [s], wanted + [w]) <==> Delivers(seen, wanted) && (w.Some? ==> s == w)
  {
    if Delivers(seen + [s], wanted + [w]) {
      assert forall j | 0 <= j < |wanted| && wanted[j].Some? ::
          (wanted + [w])[j] == wanted[j] && (seen + [s])[j] == seen[j];
      assert (wanted + [w])[|wanted|] == w && (seen + [s])[|seen|] == s;
    }
  }

  // ---- one home for every tool --------------------------------------------------------

  /** A plan that never moves a tool: every head it is preloaded on and every swap that
      loads it is the head written into its resolution. A caller can read this off the
      planner's output before rewriting. */
  ghost predicate OneHome(bound: Bindings, lines: seq<Line>, k: nat)
    requires 0 < k
  {
    var start, plan := InitialHeads(Requests(bound, lines), k), Plan(bound, lines, k);
    && (forall h | 0 <= h < k && start[h].Some? && start[h].value in plan.homes :: plan.homes[start[h].value] == h)
    && (forall sw | sw in plan.swaps && sw.line < |lines| && lines[sw.line].Tool? && lines[sw.line].n in plan.homes ::
          plan.homes[lines[sw.line].n] == sw.head)
  }

  /** No two tools the job asks for are bound to the same (ace, slot). */
  ghost predicate SpotsDiffer(bound: Bindings, lines: seq<Line>) {
    forall m, n | Some(m) in Requests(bound, lines) && Some(n) in Requests(bound, lines)
                  && SpotOf(bound, Some(m)) == SpotOf(bound, Some(n)) :: m == n
  }

  /** The tool of line `i` is on the head that the final homes name. */
  ghost predicate AtHome(bound: Bindings, lines: seq<Line>, k: nat, i: nat)
    requires 0 < k && i < |lines|
  {
    var r, plan := Request(bound, lines[i]), Plan(bound, lines, k);
    r.Some? ==>
      && r.value in plan.homes
      && plan.homes[r.value] < k
      && PlanUpTo(bound, lines, k, i + 1).heads[plan.homes[r.value]] == r
  }

  /**
   * A tool line with arguments is none to planner and rewriter: it keeps its
   * number, and the machine takes that for a head. So the head of that number
   * must hold the tool's spot by the plan. A caller can read this off the job
   * and the planner's heads.
   */
  ghost predicate ArgsAtHome(bound: Bindings, lines: seq<Line>, k: nat)
    requires 0 < k
  {
    forall i | 0 <= i < |lines| && Named(bound, lines[i]).Some? && lines[i].args ::
      && lines[i].n < k
      && SpotOf(bound, PlanUpTo(bound, lines, k, i).heads[lines[i].n]) == SpotOf(bound, Some(lines[i].n))
  }

  lemma {:induction false} HomesAreHeads(bound: Bindings, lines: seq<Line>, k: nat, i: nat)
    requires 0 < k && i <= |lines|
    ensures forall t | t in PlanUpTo(bound, lines, k, i).homes :: PlanUpTo(bound, lines, k, i).homes[t] < k
    ensures forall j | 0 <= j < i && Request(bound, lines[j]).Some? ::
              Request(bound, lines[j]).value in PlanUpTo(bound, lines, k, i).homes
    decreases i
  {
    hide Victim, SwapAt, HeadOf;
    if i > 0 {
      HomesAreHeads(bound, lines, k, i - 1);
    }
  }

  /** The resolutions as the planner leaves them. */
  ghost predicate AsPlanned(bound: Bindings, lines: seq<Line>, rs: seq<ToolResolution>, k: nat)
    requires 0 < k
  {
    && |rs| == |bound|
    && forall t | t in Plan(bound, lines, k).homes && t < |rs| ::
         rs[t].physicalHead == Some(Plan(bound, lines, k).homes[t])
  }

  lemma RightWhenAtHome(bound: Bindings, lines: seq<Line>, rs: seq<ToolResolution>, k: nat, i: nat)
    requires 0 < k && i < |lines| && AsPlanned(bound, lines, rs, k)
    requires Request(bound, lines[i]).Some?
    ensures AtHome(bound, lines, k, i) ==> LineIsRight(bound, lines, rs, k, i)
    ensures SpotsDiffer(bound, lines) && LineIsRight(bound, lines, rs, k, i) ==> AtHome(bound, lines, k, i)
  {
    hide PlanUpTo;
    HomesAreHeads(bound, lines, k, |lines|);
    var r := Request(bound, lines[i]);
    var heads := PlanUpTo(bound, lines, k, i + 1).heads;
    var p := Plan(bound, lines, k).homes[r.value];
    assert Physical(rs, r.value) == p;
    assert LoadedAs(bound, heads)[p] == SpotOf(bound, heads[p]);
    assert Requests(bound, lines)[i] == r;
    if heads[p].Some? {
      HeldWasAsked(bound, lines, k, i + 1, p);
    }
  }

  /** A tool line with arguments is right exactly when the head of its number has the tool. */
  lemma RightWithArgs(bound: Bindings, lines: seq<Line>, rs: seq<ToolResolution>, k: nat, i: nat)
    requires 0 < k && i < |lines| && Named(bound, lines[i]).Some? && lines[i].args
    ensures LineIsRight(bound, lines, rs, k, i)
       <==> && lines[i].n < k
            && SpotOf(bound, PlanUpTo(bound, lines, k, i).heads[lines[i].n]) == SpotOf(bound, Some(lines[i].n))
  {
    hide PlanUpTo;
    HeadsAfter(bound, lines, k, i);
    assert Requests(bound, lines)[i] == None;
    var heads := PlanUpTo(bound, lines, k, i).heads;
    assert lines[i].n < k ==> LoadedAs(bound, heads)[lines[i].n] == SpotOf(bound, heads[lines[i].n]);
  }

  lemma HeldWasAsked(bound: Bindings, lines: seq<Line>, k: nat, i: nat, h: nat)
    requires 0 < k && i <= |lines| && h < k && PlanUpTo(bound, lines, k, i).heads[h].Some?
    ensures PlanUpTo(bound, lines, k, i).heads[h] in Requests(bound, lines)
  {
    PlanIsPaging(bound, lines, k, i);
    var heads := PlanUpTo(bound, lines, k, i).heads;
    assert heads[h] in heads;
    HeldIsRequested(Requests(bound, lines), k, i, heads[h].value);
  }

  lemma {:induction false} SwapForIsThere(swaps: seq<SwapEvent>, i: nat)
    requires SwapFor(swaps, i).Some?
    ensures SwapFor(swaps, i).value in swaps
    decreases swaps
  {
    if swaps[|swaps| - 1].line != i {
      SwapForIsThere(swaps[..|swaps| - 1], i);
    }
  }

  /** A miss is in the plan's list, with the head it loads. */
  lemma MissIsListed(bound: Bindings, lines: seq<Line>, k: nat, i: nat)
    requires 0 < k && i < |lines|
    requires Misses(PlanUpTo(bound, lines, k, i).heads, Requests(bound, lines)[i])
    ensures exists sw :: sw in Plan(bound, lines, k).swaps && sw.line == i
                         && sw.head == Victim(PlanUpTo(bound, lines, k, i).heads, Requests(bound, lines), i)
  {
    hide PlanUpTo, Victim;
    SwapForPlan(bound, lines, k, |lines|, i);
    SwapAtLine(bound, lines, k, i);
    SwapForIsThere(Plan(bound, lines, k).swaps, i);
  }

  /** And everything in the list is such a miss. */
  lemma {:induction false} ListedIsMiss(bound: Bindings, lines: seq<Line>, k: nat, n: nat, sw: SwapEvent)
    requires 0 < k && n <= |lines| && sw in PlanUpTo(bound, lines, k, n).swaps
    ensures sw.line < n
    ensures Misses(PlanUpTo(bound, lines, k, sw.line).heads, Requests(bound, lines)[sw.line])
    ensures sw.head == Victim(PlanUpTo(bound, lines, k, sw.line).heads, Requests(bound, lines), sw.line)
    decreases n
  {
    hide Victim, SwapAt, HeadOf, PlanLine;
    if n > 0 {
      SwapAtLine(bound, lines, k, n - 1);
      if sw in PlanUpTo(bound, lines, k, n - 1).swaps {
        ListedIsMiss(bound, lines, k, n - 1, sw);
      }
    }
  }

  // ---- what a swap records -----------------------------------------------------------

  lemma {:induction false} ListedIsMade(bound: Bindings, lines: seq<Line>, k: nat, n: nat, sw: SwapEvent)
    requires 0 < k && n <= |lines| && sw in PlanUpTo(bound, lines, k, n).swaps
    ensures sw.line < n && SwapMade(bound, lines, k, sw.line) == Some(sw)
    decreases n
  {
    hide SwapMade, PlanLine, MadeOn;
    if n > 0 {
      SwapAtLine(bound, lines, k, n - 1);
      if sw in PlanUpTo(bound, lines, k, n - 1).swaps {
        ListedIsMade(bound, lines, k, n - 1, sw);
      }
    }
  }

  /** `layer` is the number of the last layer marker before line `i`, and zero before the first one. */
  ghost predicate IsLayerAt(lines: seq<Line>, i: nat, layer: nat)
    requires i <= |lines|
  {
    || (layer == 0 && forall j | 0 <= j < i :: !lines[j].Layer?)
    || (exists j: nat | j < i ::
          lines[j].Layer? && lines[j].n == layer && forall m | j < m < i :: !lines[m].Layer?)
  }

  lemma {:induction false} PlannedLayer(bound: Bindings, lines: seq<Line>, k: nat, i: nat)
    requires 0 < k && i <= |lines|
    ensures IsLayerAt(lines, i, PlanUpTo(bound, lines, k, i).layer)
    decreases i
  {
    hide Victim, Serve, HeadOf, SwapAt;
    if i > 0 {
      PlannedLayer(bound, lines, k, i - 1);
    }
  }

  /** A recorded swap tells the truth: the line and layer it happens in, what its head had loaded
      before, zeros standing for an empty head, and what the head has loaded after. */
  lemma SwapTellsTheTruth(bound: Bindings, lines: seq<Line>, k: nat, sw: SwapEvent)
    requires 0 < k && sw in Plan(bound, lines, k).swaps
    ensures sw.line < |lines| && sw.head < k && Request(bound, lines[sw.line]).Some?
    ensures IsLayerAt(lines, sw.line, sw.layer)
    ensures var before := LoadedAs(bound, PlanUpTo(bound, lines, k, sw.line).heads)[sw.head];
            if before.Some? then before.value == Spot(sw.fromAce, sw.fromSlot) else sw.fromAce == sw.fromSlot == 0
    ensures var after := LoadedAs(bound, PlanUpTo(bound, lines, k, sw.line + 1).heads)[sw.head];
            after == Some(Spot(sw.toAce, sw.toSlot))
  {
    hide PlanUpTo, Victim, IsLayerAt;
    ListedIsMade(bound, lines, k, |lines|, sw);
    PlannedLayer(bound, lines, k, sw.line);
    HeadsAfter(bound, lines, k, sw.line);
  }

  ghost predicate HeadsAreHomes(bound: Bindings, lines: seq<Line>, k: nat, i: nat)
    requires 0 < k && i <= |lines|
  {
    var heads, homes := PlanUpTo(bound, lines, k, i).heads, Plan(bound, lines, k).homes;
    forall h | 0 <= h < k && heads[h].Some? && heads[h].value in homes :: homes[heads[h].value] == h
  }

  lemma {:induction false} OneHomeThroughout(bound: Bindings, lines: seq<Line>, k: nat, i: nat)
    requires 0 < k && i <= |lines| && OneHome(bound, lines, k)
    ensures HeadsAreHomes(bound, lines, k, i)
    decreases i
  {
    hide Victim, PlanUpTo, Plan, InitialHeads;
    if i == 0 {
      StartOfPlan(bound, lines, k);
    } else {
      OneHomeThroughout(bound, lines, k, i - 1);
      HeadsAfter(bound, lines, k, i - 1);
      if Misses(PlanUpTo(bound, lines, k, i - 1).heads, Requests(bound, lines)[i - 1]) {
        MissIsListed(bound, lines, k, i - 1);
      }
    }
  }

  /** After serving a request, the tool is on some head. */
  lemma Served(bound: Bindings, lines: seq<Line>, k: nat, i: nat) returns (h: nat)
    requires 0 < k && i < |lines| && Request(bound, lines[i]).Some?
    ensures h < k && PlanUpTo(bound, lines, k, i + 1).heads[h] == Request(bound, lines[i])
  {
    hide Victim, PlanUpTo;
    HeadsAfter(bound, lines, k, i);
    var heads, reqs := PlanUpTo(bound, lines, k, i).heads, Requests(bound, lines);
    if Misses(heads, reqs[i]) {
      h := Victim(heads, reqs, i);
    } else {
      h :| 0 <= h < k && heads[h] == reqs[i];
    }
  }

  lemma OneHomeServes(bound: Bindings, lines: seq<Line>, k: nat, i: nat)
    requires 0 < k && i < |lines| && OneHome(bound, lines, k)
    ensures AtHome(bound, lines, k, i)
  {
    hide PlanUpTo, Plan, InitialHeads, OneHome;
    if Request(bound, lines[i]).Some? {
      var h := Served(bound, lines, k, i);
      OneHomeThroughout(bound, lines, k, i + 1);
      HomesOfPlan(bound, lines, k, i);
    }
  }

  lemma HomesOfPlan(bound: Bindings, lines: seq<Line>, k: nat, i: nat)
    requires 0 < k && i < |lines| && Request(bound, lines[i]).Some?
    ensures var homes := Plan(bound, lines, k).homes;
            Request(bound, lines[i]).value in homes && homes[Request(bound, lines[i]).value] < k
  {
    hide PlanUpTo;
    HomesAreHeads(bound, lines, k, |lines|);
  }

  /** Nothing is evicted before all preloaded tools have been used. */
  lemma {:induction false} StartLasts(reqs: seq<Option<nat>>, k: nat, i: nat, t: nat)
    requires 0 < k && Some(t) in InitialHeads(reqs, k) && i <= NextUse(reqs, 0, t)
    ensures PlannerHeads(reqs, k, i) == InitialHeads(reqs, k)
    decreases i
  {
    hide InitialHeads, FirstTools;
    if i > 0 {
      StartLasts(reqs, k, i - 1, t);
      FirstToolsAre(reqs, k, |reqs|);
      InitialHeadsAre(reqs, k);
      var start := InitialHeads(reqs, k);
      assert t in Tools(start);
      assert reqs[i - 1].Some? ==> reqs[i - 1].value in Tools(start);
    }
  }

  /** A preloaded tool is on its head when it is first used. */
  lemma PreloadedIsUsedThere(bound: Bindings, lines: seq<Line>, k: nat, h: nat) returns (i: nat)
    requires 0 < k && h < k && InitialHeads(Requests(bound, lines), k)[h].Some?
    ensures i < |lines| && Request(bound, lines[i]) == InitialHeads(Requests(bound, lines), k)[h]
    ensures PlanUpTo(bound, lines, k, i + 1).heads[h] == Request(bound, lines[i])
  {
    hide InitialHeads, Tools, NextUse, FirstTools, PlanUpTo;
    var reqs := Requests(bound, lines);
    var start := InitialHeads(reqs, k);
    var t := start[h].value;
    assert start[h] in start;
    InitialHeadsAre(reqs, k);
    FirstToolsAre(reqs, k, |reqs|);
    assert t in Tools(start);
    i := NextUse(reqs, 0, t);
    StartLasts(reqs, k, i, t);
    PlanIsPaging(bound, lines, k, i);
    HeadsAfter(bound, lines, k, i);
  }

  lemma SameHead(bound: Bindings, lines: seq<Line>, k: nat, i: nat, g: nat, h: nat)
    requires 0 < k && i <= |lines| && g < k && h < k
    requires var heads := PlanUpTo(bound, lines, k, i).heads; heads[g].Some? && heads[g] == heads[h]
    ensures g == h
  {
    hide PlanUpTo;
    PlanIsPaging(bound, lines, k, i);
    PlannerStaysSettled(Requests(bound, lines), k, i);
  }

  lemma ServedMeansOneHome(bound: Bindings, lines: seq<Line>, k: nat)
    requires 0 < k && forall i | 0 <= i < |lines| :: AtHome(bound, lines, k, i)
    ensures OneHome(bound, lines, k)
  {
    hide PlanUpTo, InitialHeads, Victim, Serve;
    var start, plan := InitialHeads(Requests(bound, lines), k), Plan(bound, lines, k);
    forall h | 0 <= h < k && start[h].Some? && start[h].value in plan.homes
      ensures plan.homes[start[h].value] == h
    {
      var i := PreloadedIsUsedThere(bound, lines, k, h);
      assert AtHome(bound, lines, k, i);
      SameHead(bound, lines, k, i + 1, h, plan.homes[start[h].value]);
    }
    forall sw | sw in plan.swaps && sw.line < |lines| && lines[sw.line].Tool? && lines[sw.line].n in plan.homes
      ensures plan.homes[lines[sw.line].n] == sw.head
    {
      ListedIsMiss(bound, lines, k, |lines|, sw);
      MissLoads(bound, lines, k, sw.line);
      assert AtHome(bound, lines, k, sw.line);
      SameHead(bound, lines, k, sw.line + 1, sw.head, plan.homes[lines[sw.line].n]);
    }
  }

  lemma MissLoads(bound: Bindings, lines: seq<Line>, k: nat, i: nat)
    requires 0 < k && i < |lines|
    requires Misses(PlanUpTo(bound, lines, k, i).heads, Requests(bound, lines)[i])
    ensures var v := Victim(PlanUpTo(bound, lines, k, i).heads, Requests(bound, lines), i);
            PlanUpTo(bound, lines, k, i + 1).heads[v] == Request(bound, lines[i])
  {
    hide Victim, PlanUpTo;
    HeadsAfter(bound, lines, k, i);
  }

  /** Planner and rewriter together keep the job's meaning, for all jobs whose plan houses
      every tool on one head and whose tool lines with arguments happen to name it: every Tn
      line of a resolved tool selects a head that then holds that tool's spool. */
  lemma RewriteIsFaithful(bound: Bindings, lines: seq<Line>, rs: seq<ToolResolution>, k: nat)
    requires 0 < k && NoForeignLoads(lines) && AsPlanned(bound, lines, rs, k)
    requires OneHome(bound, lines, k) && ArgsAtHome(bound, lines, k)
    ensures Delivers(RunOf(bound, lines, rs, k, |lines|).seen, Wanted(bound, lines, |lines|))
  {
    hide RunOf, Delivers, AsPlanned, OneHome, AtHome, Wanted, PlanUpTo;
    forall i | 0 <= i < |lines|
      ensures LineIsRight(bound, lines, rs, k, i)
    {
      if Request(bound, lines[i]).Some? {
        OneHomeServes(bound, lines, k, i);
        RightWhenAtHome(bound, lines, rs, k, i);
      } else if Named(bound, lines[i]).Some? {
        RightWithArgs(bound, lines, rs, k, i);
      }
    }
    DeliversLineByLine(bound, lines, rs, k, |lines|);
  }

  /** And only for those: as soon as a plan moves a tool, the single head written into its
      resolution sends some line to a head that holds another spool, and so does a tool line
      with arguments whose number is not that of a head with its tool. */
  lemma RewriteIsFaithfulIff(bound: Bindings, lines: seq<Line>, rs: seq<ToolResolution>, k: nat)
    requires 0 < k && NoForeignLoads(lines) && AsPlanned(bound, lines, rs, k)
    requires SpotsDiffer(bound, lines)
    ensures Delivers(RunOf(bound, lines, rs, k, |lines|).seen, Wanted(bound, lines, |lines|))
       <==> OneHome(bound, lines, k) && ArgsAtHome(bound, lines, k)
  {
    hide RunOf, Delivers, AsPlanned, OneHome, AtHome, LineIsRight, Wanted, SpotsDiffer, PlanUpTo;
    if OneHome(bound, lines, k) && ArgsAtHome(bound, lines, k) {
      RewriteIsFaithful(bound, lines, rs, k);
    }
    DeliversLineByLine(bound, lines, rs, k, |lines|);
    if Delivers(RunOf(bound, lines, rs, k, |lines|).seen, Wanted(bound, lines, |lines|)) {
      forall i | 0 <= i < |lines|
        ensures AtHome(bound, lines, k, i)
      {
        if Request(bound, lines[i]).Some? {
          RightWhenAtHome(bound, lines, rs, k, i);
        } else {
          NotAsked(bound, lines, k, i);
        }
      }
      ServedMeansOneHome(bound, lines, k);
      forall i | 0 <= i < |lines| && Named(bound, lines[i]).Some? && lines[i].args
        ensures lines[i].n < k
        ensures SpotOf(bound, PlanUpTo(bound, lines, k, i).heads[lines[i].n]) == SpotOf(bound, Some(lines[i].n))
      {
        RightWithArgs(bound, lines, rs, k, i);
      }
    }
  }

  lemma NotAsked(bound: Bindings, lines: seq<Line>, k: nat, i: nat)
    requires 0 < k && i < |lines| && Request(bound, lines[i]).None?
    ensures AtHome(bound, lines, k, i)
  {
    hide PlanUpTo;
  }

  // ---- after the last move ---------------------------------------------------------------

  /** From line `i` on, tool `t` stays on head `h` until it is evicted for good. */
  ghost predicate StaysOn(s: PlanState, t: nat, h: nat) {
    && t in s.homes && s.homes[t] == h
    && (Some(t) in s.heads ==> h < |s.heads| && s.heads[h] == Some(t))
  }

  lemma {:induction false} NoMoreMoves(bound: Bindings, lines: seq<Line>, k: nat, i: nat, n: nat, t: nat, h: nat)
    requires 0 < k && i < n <= |lines| && h < k
    requires Request(bound, lines[i]) == Some(t) && PlanUpTo(bound, lines, k, i + 1).heads[h] == Some(t)
    requires forall sw | sw in Plan(bound, lines, k).swaps && i < sw.line < |lines| && lines[sw.line].Tool? ::
               lines[sw.line].n != t
    ensures StaysOn(PlanUpTo(bound, lines, k, n), t, h)
    decreases n
  {
    hide PlanUpTo, Victim, PlanLine, StaysOn, Plan;
    var j := n - 1;
    var s := PlanUpTo(bound, lines, k, j);
    PlanIsPaging(bound, lines, k, j);
    PlannerStaysSettled(Requests(bound, lines), k, j);
    PlanUnrolled(bound, lines, k, j);
    if j == i {
      StaysFromHere(bound, lines, i, s, t, h);
    } else {
      NoMoreMoves(bound, lines, k, i, j, t, h);
      if Misses(s.heads, Requests(bound, lines)[j]) {
        MissIsListed(bound, lines, k, j);
      }
      StaysOneMore(bound, lines, j, s, t, h);
    }
  }

  lemma PlanUnrolled(bound: Bindings, lines: seq<Line>, k: nat, i: nat)
    requires 0 < k && i < |lines|
    ensures PlanUpTo(bound, lines, k, i + 1) == PlanLine(bound, lines, i, PlanUpTo(bound, lines, k, i))
  {
  }

  lemma StaysFromHere(bound: Bindings, lines: seq<Line>, i: nat, s: PlanState, t: nat, h: nat)
    requires i < |lines| && 0 < |s.heads| && NoToolTwice(s.heads) && h < |s.heads|
    requires Request(bound, lines[i]) == Some(t) && PlanLine(bound, lines, i, s).heads[h] == Some(t)
    ensures StaysOn(PlanLine(bound, lines, i, s), t, h)
  {
    hide Victim, SwapAt, HeadOf;
    if Some(t) in s.heads {
      HeadOfIsUnique(s.heads, h);
    } else {
      assert s.heads[h] in s.heads;
    }
  }

  lemma StaysOneMore(bound: Bindings, lines: seq<Line>, j: nat, s: PlanState, t: nat, h: nat)
    requires j < |lines| && 0 < |s.heads| && NoToolTwice(s.heads) && StaysOn(s, t, h)
    requires Misses(s.heads, Requests(bound, lines)[j]) ==> Requests(bound, lines)[j] != Some(t)
    ensures StaysOn(PlanLine(bound, lines, j, s), t, h)
  {
    hide Victim, SwapAt, HeadOf;
    if Some(t) in s.heads {
      HeadOfIsUnique(s.heads, h);
    }
  }

  /** Even when tools move, every line that the planner reads is right from its tool's last
      assignment on: it is enough that no later swap loads the tool again. */
  lemma RightAfterLastAssignment(bound: Bindings, lines: seq<Line>, rs: seq<ToolResolution>, k: nat, i: nat)
    requires 0 < k && i < |lines| && AsPlanned(bound, lines, rs, k)
    requires Request(bound, lines[i]).Some?
    requires forall sw | sw in Plan(bound, lines, k).swaps && i < sw.line < |lines| && lines[sw.line].Tool? ::
               lines[sw.line].n != Request(bound, lines[i]).value
    ensures LineIsRight(bound, lines, rs, k, i)
  {
    hide PlanUpTo, LineIsRight, AsPlanned;
    var t := Request(bound, lines[i]).value;
    var h := Served(bound, lines, k, i);
    NoMoreMoves(bound, lines, k, i, |lines|, t, h);
    RightWhenAtHome(bound, lines, rs, k, i);
  }

  /** The two methods in sequence satisfy what the theorems above ask of the resolutions. */
  lemma PlannedResolutions(original: seq<ToolResolution>, lines: seq<Line>)
    ensures var bound := BindingsOf(original);
            AsPlanned(bound, lines, Housed(original, Plan(bound, lines, HEADS).homes), HEADS)
    ensures BindingsOf(Housed(original, Plan(BindingsOf(original), lines, HEADS).homes)) == BindingsOf(original)
  {
    hide Plan;
  }

  // ---- a job that moves a tool ------------------------------------------------------------

  /** Five tools on four heads: tool 0 gives way to tool 4 on head 0, and comes back on
      head 1. */
  function MovingJob(): (lines: seq<Line>)
    ensures |lines| == 12
  {
    var t := (n: nat) => Tool(n, false, false);
    [t(0), t(1), t(2), t(3), t(4), t(1), t(2), t(3), t(0), t(4), t(2), t(3)]
  }

  function FiveSpools(): (bound: Bindings)
    ensures |bound| == 5
  {
    seq(5, t => Some(Candidate(0, t, t)))
  }

  lemma MovingRequests()
    ensures Requests(FiveSpools(), MovingJob())
         == [Some(0), Some(1), Some(2), Some(3), Some(4), Some(1), Some(2), Some(3), Some(0), Some(4), Some(2), Some(3)]
  {
  }

  /** Where a tool is used next, from two facts that are easy to see. */
  lemma UsedNext(reqs: seq<Option<nat>>, i: nat, t: nat, n: nat)
    requires i <= n <= |reqs| && (n < |reqs| ==> reqs[n] == Some(t))
    requires forall j | i <= j < n :: reqs[j] != Some(t)
    ensures NextUse(reqs, i, t) == n
  {
  }

  lemma HitStays(reqs: seq<Option<nat>>, k: nat, i: nat, heads: Heads, h: nat)
    requires 0 < k && i < |reqs| && PlannerHeads(reqs, k, i) == heads
    requires h < |heads| && reqs[i] == heads[h]
    ensures PlannerHeads(reqs, k, i + 1) == heads
  {
    hide Victim;
  }

  lemma MissMoves(reqs: seq<Option<nat>>, k: nat, i: nat, heads: Heads, v: nat)
    requires 0 < k && i < |reqs| && PlannerHeads(reqs, k, i) == heads
    requires v < |heads| && Misses(heads, reqs[i]) && Victim(heads, reqs, i) == v
    ensures PlannerHeads(reqs, k, i + 1) == heads[v := reqs[i]]
  {
    hide Victim;
  }

  lemma MovingHeads()
    ensures var reqs := Requests(FiveSpools(), MovingJob());
            && PlannerHeads(reqs, HEADS, 8) == [Some(4), Some(1), Some(2), Some(3)]
            && PlannerHeads(reqs, HEADS, 9) == [Some(4), Some(0), Some(2), Some(3)]
  {
    hide NextUse, Requests, InitialHeads, PlannerHeads, Victim;
    MovingRequests();
    MovingStart();
    var reqs := Requests(FiveSpools(), MovingJob());
    var start: Heads := [Some(0), Some(1), Some(2), Some(3)];
    var moved: Heads := [Some(4), Some(1), Some(2), Some(3)];
    StartHeads(reqs, HEADS);
    HitStays(reqs, HEADS, 0, start, 0);
    HitStays(reqs, HEADS, 1, start, 1);
    HitStays(reqs, HEADS, 2, start, 2);
    HitStays(reqs, HEADS, 3, start, 3);
    VictimOfSwap();
    MissMoves(reqs, HEADS, 4, start, 0);
    HitStays(reqs, HEADS, 5, moved, 1);
    HitStays(reqs, HEADS, 6, moved, 2);
    HitStays(reqs, HEADS, 7, moved, 3);
    VictimOfMove();
    MissMoves(reqs, HEADS, 8, moved, 1);
  }

  lemma StartHeads(reqs: seq<Option<nat>>, k: nat)
    requires 0 < k
    ensures PlannerHeads(reqs, k, 0) == InitialHeads(reqs, k)
  {
  }

  lemma VictimOfSwap()
    ensures Victim([Some(0), Some(1), Some(2), Some(3)], Requests(FiveSpools(), MovingJob()), 4) == 0
  {
    hide NextUse, Requests, Victim;
    MovingRequests();
    var reqs := Requests(FiveSpools(), MovingJob());
    UsedNext(reqs, 5, 0, 8);
    UsedNext(reqs, 5, 1, 5);
    UsedNext(reqs, 5, 2, 6);
    UsedNext(reqs, 5, 3, 7);
    VictimIsUnique([Some(0), Some(1), Some(2), Some(3)], reqs, 4, 0);
  }

  lemma MovingStart()
    ensures InitialHeads(Requests(FiveSpools(), MovingJob()), HEADS) == [Some(0), Some(1), Some(2), Some(3)]
  {
    hide Requests;
    MovingRequests();
    var reqs := Requests(FiveSpools(), MovingJob());
    assert FirstTools(reqs, HEADS, 1) == [0];
    assert FirstTools(reqs, HEADS, 2) == [0, 1];
    assert FirstTools(reqs, HEADS, 3) == [0, 1, 2];
    assert FirstTools(reqs, HEADS, 4) == [0, 1, 2, 3];
    assert FirstTools(reqs, HEADS, 6) == [0, 1, 2, 3];
    assert FirstTools(reqs, HEADS, 8) == [0, 1, 2, 3];
    assert FirstTools(reqs, HEADS, 10) == [0, 1, 2, 3];
    assert FirstTools(reqs, HEADS, 12) == [0, 1, 2, 3];
  }

  /** So the condition of the theorem above is not always met: this job, planned and
      rewritten, sends its first T0 to head 1, which then holds tool 1's spool. */
  lemma AMovedToolIsMisrouted(rs: seq<ToolResolution>)
    requires AsPlanned(FiveSpools(), MovingJob(), rs, HEADS)
    ensures !Delivers(RunOf(FiveSpools(), MovingJob(), rs, HEADS, 12).seen, Wanted(FiveSpools(), MovingJob(), 12))
  {
    hide PlanUpTo, RunOf, Wanted, AsPlanned, Delivers, InitialHeads, PlannerHeads, NextUse, Victim;
    var bound, lines := FiveSpools(), MovingJob();
    MovingHeads();
    MovingStart();
    MovingRequests();
    MovingSpotsDiffer();
    PlanIsPaging(bound, lines, HEADS, 8);
    MissIsListed(bound, lines, HEADS, 8);
    VictimOfMove();
    RewriteIsFaithfulIff(bound, lines, rs, HEADS);
    HomesOfPlan(bound, lines, HEADS, 0);
  }

  lemma VictimOfMove()
    ensures Victim([Some(4), Some(1), Some(2), Some(3)], Requests(FiveSpools(), MovingJob()), 8) == 1
  {
    hide NextUse, Requests, Victim;
    MovingRequests();
    var reqs := Requests(FiveSpools(), MovingJob());
    UsedNext(reqs, 9, 4, 9);
    UsedNext(reqs, 9, 1, 12);
    UsedNext(reqs, 9, 2, 10);
    UsedNext(reqs, 9, 3, 11);
    VictimIsUnique([Some(4), Some(1), Some(2), Some(3)], reqs, 8, 1);
  }

  lemma MovingSpotsDiffer()
    ensures SpotsDiffer(FiveSpools(), MovingJob()) && NoForeignLoads(MovingJob())
  {
  }

  // ---- a job with arguments ---------------------------------------------------------------

  /** One line, `T5 F300`, and six spools. */
  const ARGS_JOB := [Tool(5, false, true)]

  function SixSpools(): (bound: Bindings)
    ensures |bound| == 6
  {
    seq(6, t => Some(Candidate(0, t, t)))
  }

  /** Nothing moves in it, and yet the line selects a head that is not there. */
  lemma ArgumentsAreMisrouted(rs: seq<ToolResolution>)
    requires AsPlanned(SixSpools(), ARGS_JOB, rs, HEADS)
    ensures OneHome(SixSpools(), ARGS_JOB, HEADS) && SpotsDiffer(SixSpools(), ARGS_JOB) && NoForeignLoads(ARGS_JOB)
    ensures !Delivers(RunOf(SixSpools(), ARGS_JOB, rs, HEADS, 1).seen, Wanted(SixSpools(), ARGS_JOB, 1))
  {
    hide PlanUpTo, RunOf, Wanted, AsPlanned, Delivers, InitialHeads, AtHome;
    var bound := SixSpools();
    assert Request(bound, ARGS_JOB[0]) == None;
    NotAsked(bound, ARGS_JOB, HEADS, 0);
    assert forall i | 0 <= i < |ARGS_JOB| :: AtHome(bound, ARGS_JOB, HEADS, i);
    ServedMeansOneHome(bound, ARGS_JOB, HEADS);
    assert Requests(bound, ARGS_JOB) == [None];
    RewriteIsFaithfulIff(bound, ARGS_JOB, rs, HEADS);
    assert Named(bound, ARGS_JOB[0]) == Some(5);
  }
}
