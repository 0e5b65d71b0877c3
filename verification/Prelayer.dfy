/** `prelayer_reload`: loading a layer's tools at its start. */
module Prelayer {
  import opened Wrappers
  import opened Gcode
  import opened Rewriter

  const MAX_TOOLS: nat := 4

  /** `_LAYER_RE_OPTIM` */
  predicate Marker(l: Line) {
    l.Layer? && l.canonical
  }

  /** `_LOAD_HEAD_RE_OPTIM`, whose numbers have no sign. */
  predicate LoadSeen(l: Line) {
    l.Load? && l.ace >= 0 && l.slot >= 0
  }

  /** The lines of a layer: everything up to the next marker. */
  function Block(s: seq<Line>): (b: seq<Line>)
    ensures |b| <= |s| && b == s[..|b|]
    decreases s
  {
    if s == [] || Marker(s[0]) then [] else [s[0]] + Block(s[1..])
  }

  /** The different resolved tools of a layer, in order of first use. */
  function LayerTools(bound: Bindings, block: seq<Line>): (r: seq<nat>)
    ensures forall t | t in r :: IsResolved(bound, t)
    decreases block
  {
    if block == [] then []
    else
      var l := block[|block| - 1];
      var before := LayerTools(bound, block[..|block| - 1]);
      if ColumnTool(l) && IsResolved(bound, l.n) && l.n !in before then before + [l.n] else before
  }

  /** The load line that puts tool `t` on head `h`. */
  function LoadLine(bound: Bindings, h: nat, t: nat): Line
    requires IsResolved(bound, t)
  {
    Load(h, bound[t].value.ace, bound[t].value.slot)
  }

  /** The loads a layer lacks, for the tools from the `h`-th on. */
  function Missing(bound: Bindings, tools: seq<nat>, block: seq<Line>, h: nat): (r: seq<Line>)
    requires h <= |tools| && forall t | t in tools :: IsResolved(bound, t)
    ensures forall l | l in r :: l.Load?
    decreases |tools| - h
  {
    if h == |tools| then []
    else
      var l := LoadLine(bound, h, tools[h]);
      (if l in block && LoadSeen(l) then [] else [l]) + Missing(bound, tools, block, h + 1)
  }

  function Preloads(bound: Bindings, block: seq<Line>): (r: seq<Line>)
    ensures forall l | l in r :: l.Load?
  {
    var tools := LayerTools(bound, block);
    if |tools| > MAX_TOOLS then [] else Missing(bound, tools, block, 0)
  }

  /** What comes right after a line in the output, given the lines that follow it. */
  function Inserted(bound: Bindings, l: Line, rest: seq<Line>): (r: seq<Line>)
    ensures forall x | x in r :: x.Load?
  {
    if Marker(l) then Preloads(bound, Block(rest)) else []
  }

  /** The output, woven front to back, layer by layer. */
  function Weave(bound: Bindings, s: seq<Line>): seq<Line>
    decreases s
  {
    if s == [] then [] else [s[0]] + Inserted(bound, s[0], s[1..]) + Weave(bound, s[1..])
  }

  datatype LayerDecision = LayerDecision(layer: nat, tools: seq<nat>, preloads: seq<Line>, skipped: bool)

  function Decide(bound: Bindings, layer: nat, block: seq<Line>): LayerDecision {
    var tools := LayerTools(bound, block);
    LayerDecision(layer, tools, Preloads(bound, block), |tools| > MAX_TOOLS)
  }

  function Decisions(bound: Bindings, s: seq<Line>): seq<LayerDecision>
    decreases s
  {
    if s == [] then []
    else if Marker(s[0]) then [Decide(bound, s[0].n, Block(s[1..]))] + Decisions(bound, s[1..])
    else Decisions(bound, s[1..])
  }

  // ---- the method ------------------------------------------------------------------

  datatype LayerAt = LayerAt(marker: nat, layer: nat)

  function LayersFrom(lines: seq<Line>, i: nat): seq<LayerAt>
    requires i <= |lines|
    decreases |lines| - i
  {
    if i == |lines| then []
    else if Marker(lines[i]) then [LayerAt(i, lines[i].n)] + LayersFrom(lines, i + 1)
    else LayersFrom(lines, i + 1)
  }

  method FindLayers(lines: seq<Line>) returns (layers: seq<LayerAt>)
    ensures layers == LayersFrom(lines, 0)
  {
    layers := [];
    for i := 0 to |lines|
      invariant layers + LayersFrom(lines, i) == LayersFrom(lines, 0)
    {
      if Marker(lines[i]) {
        layers := layers + [LayerAt(i, lines[i].n)];
      }
    }
  }

  method ScanTools(bound: Bindings, block: seq<Line>) returns (distinct: seq<nat>)
    ensures distinct == LayerTools(bound, block)
  {
    distinct := [];
    for j := 0 to |block|
      invariant distinct == LayerTools(bound, block[..j])
    {
      assert block[..j + 1][..j] == block[..j];
      if ColumnTool(block[j]) && block[j].n !in distinct && IsResolved(bound, block[j].n) {
        distinct := distinct + [block[j].n];
      }
    }
    assert block[..|block|] == block;
  }

  method ScanLoads(block: seq<Line>) returns (alreadyLoaded: set<Line>)
    ensures forall l :: l in alreadyLoaded <==> l in block && LoadSeen(l)
  {
    alreadyLoaded := {};
    for j := 0 to |block|
      invariant forall l :: l in alreadyLoaded <==> l in block[..j] && LoadSeen(l)
    {
      assert block[..j + 1] == block[..j] + [block[j]];
      if LoadSeen(block[j]) {
        alreadyLoaded := alreadyLoaded + {block[j]};
      }
    }
    assert block[..|block|] == block;
  }

  method AssignHeads(bound: Bindings, distinct: seq<nat>, block: seq<Line>) returns (preloads: seq<Line>)
    requires forall t | t in distinct :: IsResolved(bound, t)
    ensures preloads == Missing(bound, distinct, block, 0)
  {
    hide LoadLine, LoadSeen, Missing;
    var alreadyLoaded := ScanLoads(block);
    preloads := [];
    for headIdx := 0 to |distinct|
      invariant preloads + Missing(bound, distinct, block, headIdx) == Missing(bound, distinct, block, 0)
    {
      MissingStep(bound, distinct, block, headIdx);
      var l := LoadLine(bound, headIdx, distinct[headIdx]);
      if l !in alreadyLoaded {
        Regroup(preloads, l, Missing(bound, distinct, block, headIdx + 1));
        preloads := preloads + [l];
      }
    }
    MissingNone(bound, distinct, block);
  }

  lemma Regroup<T>(a: seq<T>, x: T, b: seq<T>)
    ensures a + ([x] + b) == (a + [x]) + b
  {
  }

  datatype Insert = Insert(at: nat, newLines: seq<Line>)

  /** The splices the method collects for a list of layers. */
  function InsertsFor(bound: Bindings, lines: seq<Line>, layers: seq<LayerAt>): seq<Insert>
    requires forall l | l in layers :: l.marker < |lines|
    decreases layers
  {
    if layers == [] then []
    else
      var block := Block(lines[layers[0].marker + 1..]);
      var tools := LayerTools(bound, block);
      var rest := InsertsFor(bound, lines, layers[1..]);
      if tools == [] || |tools| > MAX_TOOLS then rest
      else [Insert(layers[0].marker + 1, Preloads(bound, block))] + rest
  }

  function DecisionsFor(bound: Bindings, lines: seq<Line>, layers: seq<LayerAt>): seq<LayerDecision>
    requires forall l | l in layers :: l.marker < |lines|
    decreases layers
  {
    if layers == [] then []
    else
      [Decide(bound, layers[0].layer, Block(lines[layers[0].marker + 1..]))] + DecisionsFor(bound, lines, layers[1..])
  }

  lemma {:induction false} LayersAre(lines: seq<Line>, i: nat)
    requires i <= |lines|
    ensures var layers := LayersFrom(lines, i);
            && (forall l | l in layers :: i <= l.marker < |lines| && Marker(lines[l.marker]))
            && (forall g, h | 0 <= g < h < |layers| :: layers[g].marker < layers[h].marker)
            && (forall m | i <= m < |lines| && Marker(lines[m]) :: LayerAt(m, lines[m].n) in layers)
    decreases |lines| - i
  {
    if i < |lines| {
      LayersAre(lines, i + 1);
    }
  }

  lemma {:induction false} BlockEnds(lines: seq<Line>, a: nat, e: nat)
    requires a <= e <= |lines| && (e == |lines| || Marker(lines[e]))
    requires forall j | a <= j < e :: !Marker(lines[j])
    ensures Block(lines[a..]) == lines[a..e]
    decreases e - a
  {
    if a < e {
      BlockEnds(lines, a + 1, e);
      assert lines[a..][1..] == lines[a + 1..];
      assert lines[a..e] == [lines[a]] + lines[a + 1..e];
    }
  }

  /** A layer reaches up to the next one. */
  lemma LayerReaches(lines: seq<Line>, i: nat)
    requires i < |LayersFrom(lines, 0)|
    ensures var layers := LayersFrom(lines, 0);
            var m, e := layers[i].marker, if i + 1 < |layers| then layers[i + 1].marker else |lines|;
            m < e <= |lines| && Block(lines[m + 1..]) == lines[m + 1..e]
  {
    LayersAre(lines, 0);
    var layers := LayersFrom(lines, 0);
    var m, e := layers[i].marker, if i + 1 < |layers| then layers[i + 1].marker else |lines|;
    assert layers[i] in layers;
    if i + 1 < |layers| {
      assert layers[i + 1] in layers;
    }
    forall j | m < j < |lines| && Marker(lines[j])
      ensures j >= e
    {
      var h :| 0 <= h < |layers| && layers[h] == LayerAt(j, lines[j].n);
      assert h > i;
    }
    BlockEnds(lines, m + 1, e);
  }

  /** One turn of the layer loop. */
  method PlanLayer(bound: Bindings, lines: seq<Line>, marker: nat, endIdx: nat, layer: nat)
    returns (decision: LayerDecision, insert: seq<Insert>)
    requires marker < endIdx <= |lines| && Block(lines[marker + 1..]) == lines[marker + 1..endIdx]
    ensures decision == Decide(bound, layer, Block(lines[marker + 1..]))
    ensures InsertsFor(bound, lines, [LayerAt(marker, layer)]) == insert
  {
    var block := lines[marker + 1..endIdx];
    var distinct := ScanTools(bound, block);
    assert [LayerAt(marker, layer)][1..] == [];
    if distinct == [] {
      return LayerDecision(layer, [], [], false), [];
    }
    if |distinct| > MAX_TOOLS {
      return LayerDecision(layer, distinct, [], true), [];
    }
    var preloads := AssignHeads(bound, distinct, block);
    return LayerDecision(layer, distinct, preloads, false), [Insert(marker + 1, preloads)];
  }

  method PrelayerReload(lines: seq<Line>, resolutions: seq<ToolResolution>)
    returns (outLines: seq<Line>, decisions: seq<LayerDecision>)
    ensures outLines == Weave(BindingsOf(resolutions), lines)
    ensures decisions == Decisions(BindingsOf(resolutions), lines)
  {
    hide Decide, Preloads, LayerTools, Block, Weave, Decisions, LayersFrom, InsertsFor, DecisionsFor;
    var bound := BindingsOf(resolutions);
    var layers := FindLayers(lines);
    LayersAre(lines, 0);
    var inserts: seq<Insert> := [];
    decisions := [];
    ForNoLayers(bound, lines);
    for i := 0 to |layers|
      invariant inserts == InsertsFor(bound, lines, layers[..i])
      invariant decisions == DecisionsFor(bound, lines, layers[..i])
    {
      LayerReaches(lines, i);
      assert layers[i] in layers;
      var endIdx := if i + 1 < |layers| then layers[i + 1].marker else |lines|;
      var decision, insert := PlanLayer(bound, lines, layers[i].marker, endIdx, layers[i].layer);
      OneMoreLayer(bound, lines, layers[..i], layers[i]);
      assert layers[..i + 1] == layers[..i] + [layers[i]];
      inserts := inserts + insert;
      decisions := decisions + [decision];
    }
    assert layers[..|layers|] == layers;
    DecisionsAgree(bound, lines, 0);
    assert lines[0..] == lines;
    CollectedInserts(bound, lines, 0);
    InsertsInRange(bound, lines, inserts, 0);
    SpliceIsWeave(bound, lines, inserts, 0);
    outLines := Splice(lines, inserts);
    assert lines[..0] == [];
  }

  lemma ForNoLayers(bound: Bindings, lines: seq<Line>)
    ensures InsertsFor(bound, lines, []) == [] && DecisionsFor(bound, lines, []) == []
  {
  }

  lemma {:induction false} OneMoreLayer(bound: Bindings, lines: seq<Line>, layers: seq<LayerAt>, l: LayerAt)
    requires (forall x | x in layers :: x.marker < |lines|) && l.marker < |lines|
    ensures InsertsFor(bound, lines, layers + [l])
         == InsertsFor(bound, lines, layers) + InsertsFor(bound, lines, [LayerAt(l.marker, l.layer)])
    ensures DecisionsFor(bound, lines, layers + [l])
         == DecisionsFor(bound, lines, layers) + [Decide(bound, l.layer, Block(lines[l.marker + 1..]))]
    decreases layers
  {
    hide Decide, Preloads, LayerTools, Block;
    if layers == [] {
      assert layers + [l] == [l];
      assert [l][1..] == [];
    } else {
      assert (layers + [l])[1..] == layers[1..] + [l];
      OneMoreLayer(bound, lines, layers[1..], l);
    }
  }

  lemma {:induction false} DecisionsAgree(bound: Bindings, lines: seq<Line>, i: nat)
    requires i <= |lines|
    ensures forall l | l in LayersFrom(lines, i) :: l.marker < |lines|
    ensures DecisionsFor(bound, lines, LayersFrom(lines, i)) == Decisions(bound, lines[i..])
    decreases |lines| - i
  {
    hide Decide, Block;
    LayersAre(lines, i);
    if i < |lines| {
      DecisionsAgree(bound, lines, i + 1);
      assert lines[i..][1..] == lines[i + 1..];
      if Marker(lines[i]) {
        var layers := LayersFrom(lines, i);
        assert layers[1..] == LayersFrom(lines, i + 1);
      }
    }
  }

  // ---- splicing back to front -----------------------------------------------------------

  /** The splices from line `i` on are right: in order, one for every line after which the
      weave inserts something. */
  ghost predicate InsertsFrom(bound: Bindings, lines: seq<Line>, inserts: seq<Insert>, i: nat)
    requires i <= |lines|
    decreases |lines| - i
  {
    if i == |lines| then inserts == []
    else
      var ins := Inserted(bound, lines[i], lines[i + 1..]);
      (ins == [] && InsertsFrom(bound, lines, inserts, i + 1))
      || (inserts != [] && inserts[0] == Insert(i + 1, ins) && InsertsFrom(bound, lines, inserts[1..], i + 1))
  }

  lemma {:induction false} CollectedInserts(bound: Bindings, lines: seq<Line>, i: nat)
    requires i <= |lines|
    ensures forall l | l in LayersFrom(lines, i) :: l.marker < |lines|
    ensures InsertsFrom(bound, lines, InsertsFor(bound, lines, LayersFrom(lines, i)), i)
    decreases |lines| - i
  {
    hide InsertsFor, InsertsFrom;
    LayersAre(lines, i);
    if i == |lines| {
      NoInserts(bound, lines);
    } else {
      CollectedInserts(bound, lines, i + 1);
      if Marker(lines[i]) {
        MarkerInsert(bound, lines, i, LayersFrom(lines, i + 1));
      } else {
        OtherInsert(bound, lines, i, InsertsFor(bound, lines, LayersFrom(lines, i + 1)));
      }
    }
  }

  lemma NoInserts(bound: Bindings, lines: seq<Line>)
    ensures InsertsFrom(bound, lines, InsertsFor(bound, lines, []), |lines|)
  {
  }

  lemma OtherInsert(bound: Bindings, lines: seq<Line>, i: nat, inserts: seq<Insert>)
    requires i < |lines| && !Marker(lines[i]) && InsertsFrom(bound, lines, inserts, i + 1)
    ensures InsertsFrom(bound, lines, inserts, i)
  {
  }

  lemma MarkerInsert(bound: Bindings, lines: seq<Line>, i: nat, layers: seq<LayerAt>)
    requires i < |lines| && Marker(lines[i]) && forall l | l in layers :: l.marker < |lines|
    requires InsertsFrom(bound, lines, InsertsFor(bound, lines, layers), i + 1)
    ensures forall l | l in [LayerAt(i, lines[i].n)] + layers :: l.marker < |lines|
    ensures InsertsFrom(bound, lines, InsertsFor(bound, lines, [LayerAt(i, lines[i].n)] + layers), i)
  {
    hide LayerTools, Block, Missing;
    var all, rest := [LayerAt(i, lines[i].n)] + layers, InsertsFor(bound, lines, layers);
    assert all[1..] == layers && all[0] == LayerAt(i, lines[i].n);
    var block := Block(lines[i + 1..]);
    var tools := LayerTools(bound, block);
    if tools == [] || |tools| > MAX_TOOLS {
      NoToolsNoLoads(bound, block);
    } else {
      assert ([Insert(i + 1, Preloads(bound, block))] + rest)[1..] == rest;
    }
  }

  lemma NoToolsNoLoads(bound: Bindings, block: seq<Line>)
    ensures LayerTools(bound, block) == [] ==> Preloads(bound, block) == []
  {
  }

  predicate InRange(inserts: seq<Insert>, n: nat) {
    forall i | 0 <= i < |inserts| :: inserts[i].at <= n
  }

  /** All splices, the last one first. */
  function SpliceAll(lines: seq<Line>, inserts: seq<Insert>): (r: seq<Line>)
    requires InRange(inserts, |lines|)
    ensures |r| >= |lines|
    decreases inserts
  {
    if inserts == [] then lines
    else
      var r := SpliceAll(lines, inserts[1..]);
      r[..inserts[0].at] + inserts[0].newLines + r[inserts[0].at..]
  }

  method Splice(lines: seq<Line>, inserts: seq<Insert>) returns (outLines: seq<Line>)
    requires InRange(inserts, |lines|)
    ensures outLines == SpliceAll(lines, inserts)
  {
    outLines := lines;
    var j: nat := |inserts|;
    while j > 0
      invariant j <= |inserts|
      invariant outLines == SpliceAll(lines, inserts[j..])
      decreases j
    {
      j := j - 1;
      assert inserts[j..][1..] == inserts[j + 1..];
      outLines := outLines[..inserts[j].at] + inserts[j].newLines + outLines[inserts[j].at..];
    }
    assert inserts[0..] == inserts;
  }

  lemma {:induction false} InsertsInRange(bound: Bindings, lines: seq<Line>, inserts: seq<Insert>, i: nat)
    requires i <= |lines| && InsertsFrom(bound, lines, inserts, i)
    ensures InRange(inserts, |lines|)
    decreases |lines| - i
  {
    hide Inserted;
    if i < |lines| {
      var ins := Inserted(bound, lines[i], lines[i + 1..]);
      if ins == [] && InsertsFrom(bound, lines, inserts, i + 1) {
        InsertsInRange(bound, lines, inserts, i + 1);
      } else {
        InsertsInRange(bound, lines, inserts[1..], i + 1);
        assert inserts == [inserts[0]] + inserts[1..];
      }
    }
  }

  /** Splicing back to front, as the source does, gives the weave made front to back. */
  lemma {:induction false} SpliceIsWeave(bound: Bindings, lines: seq<Line>, inserts: seq<Insert>, i: nat)
    requires i <= |lines| && InsertsFrom(bound, lines, inserts, i) && InRange(inserts, |lines|)
    ensures SpliceAll(lines, inserts) == lines[..i] + Weave(bound, lines[i..])
    decreases |lines| - i
  {
    hide Inserted, Weave;
    if i == |lines| {
      assert lines[i..] == [];
      WeaveNothing(bound);
    } else {
      var ins := Inserted(bound, lines[i], lines[i + 1..]);
      WeaveOne(bound, lines, i);
      SplitAt(lines, i);
      if ins == [] && InsertsFrom(bound, lines, inserts, i + 1) {
        SpliceIsWeave(bound, lines, inserts, i + 1);
        Regroup3(lines[..i], lines[i], [], Weave(bound, lines[i + 1..]));
      } else {
        InsertsInRange(bound, lines, inserts[1..], i + 1);
        SpliceIsWeave(bound, lines, inserts[1..], i + 1);
        CutAt(lines[..i + 1], Weave(bound, lines[i + 1..]), ins);
        Regroup3(lines[..i], lines[i], ins, Weave(bound, lines[i + 1..]));
      }
    }
  }

  lemma SplitAt(lines: seq<Line>, i: nat)
    requires i < |lines|
    ensures lines[..i + 1] == lines[..i] + [lines[i]]
  {
  }

  lemma CutAt(a: seq<Line>, b: seq<Line>, ins: seq<Line>)
    ensures (a + b)[..|a|] + ins + (a + b)[|a|..] == a + ins + b
  {
    assert (a + b)[..|a|] == a && (a + b)[|a|..] == b;
  }

  lemma Regroup3(a: seq<Line>, x: Line, ins: seq<Line>, b: seq<Line>)
    ensures (a + [x]) + ins + b == a + ([x] + ins + b)
    ensures ins == [] ==> (a + [x]) + b == a + ([x] + ins + b)
  {
  }

  lemma WeaveOne(bound: Bindings, lines: seq<Line>, i: nat)
    requires i < |lines|
    ensures Weave(bound, lines[i..])
         == [lines[i]] + Inserted(bound, lines[i], lines[i + 1..]) + Weave(bound, lines[i + 1..])
  {
    assert lines[i..][1..] == lines[i + 1..];
  }

  // ---- what the output is worth --------------------------------------------------------

  /** Taking out, after every layer marker, as many lines as the decisions say were put in. */
  function Unweave(out: seq<Line>, decisions: seq<LayerDecision>): seq<Line>
    decreases |out|
  {
    if out == [] then []
    else if Marker(out[0]) && decisions != [] && |decisions[0].preloads| < |out| then
      [out[0]] + Unweave(out[1 + |decisions[0].preloads|..], decisions[1..])
    else [out[0]] + Unweave(out[1..], decisions)
  }

  /** Removing the inserted lines gives the original back. */
  lemma {:induction false} UnweaveWeave(bound: Bindings, s: seq<Line>)
    ensures Unweave(Weave(bound, s), Decisions(bound, s)) == s
    decreases s
  {
    hide Preloads, Block, LayerTools, Weave;
    WeaveNothing(bound);
    if s != [] {
      UnweaveWeave(bound, s[1..]);
      WeaveParts(bound, s);
      if Marker(s[0]) {
        assert Decisions(bound, s)[1..] == Decisions(bound, s[1..]);
      }
      assert s == [s[0]] + s[1..];
    }
  }

  /** A layer as its marker's number and its lines. */
  datatype LayerBlock = LayerBlock(layer: nat, block: seq<Line>)

  function Layers(s: seq<Line>): seq<LayerBlock>
    decreases s
  {
    if s == [] then []
    else if Marker(s[0]) then [LayerBlock(s[0].n, Block(s[1..]))] + Layers(s[1..])
    else Layers(s[1..])
  }

  function Preloaded(bound: Bindings, layers: seq<LayerBlock>): seq<LayerBlock>
    decreases layers
  {
    if layers == [] then []
    else
      [LayerBlock(layers[0].layer, Preloads(bound, layers[0].block) + layers[0].block)]
      + Preloaded(bound, layers[1..])
  }

  lemma {:induction false} BlockAfterLoads(ins: seq<Line>, s: seq<Line>)
    requires forall l | l in ins :: l.Load?
    ensures Block(ins + s) == ins + Block(s)
    ensures Layers(ins + s) == Layers(s)
    decreases ins
  {
    if ins == [] {
      assert ins + s == s && ins + Block(s) == Block(s);
    } else {
      assert ins[0] in ins;
      assert (ins + s)[1..] == ins[1..] + s;
      BlockAfterLoads(ins[1..], s);
    }
  }

  lemma {:induction false} BlockOfWeave(bound: Bindings, s: seq<Line>)
    ensures Block(Weave(bound, s)) == Block(s)
    decreases s
  {
    if s != [] {
      BlockOfWeave(bound, s[1..]);
      WeaveParts(bound, s);
    }
  }

  lemma WeaveNothing(bound: Bindings)
    ensures Weave(bound, []) == []
  {
  }

  lemma WeaveParts(bound: Bindings, s: seq<Line>)
    requires s != []
    ensures var ins, out := Inserted(bound, s[0], s[1..]), Weave(bound, s);
            && out != [] && out[0] == s[0]
            && out[1..] == ins + Weave(bound, s[1..])
            && |ins| < |out| && out[1 + |ins|..] == Weave(bound, s[1..])
            && (!Marker(s[0]) ==> ins == [] && out[1..] == Weave(bound, s[1..]))
  {
    var ins, rest := Inserted(bound, s[0], s[1..]), Weave(bound, s[1..]);
    assert Marker(s[0]) || ins == [];
    hide Inserted, Marker;
    ConsParts(s[0], ins, rest);
  }

  lemma ConsParts<T>(x: T, a: seq<T>, b: seq<T>)
    ensures var out := [x] + a + b;
            out[0] == x && out[1..] == a + b && out[1 + |a|..] == b && (a == [] ==> out[1..] == b)
  {
  }

  /** The output has the layers of the input, each with its missing loads in front. */
  lemma {:induction false} LayersOfWeave(bound: Bindings, s: seq<Line>)
    ensures Layers(Weave(bound, s)) == Preloaded(bound, Layers(s))
    decreases s
  {
    hide Preloads, Block, Weave;
    WeaveNothing(bound);
    if s != [] {
      LayersOfWeave(bound, s[1..]);
      var ins, rest := Inserted(bound, s[0], s[1..]), Weave(bound, s[1..]);
      BlockAfterLoads(ins, rest);
      BlockOfWeave(bound, s[1..]);
      WeaveParts(bound, s);
      if Marker(s[0]) {
        assert Layers(s)[1..] == Layers(s[1..]);
      }
    }
  }

  lemma LayerToolsOfLast(bound: Bindings, block: seq<Line>, l: Line)
    ensures var before := LayerTools(bound, block);
            LayerTools(bound, block + [l])
            == if ColumnTool(l) && IsResolved(bound, l.n) && l.n !in before then before + [l.n] else before
  {
    assert (block + [l])[..|block|] == block;
  }

  lemma {:induction false} LayerToolsOfConcat(bound: Bindings, ins: seq<Line>, block: seq<Line>)
    requires forall l | l in ins :: l.Load?
    ensures LayerTools(bound, ins + block) == LayerTools(bound, block)
    decreases |ins| + |block|
  {
    hide LayerTools;
    if block != [] {
      var rest, l := block[..|block| - 1], block[|block| - 1];
      assert ins + block == (ins + rest) + [l] && block == rest + [l];
      LayerToolsOfConcat(bound, ins, rest);
      LayerToolsOfLast(bound, ins + rest, l);
      LayerToolsOfLast(bound, rest, l);
    } else if ins != [] {
      var rest, l := ins[..|ins| - 1], ins[|ins| - 1];
      assert l in ins && ins + block == rest + [l] && rest + [] == rest;
      LayerToolsOfConcat(bound, rest, []);
      LayerToolsOfLast(bound, rest, l);
    } else {
      assert ins + block == [];
    }
  }

  /** A layer's lines reach up to the next marker. */
  lemma {:induction false} BlockIs(s: seq<Line>)
    ensures var n := |Block(s)|;
            && (forall i | 0 <= i < n :: !(s[i].Layer? && s[i].canonical))
            && (n < |s| ==> s[n].Layer? && s[n].canonical)
    decreases s
  {
    if s != [] && !Marker(s[0]) {
      BlockIs(s[1..]);
    }
  }

  /** Column-0 lines of a tool, among the first `i` lines. */
  predicate UsedBefore(block: seq<Line>, i: nat, t: nat)
    requires i <= |block|
  {
    exists j: nat :: j < i && block[j].Tool? && !block[j].indented && block[j].n == t
  }

  /** A layer's tools come in the order of their first use: when the one is first used, a later one is not used yet. */
  lemma {:induction false} LayerToolsInOrder(bound: Bindings, block: seq<Line>, g: nat, h: nat)
    requires g < h < |LayerTools(bound, block)|
    ensures var tools := LayerTools(bound, block);
            exists i: nat :: i <= |block| && UsedBefore(block, i, tools[g]) && !UsedBefore(block, i, tools[h])
    decreases block
  {
    assert block != [];
    hide UsedBefore, LayerTools;
    var init, l := block[..|block| - 1], block[|block| - 1];
    assert block == init + [l];
    var before, tools := LayerTools(bound, init), LayerTools(bound, block);
    LayerToolsOfLast(bound, init, l);
    if h < |before| {
      LayerToolsInOrder(bound, init, g, h);
      var i: nat :| i <= |init| && UsedBefore(init, i, before[g]) && !UsedBefore(init, i, before[h]);
      UsedInPrefix(init, l, i, before[g]);
      UsedInPrefix(init, l, i, before[h]);
      assert tools[g] == before[g] && tools[h] == before[h];
      assert i <= |block| && UsedBefore(block, i, tools[g]) && !UsedBefore(block, i, tools[h]);
    } else {
      LayerToolsAre(bound, init);
      assert before[g] in before && tools[h] == l.n && l.n !in before && IsResolved(bound, l.n);
      UsedThere(init, before[g]);
      UsedThere(init, l.n);
      UsedInPrefix(init, l, |init|, before[g]);
      UsedInPrefix(init, l, |init|, l.n);
    }
  }

  lemma UsedInPrefix(init: seq<Line>, l: Line, i: nat, t: nat)
    requires i <= |init|
    ensures UsedBefore(init + [l], i, t) == UsedBefore(init, i, t)
  {
    assert forall j: nat | j < i :: (init + [l])[j] == init[j];
  }

  lemma UsedThere(block: seq<Line>, t: nat)
    ensures UsedBefore(block, |block|, t) <==> exists l :: l in block && ColumnTool(l) && l.n == t
  {
  }

  lemma MissingStep(bound: Bindings, tools: seq<nat>, block: seq<Line>, h: nat)
    requires h < |tools| && forall t | t in tools :: IsResolved(bound, t)
    ensures var l, rest := LoadLine(bound, h, tools[h]), Missing(bound, tools, block, h + 1);
            Missing(bound, tools, block, h) == if l in block && LoadSeen(l) then rest else [l] + rest
  {
    hide LoadLine, LoadSeen;
    var l, rest := LoadLine(bound, h, tools[h]), Missing(bound, tools, block, h + 1);
    assert Missing(bound, tools, block, h) == (if l in block && LoadSeen(l) then [] else [l]) + rest;
    hide Missing;
    assert [] + rest == rest;
  }

  /** With the missing loads put in, every tool has its load. */
  lemma {:induction false} MissingFills(bound: Bindings, tools: seq<nat>, block: seq<Line>, h: nat, g: nat)
    requires h <= g < |tools| && forall t | t in tools :: IsResolved(bound, t)
    ensures LoadLine(bound, g, tools[g]) in Missing(bound, tools, block, h)
            || LoadLine(bound, g, tools[g]) in block
    decreases g - h
  {
    hide LoadLine, LoadSeen, Missing;
    MissingStep(bound, tools, block, h);
    if h < g {
      MissingFills(bound, tools, block, h + 1, g);
    }
  }

  /**
   * What is put in front of a layer: nothing if it has more than four tools,
   * and else the load of its `h`-th tool on head `h`, for every `h` for which
   * the layer has no such line with unsigned numbers itself, in head order.
   */
  lemma PreloadsAre(bound: Bindings, block: seq<Line>)
    ensures |LayerTools(bound, block)| > 4 ==> Preloads(bound, block) == []
    ensures |LayerTools(bound, block)| <= 4 ==> forall l ::
              l in Preloads(bound, block) <==> exists h: nat :: IsPreload(bound, block, h, l)
    ensures HeadsAscend(Preloads(bound, block), 0, 4)
  {
    hide LayerTools, Missing, LoadLine, LoadSeen;
    var tools := LayerTools(bound, block);
    if |tools| <= 4 {
      MissingAre(bound, tools, block, 0);
      forall l
        ensures l in Preloads(bound, block) <==> exists h: nat :: IsPreload(bound, block, h, l)
      {
        if l in Preloads(bound, block) {
          var h: nat :| h < |tools| && l == LoadLine(bound, h, tools[h]) && !(l in block && LoadSeen(l));
          PreloadIs(bound, block, h, l);
        }
        if h: nat :| IsPreload(bound, block, h, l) {
          PreloadIs(bound, block, h, l);
        }
      }
    }
  }

  /** The load of a layer's `h`-th tool, which the layer does not have. */
  predicate IsPreload(bound: Bindings, block: seq<Line>, h: nat, l: Line) {
    var tools := LayerTools(bound, block);
    && h < |tools| && tools[h] < |bound| && bound[tools[h]].Some?
    && l == Load(h, bound[tools[h]].value.ace, bound[tools[h]].value.slot)
    && (l in block ==> l.ace < 0 || l.slot < 0)
  }

  lemma PreloadIs(bound: Bindings, block: seq<Line>, h: nat, l: Line)
    ensures var tools := LayerTools(bound, block);
            IsPreload(bound, block, h, l)
            <==> h < |tools| && tools[h] in tools && l == LoadLine(bound, h, tools[h]) && !(l in block && LoadSeen(l))
  {
    hide LayerTools;
    var tools := LayerTools(bound, block);
    assert h < |tools| ==> tools[h] in tools;
  }

  lemma {:induction false} MissingAre(bound: Bindings, tools: seq<nat>, block: seq<Line>, h: nat)
    requires h <= |tools| && forall t | t in tools :: IsResolved(bound, t)
    ensures var r := Missing(bound, tools, block, h);
            && (forall l :: l in r <==>
                  exists g: nat ::
                    h <= g < |tools| && l == LoadLine(bound, g, tools[g]) && !(l in block && LoadSeen(l)))
            && HeadsAscend(r, h, |tools|)
    decreases |tools| - h
  {
    hide LoadSeen, Missing;
    if h < |tools| {
      MissingAre(bound, tools, block, h + 1);
      MissingStep(bound, tools, block, h);
      var l := LoadLine(bound, h, tools[h]);
      assert l.head == h;
    } else {
      MissingNone(bound, tools, block);
    }
  }

  predicate HeadsAscend(loads: seq<Line>, lo: nat, hi: nat) {
    && (forall x | 0 <= x < |loads| :: loads[x].Load? && lo <= loads[x].head < hi)
    && (forall x, y | 0 <= x < y < |loads| :: loads[x].head < loads[y].head)
  }

  lemma MissingNone(bound: Bindings, tools: seq<nat>, block: seq<Line>)
    requires forall t | t in tools :: IsResolved(bound, t)
    ensures Missing(bound, tools, block, |tools|) == []
  {
  }

  /** The decisions report the layers in order: number, tools, what is put in front, and whether there are too many. */
  lemma {:induction false} DecisionsAre(bound: Bindings, s: seq<Line>)
    ensures |Decisions(bound, s)| == |Layers(s)|
    ensures forall i | 0 <= i < |Layers(s)| ::
              var d, layer := Decisions(bound, s)[i], Layers(s)[i];
              && d.layer == layer.layer && d.tools == LayerTools(bound, layer.block)
              && d.preloads == Preloads(bound, layer.block) && (d.skipped <==> |d.tools| > 4)
    decreases s
  {
    hide Preloads, LayerTools, Block;
    if s != [] {
      DecisionsAre(bound, s[1..]);
    }
  }

  /** A layer's tools: each resolved tool its column-0 lines name, once. */
  lemma {:induction false} LayerToolsAre(bound: Bindings, block: seq<Line>)
    ensures var tools := LayerTools(bound, block);
            && (forall g, h | 0 <= g < h < |tools| :: tools[g] != tools[h])
            && (forall t :: t in tools <==> IsResolved(bound, t) && exists l :: l in block && ColumnTool(l) && l.n == t)
    decreases block
  {
    if block != [] {
      LayerToolsAre(bound, block[..|block| - 1]);
      var before, l := LayerTools(bound, block[..|block| - 1]), block[|block| - 1];
      assert forall g | 0 <= g < |before| :: before[g] in before;
      assert block == block[..|block| - 1] + [l];
    }
  }

  /** In every layer of the output that uses at most four tools, each of them is loaded, and
      on a head of its own. */
  lemma SmallLayersAreLoaded(bound: Bindings, s: seq<Line>, i: nat, h: nat)
    requires i < |Layers(Weave(bound, s))|
    requires var tools := LayerTools(bound, Layers(Weave(bound, s))[i].block);
             |tools| <= MAX_TOOLS && h < |tools|
    ensures var block := Layers(Weave(bound, s))[i].block;
            LoadLine(bound, h, LayerTools(bound, block)[h]) in block
  {
    hide LayerTools, Missing, Weave;
    LayersOfWeave(bound, s);
    PreloadedAt(bound, Layers(s), i);
    var block := Layers(s)[i].block;
    LayerToolsOfConcat(bound, Preloads(bound, block), block);
    MissingFills(bound, LayerTools(bound, block), block, 0, h);
  }

  lemma {:induction false} PreloadedAt(bound: Bindings, layers: seq<LayerBlock>, i: nat)
    requires i < |Preloaded(bound, layers)|
    ensures |Preloaded(bound, layers)| == |layers|
    ensures Preloaded(bound, layers)[i]
         == LayerBlock(layers[i].layer, Preloads(bound, layers[i].block) + layers[i].block)
    decreases layers
  {
    hide Preloads;
    if |layers| > 1 {
      PreloadedAt(bound, layers[1..], if i > 0 then i - 1 else 0);
    }
  }

  /** The load lines of a layer's tools would all be recognised if they stood there. */
  predicate Unsigned(bound: Bindings, block: seq<Line>) {
    var tools := LayerTools(bound, block);
    |tools| <= MAX_TOOLS ==> forall t | t in tools :: bound[t].value.ace >= 0 && bound[t].value.slot >= 0
  }

  /** The same for all layers. */
  predicate AllUnsigned(bound: Bindings, s: seq<Line>)
    decreases s
  {
    s == [] || ((Marker(s[0]) ==> Unsigned(bound, Block(s[1..]))) && AllUnsigned(bound, s[1..]))
  }

  lemma NothingMissingIff(bound: Bindings, block: seq<Line>)
    ensures Preloads(bound, Preloads(bound, block) + block) == [] <==> Unsigned(bound, block)
  {
    hide LayerTools, Missing;
    var ins, tools := Preloads(bound, block), LayerTools(bound, block);
    LayerToolsOfConcat(bound, ins, block);
    if |tools| <= MAX_TOOLS {
      forall g | 0 <= g < |tools|
        ensures LoadLine(bound, g, tools[g]) in ins + block
      {
        MissingFills(bound, tools, block, 0, g);
      }
      NothingToAddIff(bound, tools, ins + block, 0);
      assert forall h | 0 <= h < |tools| :: tools[h] in tools;
    }
  }

  lemma {:induction false} NothingToAddIff(bound: Bindings, tools: seq<nat>, block: seq<Line>, h: nat)
    requires h <= |tools| && forall t | t in tools :: IsResolved(bound, t)
    requires forall g | h <= g < |tools| :: LoadLine(bound, g, tools[g]) in block
    ensures Missing(bound, tools, block, h) == []
       <==> forall g | h <= g < |tools| :: LoadSeen(LoadLine(bound, g, tools[g]))
    decreases |tools| - h
  {
    hide LoadLine, LoadSeen;
    if h < |tools| {
      NothingToAddIff(bound, tools, block, h + 1);
      assert LoadLine(bound, h, tools[h]) in block;
    }
  }

  lemma {:induction false} WeaveAfterLoads(bound: Bindings, ins: seq<Line>, s: seq<Line>)
    requires forall l | l in ins :: l.Load?
    ensures Weave(bound, ins + s) == ins + Weave(bound, s)
    decreases ins
  {
    hide Weave, Inserted;
    if ins == [] {
      assert ins + s == s && ins + Weave(bound, s) == Weave(bound, s);
    } else {
      assert ins[0] in ins;
      var all := ins + s;
      assert all[0] == ins[0] && all[1..] == ins[1..] + s;
      WeaveAfterLoads(bound, ins[1..], s);
      WeaveParts(bound, all);
      HeadAndTail(Weave(bound, all), ins, Weave(bound, s));
    }
  }

  lemma HeadAndTail<T>(out: seq<T>, a: seq<T>, b: seq<T>)
    requires a != [] && out != [] && out[0] == a[0] && out[1..] == a[1..] + b
    ensures out == a + b
  {
    assert out == [out[0]] + out[1..];
  }

  /** A second run inserts nothing, exactly when no small layer needs a load line with a sign in it. */
  lemma {:induction false} WeaveTwiceIff(bound: Bindings, s: seq<Line>)
    ensures Weave(bound, Weave(bound, s)) == Weave(bound, s) <==> AllUnsigned(bound, s)
    ensures |Weave(bound, Weave(bound, s))| > |Weave(bound, s)| <==> !AllUnsigned(bound, s)
    decreases s
  {
    hide Preloads, Block, Unsigned;
    if s != [] {
      var ins, rest := Inserted(bound, s[0], s[1..]), Weave(bound, s[1..]);
      WeaveTwiceIff(bound, s[1..]);
      WeaveAfterLoads(bound, ins, rest);
      WeaveParts(bound, s);
      BlockAfterLoads(ins, rest);
      BlockOfWeave(bound, s[1..]);
      NothingMissingIff(bound, Block(s[1..]));
      assert Inserted(bound, s[0], ins + rest) == [] <==> (Marker(s[0]) ==> Unsigned(bound, Block(s[1..])));
      WeaveParts(bound, Weave(bound, s));
    }
  }

  // ---- on the machine ----------------------------------------------------------------------

  /** A layer's own line already loads its `h`-th tool on head `h`. */
  predicate LoadsItself(bound: Bindings, block: seq<Line>, h: nat)
    requires h < |LayerTools(bound, block)|
  {
    var l := LoadLine(bound, h, LayerTools(bound, block)[h]);
    l in block && LoadSeen(l)
  }

  /**
   * A layer's preloads put every tool of the layer on its own head, before any
   * of its lines runs, except the tools the layer loads itself: their heads are
   * left as they were. So a tool is there from the start exactly when it was
   * there before or the layer does not load it itself, be it too late.
   */
  lemma PreloadsLoadTheMachine(bound: Bindings, block: seq<Line>, r: Run, h: nat)
    requires |LayerTools(bound, block)| <= MAX_TOOLS <= |r.heads|
    requires h < |LayerTools(bound, block)|
    ensures var spot := SpotOf(bound, Some(LayerTools(bound, block)[h]));
            var after := ExecuteAll(r, Preloads(bound, block)).heads;
            && after[h] == (if LoadsItself(bound, block, h) then r.heads[h] else spot)
            && (after[h] == spot <==> !LoadsItself(bound, block, h) || r.heads[h] == spot)
  {
    hide LayerTools;
    var tools := LayerTools(bound, block);
    MissingRuns(bound, tools, block, r, 0);
  }

  const LATE_LAYER := [Layer(1, true), Tool(0, false, false), Load(0, 0, 2)]
  const ONE_TOOL: Bindings := [Some(Candidate(0, 2, 7))]

  /** A layer that uses a tool before it loads it: the preload is left out, and the tool prints from an empty head. */
  lemma LateLoadIsTooLate()
    ensures Weave(ONE_TOOL, LATE_LAYER) == LATE_LAYER
    ensures ExecuteAll(Run([None, None, None, None], []), LATE_LAYER).seen == [None]
  {
    hide ExecuteAll, Preloads;
    LateLayer();
    LateRun();
    var t, l := LATE_LAYER[1], LATE_LAYER[2];
    assert LATE_LAYER[1..] == [t, l] && [t, l][1..] == [l] && [l][1..] == [];
    assert Weave(ONE_TOOL, [l]) == [l];
    assert Weave(ONE_TOOL, [t, l]) == [t, l];
  }

  lemma LateLayer()
    ensures Preloads(ONE_TOOL, Block(LATE_LAYER[1..])) == []
  {
    hide LayerTools, Missing;
    var t, l := LATE_LAYER[1], LATE_LAYER[2];
    var block := [t, l];
    LateBlock();
    LayerToolsOfLast(ONE_TOOL, [], t);
    LayerToolsOfLast(ONE_TOOL, [t], l);
    NoLayerTools(ONE_TOOL);
    assert [] + [t] == [t] && [t] + [l] == block;
    var tools: seq<nat> := [0];
    assert LayerTools(ONE_TOOL, block) == tools;
    assert LoadLine(ONE_TOOL, 0, 0) == l && l in block;
    MissingStep(ONE_TOOL, tools, block, 0);
    MissingNone(ONE_TOOL, tools, block);
    assert Missing(ONE_TOOL, tools, block, 0) == [];
  }

  lemma LateBlock()
    ensures Block(LATE_LAYER[1..]) == [LATE_LAYER[1], LATE_LAYER[2]]
  {
    var t, l := LATE_LAYER[1], LATE_LAYER[2];
    assert LATE_LAYER[1..] == [t, l] && [t, l][1..] == [l] && [l][1..] == [];
    assert Block([l]) == [l];
  }

  lemma NoLayerTools(bound: Bindings)
    ensures LayerTools(bound, []) == []
  {
  }

  lemma LateRun()
    ensures ExecuteAll(Run([None, None, None, None], []), LATE_LAYER).seen == [None]
  {
    var r := Run([None, None, None, None], []);
    var a, t := LATE_LAYER[0], LATE_LAYER[1];
    assert LATE_LAYER[..2] == [a, t] && [a, t][..1] == [a] && [a][..0] == [];
    assert ExecuteAll(r, [a]) == r;
  }

  lemma {:induction false} MissingRuns(bound: Bindings, tools: seq<nat>, block: seq<Line>, r: Run, h: nat)
    requires h <= |tools| <= |r.heads| && forall t | t in tools :: IsResolved(bound, t)
    ensures var after := ExecuteAll(r, Missing(bound, tools, block, h)).heads;
            && (forall g | h <= g < |tools| ::
                  var l := LoadLine(bound, g, tools[g]);
                  after[g] == if l in block && LoadSeen(l) then r.heads[g] else SpotOf(bound, Some(tools[g])))
            && (forall g | 0 <= g < h :: after[g] == r.heads[g])
    decreases |tools| - h
  {
    hide ExecuteAll, SpotOf;
    if h == |tools| {
      NothingRuns(r);
    } else {
      var l := LoadLine(bound, h, tools[h]);
      if l in block && LoadSeen(l) {
        assert [] + Missing(bound, tools, block, h + 1) == Missing(bound, tools, block, h + 1);
        MissingRuns(bound, tools, block, r, h + 1);
      } else {
        ExecuteConcat(r, [l], Missing(bound, tools, block, h + 1));
        OneLineRuns(r, l);
        MissingRuns(bound, tools, block, Execute(r, l), h + 1);
        LoadLineRuns(bound, h, tools[h], r);
      }
    }
  }

  lemma OneLineRuns(r: Run, l: Line)
    ensures ExecuteAll(r, [l]) == Execute(r, l)
  {
    assert [l][..0] == [];
  }

  lemma LoadLineRuns(bound: Bindings, h: nat, t: nat, r: Run)
    requires IsResolved(bound, t) && h < |r.heads|
    ensures Execute(r, LoadLine(bound, h, t)).heads == r.heads[h := SpotOf(bound, Some(t))]
  {
  }
}
