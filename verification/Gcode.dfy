/** G-code lines as the post-processor classifies them, and the tools they name. */
module Gcode {
  import opened Wrappers

  /** `Tool` records the two ways in which the two tool patterns differ: the planner's
      allows leading blanks but nothing after the number except a comment, the other
      passes' wants column 0 but allows anything after the number. Likewise a layer
      marker is `canonical` when the stricter of the two layer patterns accepts it. */
  datatype Line =
    | Tool(n: nat, indented: bool, args: bool)
    | Layer(n: nat, canonical: bool)
    | Load(head: nat, ace: int, slot: int)
    | Park(head: nat)
    | Other(headerMark: bool)
    | Emitted               // a header comment written by the post-processor itself

  /** `_TOOL_RE` */
  predicate PlannerTool(l: Line) {
    l.Tool? && !l.args
  }

  /** `_TOOL_RE_OPTIM` */
  predicate ColumnTool(l: Line) {
    l.Tool? && !l.indented
  }

  datatype ToolMeta = ToolMeta(material: string, color: string)

  datatype Candidate = Candidate(ace: int, slot: int, spoolId: int)

  datatype Quality = Exact | Approx | Ambiguous | Unmatched

  /** Tools are numbered by their position in the list of resolutions. */
  datatype ToolResolution = ToolResolution(
    tool: ToolMeta, quality: Quality, resolved: Option<Candidate>, physicalHead: Option<nat>)

  /** What each tool is bound to. */
  type Bindings = seq<Option<Candidate>>

  function BindingsOf(resolutions: seq<ToolResolution>): (b: Bindings)
    ensures |b| == |resolutions|
  {
    seq(|resolutions|, t requires 0 <= t < |resolutions| => resolutions[t].resolved)
  }

  predicate IsResolved(bound: Bindings, t: nat) {
    t < |bound| && bound[t].Some?
  }

  /** The tool a line makes the planner provide. */
  function Request(bound: Bindings, l: Line): (r: Option<nat>)
    ensures r.Some? ==> PlannerTool(l) && IsResolved(bound, l.n) && r == Some(l.n)
  {
    if PlannerTool(l) && IsResolved(bound, l.n) then Some(l.n) else None
  }

  function Requests(bound: Bindings, lines: seq<Line>): (reqs: seq<Option<nat>>)
    ensures |reqs| == |lines|
  {
    seq(|lines|, i requires 0 <= i < |lines| => Request(bound, lines[i]))
  }
}
