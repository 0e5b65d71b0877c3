/** `match_tools`: binding slicer tools to spools by material and colour. */
module Matching {
  import opened Wrappers
  import opened Gcode

  /** A loaded spool, material and colour normalised as the source normalises them. */
  datatype Spool = Spool(material: string, color: string, spoolId: int)

  datatype SlotBlock = SlotBlock(slot: int, spool: Option<Spool>)

  datatype AceBlock = AceBlock(index: int, slots: seq<SlotBlock>)

  datatype Binding = Binding(meta: ToolMeta, candidate: Candidate)

  function SlotBindings(ace: int, slots: seq<SlotBlock>): seq<Binding>
    decreases slots
  {
    if slots == [] then []
    else
      var rest := SlotBindings(ace, slots[1..]);
      match slots[0].spool
      case None => rest
      case Some(s) => [Binding(ToolMeta(s.material, s.color), Candidate(ace, slots[0].slot, s.spoolId))] + rest
  }

  /** Every loaded slot of every ACE, in the order of the response. */
  function AllBindings(aces: seq<AceBlock>): seq<Binding>
    decreases aces
  {
    if aces == [] then [] else SlotBindings(aces[0].index, aces[0].slots) + AllBindings(aces[1..])
  }

  function Candidates(meta: ToolMeta, all: seq<Binding>): (r: seq<Candidate>)
    ensures forall c :: c in r <==> Binding(meta, c) in all
    decreases all
  {
    if all == [] then []
    else (if all[0].meta == meta then [all[0].candidate] else []) + Candidates(meta, all[1..])
  }

  /** One tool. `fallback` is the fuzzy search, which knows the tool only by its material
      and colour; without `--fuzzy-color` it finds nothing. */
  function Resolve(meta: ToolMeta, all: seq<Binding>, fallback: ToolMeta -> Option<Candidate>): ToolResolution {
    var candidates := Candidates(meta, all);
    if |candidates| == 1 then ToolResolution(meta, Exact, Some(candidates[0]), None)
    else if |candidates| > 1 then ToolResolution(meta, Ambiguous, None, None)
    else
      match fallback(meta)
      case Some(c) => ToolResolution(meta, Approx, Some(c), None)
      case None => ToolResolution(meta, Unmatched, None, None)
  }

  function MatchTools(tools: seq<ToolMeta>, aces: seq<AceBlock>, fallback: ToolMeta -> Option<Candidate>)
    : (r: seq<ToolResolution>)
    ensures |r| == |tools|
  {
    seq(|tools|, i requires 0 <= i < |tools| => Resolve(tools[i], AllBindings(aces), fallback))
  }

  /** The response lists a spool of the material and colour at place `i`. */
  predicate ListedAt(meta: ToolMeta, all: seq<Binding>, i: nat) {
    i < |all| && all[i].meta == meta
  }

  lemma {:induction false} NoCandidates(meta: ToolMeta, all: seq<Binding>)
    ensures Candidates(meta, all) == [] <==> forall i: nat :: !ListedAt(meta, all, i)
    decreases all
  {
    if all != [] {
      NoCandidates(meta, all[1..]);
      if i: nat :| ListedAt(meta, all, i) {
        assert i > 0 ==> ListedAt(meta, all[1..], i - 1);
      }
      if i: nat :| ListedAt(meta, all[1..], i) {
        assert ListedAt(meta, all, i + 1);
      }
      assert all[0].meta == meta ==> ListedAt(meta, all, 0);
    }
  }

  ghost predicate TwoListed(meta: ToolMeta, all: seq<Binding>) {
    exists i: nat, j: nat :: i < j && ListedAt(meta, all, i) && ListedAt(meta, all, j)
  }

  lemma TwoInRest(meta: ToolMeta, all: seq<Binding>)
    requires all != []
    ensures TwoListed(meta, all) <==>
              TwoListed(meta, all[1..]) || (all[0].meta == meta && exists j: nat :: ListedAt(meta, all[1..], j))
  {
    var rest := all[1..];
    if i: nat, j: nat :| i < j && ListedAt(meta, all, i) && ListedAt(meta, all, j) {
      assert ListedAt(meta, rest, j - 1);
      assert i > 0 ==> ListedAt(meta, rest, i - 1);
    }
    if i: nat, j: nat :| i < j && ListedAt(meta, rest, i) && ListedAt(meta, rest, j) {
      assert ListedAt(meta, all, i + 1) && ListedAt(meta, all, j + 1);
    }
    if j: nat :| all[0].meta == meta && ListedAt(meta, rest, j) {
      assert ListedAt(meta, all, 0) && ListedAt(meta, all, j + 1);
    }
  }

  lemma {:induction false} SeveralCandidates(meta: ToolMeta, all: seq<Binding>)
    ensures |Candidates(meta, all)| > 1 <==> TwoListed(meta, all)
    decreases all
  {
    hide ListedAt, TwoListed;
    if all == [] {
      NoneListed(meta);
    } else {
      SeveralCandidates(meta, all[1..]);
      NoCandidates(meta, all[1..]);
      TwoInRest(meta, all);
    }
  }

  lemma NoneListed(meta: ToolMeta)
    ensures !TwoListed(meta, [])
  {
  }

  lemma {:induction false} OneCandidate(meta: ToolMeta, all: seq<Binding>, i: nat)
    requires |Candidates(meta, all)| == 1 && ListedAt(meta, all, i)
    ensures Candidates(meta, all)[0] == all[i].candidate
    decreases all
  {
    if i > 0 {
      assert ListedAt(meta, all[1..], i - 1);
      NoCandidates(meta, all[1..]);
      OneCandidate(meta, all[1..], i - 1);
    }
  }

  /** A tool is matched exactly when one spool alone is listed for its material and colour, and then to
      that spool's slot; it is ambiguous from two on, and left to the fuzzy search with none. */
  lemma ResolvedIff(meta: ToolMeta, all: seq<Binding>, fallback: ToolMeta -> Option<Candidate>)
    ensures var r := Resolve(meta, all, fallback);
            && r.tool == meta && r.physicalHead == None
            && (r.quality == Ambiguous
                <==> exists i: nat, j: nat :: i < j && ListedAt(meta, all, i) && ListedAt(meta, all, j))
            && (r.quality == Exact <==> r.quality != Ambiguous && exists i: nat :: ListedAt(meta, all, i))
            && (forall i: nat | r.quality == Exact && ListedAt(meta, all, i) :: r.resolved == Some(all[i].candidate))
            && (r.quality == Ambiguous ==> r.resolved == None)
            && (r.quality == Approx ==> r.resolved == fallback(meta) && r.resolved.Some?)
            && (r.quality == Unmatched ==> r.resolved == None && fallback(meta) == None)
  {
    NoCandidates(meta, all);
    SeveralCandidates(meta, all);
    hide Candidates;
    forall i: nat | |Candidates(meta, all)| == 1 && ListedAt(meta, all, i)
      ensures Candidates(meta, all)[0] == all[i].candidate
    {
      OneCandidate(meta, all, i);
    }
  }

  /** A spool is listed with the ACE and the slot it is in. */
  lemma {:induction false} BindingsAre(aces: seq<AceBlock>, b: Binding)
    ensures b in AllBindings(aces)
       <==> exists a <- aces, s :: s in a.slots && s.spool.Some?
              && b == Binding(ToolMeta(s.spool.value.material, s.spool.value.color),
                              Candidate(a.index, s.slot, s.spool.value.spoolId))
    decreases aces
  {
    if aces != [] {
      BindingsAre(aces[1..], b);
      SlotBindingsAre(aces[0].index, aces[0].slots, b);
      assert forall a :: a in aces <==> a == aces[0] || a in aces[1..];
    }
  }

  lemma {:induction false} SlotBindingsAre(ace: int, slots: seq<SlotBlock>, b: Binding)
    ensures b in SlotBindings(ace, slots)
       <==> exists s :: s in slots && s.spool.Some?
              && b == Binding(ToolMeta(s.spool.value.material, s.spool.value.color),
                              Candidate(ace, s.slot, s.spool.value.spoolId))
    decreases slots
  {
    if slots != [] {
      SlotBindingsAre(ace, slots[1..], b);
      assert forall s :: s in slots <==> s == slots[0] || s in slots[1..];
    }
  }

  /** Tools of the same material and colour are treated alike, and unmatched tools are
      bound to nothing. The aliasing pass relies on this and nothing else. */
  ghost predicate Coherent(rs: seq<ToolResolution>) {
    && (forall m, n | 0 <= m < |rs| && 0 <= n < |rs| && rs[m].tool == rs[n].tool ::
          rs[m].quality == rs[n].quality && rs[m].resolved == rs[n].resolved)
    && (forall n | 0 <= n < |rs| && rs[n].quality == Unmatched :: rs[n].resolved.None?)
  }

  lemma MatchIsCoherent(tools: seq<ToolMeta>, aces: seq<AceBlock>, fallback: ToolMeta -> Option<Candidate>)
    ensures Coherent(MatchTools(tools, aces, fallback))
  {
  }

  /** No (ace, slot) occurs twice in the response. */
  ghost predicate SlotsListedOnce(all: seq<Binding>) {
    forall i, j | 0 <= i < j < |all| ::
      (all[i].candidate.ace, all[i].candidate.slot) != (all[j].candidate.ace, all[j].candidate.slot)
  }

  /** Two tools share an (ace, slot). */
  predicate SameSlot(rs: seq<ToolResolution>, m: nat, n: nat) {
    && m < |rs| && n < |rs| && rs[m].resolved.Some? && rs[n].resolved.Some?
    && rs[m].resolved.value.ace == rs[n].resolved.value.ace
    && rs[m].resolved.value.slot == rs[n].resolved.value.slot
  }

  /** Exact matching sends different materials or colours to different slots. */
  lemma ExactMatchSeparates(tools: seq<ToolMeta>, aces: seq<AceBlock>, m: nat, n: nat)
    requires SlotsListedOnce(AllBindings(aces))
    requires SameSlot(MatchTools(tools, aces, _ => None), m, n)
    ensures tools[m] == tools[n]
  {
    var all := AllBindings(aces);
    var rs := MatchTools(tools, aces, _ => None);
    var a, b := rs[m].resolved.value, rs[n].resolved.value;
    assert a in Candidates(tools[m], all) && b in Candidates(tools[n], all);
    var i :| 0 <= i < |all| && all[i] == Binding(tools[m], a);
    var j :| 0 <= j < |all| && all[j] == Binding(tools[n], b);
    assert i == j;
  }
}
