/** Drying recipes: `cycle_params_for` and `reconcile_loaded_slots` in `autodryer.py`. */
module Recipes {
  import opened Wrappers
  import CfgText

  datatype Profile = Profile(id: string, temp: int, duration: int)
  datatype Cycle = Cycle(temp: int, duration: int)
  datatype Recipe = Recipe(temp: Option<int>, duration: Option<int>, mixed: bool)

  /** No cycle is issued for longer than this. */
  const PER_CYCLE_MAX_MIN := 480

  const DEFAULTS := [
    Profile("PLA", 50, 360), Profile("PETG", 60, 480), Profile("TPU", 50, 480), Profile("ABS", 65, 360),
    Profile("ASA", 65, 360), Profile("PA", 70, 1440), Profile("PC", 70, 1440), Profile("PVA", 45, 480)]

  const FALLBACK := Cycle(50, 360)

  function Upper(s: string): (r: string)
    ensures |r| == |s|
  {
    seq(|s|, i requires 0 <= i < |s| => if 'a' <= s[i] <= 'z' then ((s[i] as int) - 32) as char else s[i])
  }

  /** How filament types are compared. */
  function Name(filament: string): string {
    Upper(CfgText.Strip(filament))
  }

  function FirstNamed(profiles: seq<Profile>, name: string): Option<Cycle>
    decreases profiles
  {
    if profiles == [] then None
    else if Name(profiles[0].id) == name then Some(Cycle(profiles[0].temp, profiles[0].duration))
    else FirstNamed(profiles[1..], name)
  }

  function CycleFor(filament: string, profiles: seq<Profile>): Cycle {
    match FirstNamed(profiles, Name(filament))
    case Some(c) => c
    case None =>
      match FirstNamed(DEFAULTS, Name(filament))
      case Some(c) => c
      case None => FALLBACK
  }

  /** The `k`-th profile is the first of its list that has the filament's name. */
  predicate Foremost(profiles: seq<Profile>, filament: string, k: nat) {
    && k < |profiles| && Name(profiles[k].id) == Name(filament)
    && forall j | 0 <= j < k :: Name(profiles[j].id) != Name(filament)
  }

  predicate Nameless(profiles: seq<Profile>, filament: string) {
    forall j | 0 <= j < |profiles| :: Name(profiles[j].id) != Name(filament)
  }

  /** The first user profile of the filament's name, else the first default of that name, else
      50 degrees for six hours. */
  method CycleParamsFor(filament: string, profiles: seq<Profile>) returns (c: Cycle)
    ensures c == CycleFor(filament, profiles)
    ensures forall k: nat | Foremost(profiles, filament, k) :: c == Cycle(profiles[k].temp, profiles[k].duration)
    ensures forall k: nat | Nameless(profiles, filament) && Foremost(DEFAULTS, filament, k) ::
              c == Cycle(DEFAULTS[k].temp, DEFAULTS[k].duration)
    ensures Nameless(profiles, filament) && Nameless(DEFAULTS, filament) ==> c == Cycle(50, 360)
  {
    CycleForIs(filament, profiles);
    var found := Search(profiles, Name(filament));
    if found.Some? {
      return found.value;
    }
    found := Search(DEFAULTS, Name(filament));
    c := if found.Some? then found.value else FALLBACK;
  }

  method Search(profiles: seq<Profile>, name: string) returns (c: Option<Cycle>)
    ensures c == FirstNamed(profiles, name)
  {
    hide Name;
    var i := 0;
    while i < |profiles|
      invariant 0 <= i <= |profiles|
      invariant FirstNamed(profiles[i..], name) == FirstNamed(profiles, name)
      decreases |profiles| - i
    {
      assert profiles[i..][0] == profiles[i] && profiles[i..][1..] == profiles[i + 1..];
      if Name(profiles[i].id) == name {
        return Some(Cycle(profiles[i].temp, profiles[i].duration));
      }
      i := i + 1;
    }
    c := None;
  }

  lemma {:induction false} FirstNamedAt(profiles: seq<Profile>, filament: string)
    ensures Nameless(profiles, filament) <==> FirstNamed(profiles, Name(filament)) == None
    ensures forall k: nat | Foremost(profiles, filament, k) ::
              FirstNamed(profiles, Name(filament)) == Some(Cycle(profiles[k].temp, profiles[k].duration))
    decreases profiles
  {
    hide Name;
    if profiles != [] {
      var rest := profiles[1..];
      FirstNamedAt(rest, filament);
      assert forall j | 0 <= j < |rest| :: rest[j] == profiles[j + 1];
      forall k: nat | Foremost(profiles, filament, k)
        ensures FirstNamed(profiles, Name(filament)) == Some(Cycle(profiles[k].temp, profiles[k].duration))
      {
        if k > 0 {
          assert Foremost(rest, filament, k - 1);
        }
      }
    }
  }

  /** The answer, from the lists alone. */
  lemma CycleForIs(filament: string, profiles: seq<Profile>)
    ensures forall k: nat | Foremost(profiles, filament, k) ::
              CycleFor(filament, profiles) == Cycle(profiles[k].temp, profiles[k].duration)
    ensures forall k: nat | Nameless(profiles, filament) && Foremost(DEFAULTS, filament, k) ::
              CycleFor(filament, profiles) == Cycle(DEFAULTS[k].temp, DEFAULTS[k].duration)
    ensures Nameless(profiles, filament) && Nameless(DEFAULTS, filament) ==>
              CycleFor(filament, profiles) == Cycle(50, 360)
  {
    hide Name, FirstNamed, Foremost, Nameless;
    FirstNamedAt(profiles, filament);
    FirstNamedAt(DEFAULTS, filament);
  }

  /** The same letter, small or capital. */
  predicate SameLetter(c: char, d: char) {
    || c == d
    || ('a' <= c <= 'z' && d as int == c as int - 32)
    || ('a' <= d <= 'z' && c as int == d as int - 32)
  }

  /** Names are equal exactly when the stripped texts are, letter case apart. */
  lemma NameIff(s: string, t: string)
    ensures Name(s) == Name(t)
       <==> var a, b := CfgText.Strip(s), CfgText.Strip(t);
            |a| == |b| && forall i | 0 <= i < |a| :: SameLetter(a[i], b[i])
  {
    hide CfgText.Strip;
    UpperIff(CfgText.Strip(s), CfgText.Strip(t));
  }

  lemma UpperIff(a: string, b: string)
    ensures Upper(a) == Upper(b) <==> |a| == |b| && forall i | 0 <= i < |a| :: SameLetter(a[i], b[i])
  {
    if Upper(a) == Upper(b) {
      forall i | 0 <= i < |a|
        ensures SameLetter(a[i], b[i])
      {
        assert Upper(a)[i] == Upper(b)[i];
      }
    }
  }

  /** Blanks around a name do not matter. */
  lemma NameOfPadded(before: string, name: string, after: string)
    requires CfgText.Stripped(name)
    requires (forall c <- before :: CfgText.IsSpace(c)) && (forall c <- after :: CfgText.IsSpace(c))
    ensures Name(before + name + after) == Upper(name)
  {
    CfgText.StripPadded(before, name, after);
  }

  /** The shipped table: degrees and minutes for every name in it. */
  lemma ShippedCycles(filament: string)
    ensures var name, c := Name(filament), CycleFor(filament, []);
            && (name == "PLA" ==> c == Cycle(50, 360)) && (name == "PETG" ==> c == Cycle(60, 480))
            && (name == "TPU" ==> c == Cycle(50, 480)) && (name == "ABS" || name == "ASA" ==> c == Cycle(65, 360))
            && (name == "PA" || name == "PC" ==> c == Cycle(70, 1440)) && (name == "PVA" ==> c == Cycle(45, 480))
            && (name !in {"PLA", "PETG", "TPU", "ABS", "ASA", "PA", "PC", "PVA"} ==> c == Cycle(50, 360))
  {
    hide Name, FirstNamed;
    CycleForIs(filament, []);
    DefaultNames();
    forall k: nat | k < 8 && DEFAULTS[k].id == Name(filament)
      ensures Foremost(DEFAULTS, filament, k)
    {
    }
    assert DEFAULTS[0].id == "PLA" && DEFAULTS[1].id == "PETG" && DEFAULTS[2].id == "TPU" && DEFAULTS[3].id == "ABS";
    assert DEFAULTS[4].id == "ASA" && DEFAULTS[5].id == "PA" && DEFAULTS[6].id == "PC" && DEFAULTS[7].id == "PVA";
  }

  lemma DefaultNames()
    ensures forall k | 0 <= k < |DEFAULTS| :: Name(DEFAULTS[k].id) == DEFAULTS[k].id
    ensures forall j, k | 0 <= j < k < |DEFAULTS| :: DEFAULTS[j].id != DEFAULTS[k].id
  {
    hide CfgText.Strip;
    forall k | 0 <= k < |DEFAULTS|
      ensures Name(DEFAULTS[k].id) == DEFAULTS[k].id
    {
      CfgText.StripStripped(DEFAULTS[k].id);
    }
  }

  function Min(a: int, b: int): int {
    if a <= b then a else b
  }

  /** The coldest and shortest of the loaded filaments' cycles. */
  function Strictest(filaments: seq<string>, profiles: seq<Profile>): Cycle
    requires filaments != []
    decreases filaments
  {
    var first := CycleFor(filaments[0], profiles);
    if |filaments| == 1 then first else
      var rest := Strictest(filaments[1..], profiles);
      Cycle(Min(first.temp, rest.temp), Min(first.duration, rest.duration))
  }

  function Names(filaments: seq<string>): set<string> {
    set t <- filaments :: Name(t)
  }

  function Reconcile(filaments: seq<string>, profiles: seq<Profile>): Recipe {
    if filaments == [] then Recipe(None, None, false)
    else
      var c := Strictest(filaments, profiles);
      Recipe(Some(c.temp), Some(Min(c.duration, PER_CYCLE_MAX_MIN)), |Names(filaments)| > 1)
  }

  predicate IsStrictest(c: Cycle, filaments: seq<string>, profiles: seq<Profile>) {
    && (forall t <- filaments :: c.temp <= CycleFor(t, profiles).temp && c.duration <= CycleFor(t, profiles).duration)
    && (exists t <- filaments :: c.temp == CycleFor(t, profiles).temp)
    && (exists t <- filaments :: c.duration == CycleFor(t, profiles).duration)
  }

  lemma {:induction false} StrictestIsStrictest(filaments: seq<string>, profiles: seq<Profile>)
    requires filaments != []
    ensures IsStrictest(Strictest(filaments, profiles), filaments, profiles)
    decreases filaments
  {
    hide CycleFor;
    assert filaments[0] in filaments;
    if |filaments| > 1 {
      var rest := filaments[1..];
      StrictestIsStrictest(rest, profiles);
      assert forall t <- rest :: t in filaments;
      assert forall t <- filaments :: t == filaments[0] || t in rest;
    }
  }

  /** Every loaded filament tolerates the recipe, and no cycle exceeds the cap. */
  lemma ReconcileProtects(filaments: seq<string>, profiles: seq<Profile>)
    ensures var r := Reconcile(filaments, profiles);
            && (filaments == [] <==> r.temp.None?) && (filaments == [] <==> r.duration.None?)
            && (filaments != [] ==> r.duration.value <= PER_CYCLE_MAX_MIN)
            && (forall t <- filaments :: r.temp.value <= CycleFor(t, profiles).temp
                                         && r.duration.value <= CycleFor(t, profiles).duration)
            && (filaments != [] ==> exists t <- filaments :: r.temp.value == CycleFor(t, profiles).temp)
            && (filaments != [] && r.duration.value != PER_CYCLE_MAX_MIN ==>
                  exists t <- filaments :: r.duration.value == CycleFor(t, profiles).duration)
  {
    hide CycleFor, Strictest;
    if filaments != [] {
      StrictestIsStrictest(filaments, profiles);
    }
  }

  /** The recipe depends on which filaments are loaded, not on where, and loading more never makes it harsher. */
  lemma ReconcileIsMonotone(few: seq<string>, many: seq<string>, profiles: seq<Profile>)
    requires few != [] && forall t <- few :: t in many
    ensures var f, m := Reconcile(few, profiles), Reconcile(many, profiles);
            && m.temp.Some? && m.duration.Some?
            && m.temp.value <= f.temp.value && m.duration.value <= f.duration.value && (f.mixed ==> m.mixed)
    ensures (forall t <- many :: t in few) ==> Reconcile(few, profiles) == Reconcile(many, profiles)
  {
    hide CycleFor, Strictest, Name;
    assert few[0] in many;
    StrictestIsStrictest(few, profiles);
    StrictestIsStrictest(many, profiles);
    assert Names(few) <= Names(many);
    SmallerSet(Names(few), Names(many));
    if forall t <- many :: t in few {
      assert Names(few) == Names(many);
    }
  }

  lemma {:induction false} FirstNamedIs(profiles: seq<Profile>, name: string)
    ensures FirstNamed(profiles, name).Some? ==>
              exists p <- profiles :: FirstNamed(profiles, name) == Some(Cycle(p.temp, p.duration))
    decreases profiles
  {
    hide Name;
    if profiles != [] {
      FirstNamedIs(profiles[1..], name);
      assert profiles[0] in profiles && forall p <- profiles[1..] :: p in profiles;
    }
  }

  lemma DefaultsAreTimed(p: Profile)
    ensures p in DEFAULTS ==> 360 <= p.duration
  {
  }

  /** Without user profiles every recipe has a real duration: six to eight hours. */
  lemma ShippedRecipesAreTimed(filaments: seq<string>)
    requires filaments != []
    ensures Reconcile(filaments, []).duration.Some?
    ensures 360 <= Reconcile(filaments, []).duration.value <= PER_CYCLE_MAX_MIN
  {
    hide Strictest, Name, FirstNamed;
    StrictestIsStrictest(filaments, []);
    forall t <- filaments
      ensures 360 <= CycleFor(t, []).duration
    {
      FirstNamedIs([], Name(t));
      FirstNamedIs(DEFAULTS, Name(t));
      if FirstNamed(DEFAULTS, Name(t)).Some? {
        var p :| p in DEFAULTS && FirstNamed(DEFAULTS, Name(t)) == Some(Cycle(p.temp, p.duration));
        DefaultsAreTimed(p);
      }
    }
  }

  lemma SmallerSet(a: set<string>, b: set<string>)
    requires a <= b
    ensures |a| <= |b|
  {
    assert b == a + (b - a);
  }

  /** The warning is on exactly when two loaded filaments differ. */
  lemma MixedIffDifferent(filaments: seq<string>, profiles: seq<Profile>)
    ensures Reconcile(filaments, profiles).mixed
       <==> exists i, j | 0 <= i < |filaments| && 0 <= j < |filaments| :: Name(filaments[i]) != Name(filaments[j])
  {
    hide Name, Strictest;
    if filaments != [] {
      var names := Names(filaments);
      var first := Name(filaments[0]);
      assert filaments[0] in filaments && first in names;
      if forall j | 0 <= j < |filaments| :: Name(filaments[j]) == first {
        assert names == {first};
      } else {
        var j :| 0 <= j < |filaments| && Name(filaments[j]) != first;
        assert filaments[j] in filaments;
        assert {first, Name(filaments[j])} <= names;
        SmallerSet({first, Name(filaments[j])}, names);
      }
    }
  }

  /** `reconcile_loaded_slots`. */
  method ReconcileLoadedSlots(filaments: seq<string>, profiles: seq<Profile>) returns (r: Recipe)
    ensures r == Reconcile(filaments, profiles)
  {
    hide CycleFor, Name;
    if filaments == [] {
      return Recipe(None, None, false);
    }
    var last := filaments[|filaments| - 1];
    var c := CycleParamsFor(last, profiles);
    var i := |filaments| - 1;
    assert filaments[i..] == [last];
    while i > 0
      invariant 0 <= i < |filaments|
      invariant c == Strictest(filaments[i..], profiles)
      decreases i
    {
      assert filaments[i - 1..][1..] == filaments[i..];
      i := i - 1;
      var one := CycleParamsFor(filaments[i], profiles);
      c := Cycle(Min(one.temp, c.temp), Min(one.duration, c.duration));
    }
    assert filaments[i..] == filaments;
    r := Recipe(Some(c.temp), Some(Min(c.duration, PER_CYCLE_MAX_MIN)), |Names(filaments)| > 1);
  }
}
