/** `merge_ace_cfg.py`: overlaying a user's `[ace]` values on a new default file. */
module ConfigMerge {
  import opened Wrappers
  import opened CfgText
  import S = Sorted

  type Values = map<string, map<string, string>>

  // ---- parse_user_values ------------------------------------------------------------

  datatype Parse = Parse(current: Option<string>, values: Values)

  const START := Parse(None, map[])

  function ParseStep(p: Parse, raw: string): Parse {
    match EffectOf(raw)
    case Enter(section) =>
      Parse(section, if section.Some? && section.value !in p.values then p.values[section.value := map[]] else p.values)
    case Bind(key, value) =>
      if p.current.Some? then Parse(p.current, Put(p.values, p.current.value, key, value)) else p
    case Skip => p
  }

  function Put(values: Values, section: string, key: string, value: string): Values {
    values[section := (if section in values then values[section] else map[])[key := value]]
  }

  function ParseFrom(p: Parse, lines: seq<string>): Parse
    decreases lines
  {
    if lines == [] then p else ParseFrom(ParseStep(p, lines[0]), lines[1..])
  }

  /** The user values a file holds. */
  function ValuesOf(text: string): Values {
    ParseFrom(START, Lines(text)).values
  }

  function Lookup(values: Values, section: string, key: string): Option<string> {
    if section in values && key in values[section] then Some(values[section][key]) else None
  }

  method ParseUserValues(text: string) returns (out: Values)
    ensures out == ValuesOf(text)
    ensures Sound(out)
  {
    hide EffectOf, Sound, Lines;
    var current: Option<string> := None;
    out := map[];
    var lines := Lines(text);
    var i := 0;
    while i < |lines|
      invariant 0 <= i <= |lines|
      invariant ParseFrom(Parse(current, out), lines[i..]) == ParseFrom(START, lines)
      invariant current.Some? ==> current.value in out
      decreases |lines| - i
    {
      var raw := lines[i];
      assert lines[i..][0] == raw && lines[i..][1..] == lines[i + 1..];
      match EffectOf(raw) {
        case Enter(section) =>
          current := section;
          if current.Some? && current.value !in out {
            out := out[current.value := map[]];
          }
        case Bind(key, value) =>
          if current.Some? {
            out := out[current.value := out[current.value][key := value]];
          }
        case Skip =>
      }
      i := i + 1;
    }
    ValuesAreSound(text);
  }

  // ---- what parsing guarantees about its values ----------------------------------------

  predicate NoBreak(s: string) {
    forall i | 0 <= i < |s| :: s[i] != '\n'
  }

  predicate SoundSection(u: map<string, string>) {
    forall k <- u :: IsIdent(k) && Stripped(u[k]) && NoBreak(u[k])
  }

  /** Sections, keys and values that can be written back as lines. */
  predicate Sound(values: Values) {
    forall s <- values :: IsAceName(s) && NoBreak(s) && SoundSection(values[s])
  }

  lemma LStripIsSuffix(s: string)
    ensures |LStrip(s)| <= |s| && LStrip(s) == s[|s| - |LStrip(s)|..]
    decreases s
  {
  }

  lemma StripKeepsNoBreak(s: string)
    requires NoBreak(s)
    ensures NoBreak(Strip(s))
  {
    LStripIsSuffix(s);
  }

  lemma StripOfALine(raw: string)
    requires Terminated(raw) || Unterminated(raw)
    ensures NoBreak(Strip(raw))
  {
    LStripIsSuffix(raw);
    if Terminated(raw) {
      var t := LStrip(raw);
      if t != "" {
        assert t[|t| - 1] == '\n';
        var body := t[..|t| - 1];
        assert NoBreak(body);
        assert RStrip(t) == RStrip(body);
      }
    }
  }

  lemma SuffixKeepsNoBreak(s: string, n: nat)
    requires NoBreak(s) && n <= |s|
    ensures NoBreak(s[n..]) && NoBreak(LStrip(s[n..]))
  {
    LStripIsSuffix(s[n..]);
  }

  lemma KeyIsSound(stripped: string)
    requires NoBreak(stripped)
    ensures MatchKey(stripped).Some? ==> NoBreak(MatchKey(stripped).value.value)
  {
    hide Strip, LStrip, NoBreak, IsIdent, Stripped;
    var n := IdentLen(stripped);
    var rest := LStrip(stripped[n..]);
    SuffixKeepsNoBreak(stripped, n);
    if rest != "" {
      SuffixKeepsNoBreak(rest, 1);
      StripKeepsNoBreak(rest[1..]);
    }
  }

  lemma SectionIsSound(stripped: string)
    requires NoBreak(stripped) && IsSectionHeader(stripped)
    ensures SectionName(stripped).Some? ==> NoBreak(SectionName(stripped).value)
  {
    hide Strip, IsAceName;
    StripKeepsNoBreak(stripped[1..|stripped| - 1]);
  }

  lemma EffectIsSound(raw: string)
    requires Terminated(raw) || Unterminated(raw)
    ensures EffectOf(raw).Enter? && EffectOf(raw).section.Some? ==> NoBreak(EffectOf(raw).section.value)
    ensures EffectOf(raw).Bind? ==> NoBreak(EffectOf(raw).value)
  {
    hide Strip, IsAceName, IsIdent, NoBreak, MatchKey, SectionName, Stripped, Terminated, Unterminated;
    StripOfALine(raw);
    KeyIsSound(Strip(raw));
    if IsSectionHeader(Strip(raw)) {
      SectionIsSound(Strip(raw));
    }
  }

  lemma {:induction false} ParseIsSound(p: Parse, lines: seq<string>)
    requires Sound(p.values)
    requires p.current.Some? ==> IsAceName(p.current.value) && NoBreak(p.current.value)
    requires forall i | 0 <= i < |lines| :: Terminated(lines[i]) || Unterminated(lines[i])
    ensures Sound(ParseFrom(p, lines).values)
    decreases lines
  {
    hide EffectOf, IsAceName, IsIdent, Stripped, NoBreak, Terminated, Unterminated;
    if lines != [] {
      EffectIsSound(lines[0]);
      ParseIsSound(ParseStep(p, lines[0]), lines[1..]);
    }
  }

  lemma ValuesAreSound(text: string)
    ensures Sound(ValuesOf(text))
  {
    LinesAre(text);
    ParseIsSound(START, Lines(text));
  }

  // ---- the pass over the new default ------------------------------------------------------

  /** The user key a column-0 line names, set or commented out. */
  function NamedKey(raw: string, u: map<string, string>): (r: Option<string>)
    ensures r.Some? ==> r.value in u
  {
    if Indented(raw) then None
    else
      var bound := MatchKey(Strip(raw));
      if bound.Some? && bound.value.key in u then Some(bound.value.key)
      else
        var commented := MatchCommented(Strip(raw));
        if commented.Some? && commented.value in u then commented else None
  }

  /** What becomes of a line inside a section the user has. */
  function OutLine(raw: string, u: map<string, string>): string {
    match NamedKey(raw, u)
    case None => raw
    case Some(key) => if MatchKey(Strip(raw)) == Some(KeyValue(key, u[key])) then raw else KeyLine(key, u[key])
  }

  function SectionAfter(current: Option<string>, raw: string): Option<string> {
    if IsSectionHeader(Strip(raw)) then SectionName(Strip(raw)) else current
  }

  /** The user's own values for the line at hand; none for headers and foreign sections. */
  function UserSection(values: Values, current: Option<string>, raw: string): map<string, string> {
    if IsSectionHeader(Strip(raw)) || current.None? || current.value !in values then map[] else values[current.value]
  }

  function OutLines(values: Values, current: Option<string>, lines: seq<string>): seq<string>
    decreases lines
  {
    if lines == [] then []
    else [OutLine(lines[0], UserSection(values, current, lines[0]))]
         + OutLines(values, SectionAfter(current, lines[0]), lines[1..])
  }

  /** The user keys the pass finds a line for. */
  function Written(values: Values, current: Option<string>, lines: seq<string>): set<(string, string)>
    decreases lines
  {
    if lines == [] then {} else
      var named := NamedKey(lines[0], UserSection(values, current, lines[0]));
      (if named.Some? && current.Some? then {(current.value, named.value)} else {})
      + Written(values, SectionAfter(current, lines[0]), lines[1..])
  }

  /** The ace sections a file has a header for. */
  function Emitted(lines: seq<string>): set<string>
    decreases lines
  {
    if lines == [] then {} else
      var named := SectionAfter(None, lines[0]);
      (if named.Some? then {named.value} else {}) + Emitted(lines[1..])
  }

  predicate Holds(values: Values, section: string, key: string) {
    section in values && key in values[section]
  }

  lemma NoUserKeys(raw: string)
    ensures OutLine(raw, map[]) == raw && NamedKey(raw, map[]) == None
  {
  }

  lemma OutLineEffect(raw: string, u: map<string, string>)
    requires SoundSection(u) && !IsSectionHeader(Strip(raw))
    ensures EffectOf(OutLine(raw, u))
         == match NamedKey(raw, u) { case Some(key) => Bind(key, u[key]) case None => EffectOf(raw) }
    ensures EffectOf(raw).Bind? ==>
              NamedKey(raw, u) == if EffectOf(raw).key in u then Some(EffectOf(raw).key) else None
  {
    hide Strip, MatchKey, NoBreak, IsIdent, KeyLine, IsSectionHeader, Stripped;
    var named := NamedKey(raw, u);
    if named.Some? {
      KeyLineEffect(named.value, u[named.value]);
    }
  }

  lemma EnterIsSectionAfter(p: Parse, raw: string)
    ensures ParseStep(p, raw).current == SectionAfter(p.current, raw)
    ensures EffectOf(raw).Enter? <==> IsSectionHeader(Strip(raw))
  {
    hide Strip, MatchKey, IsAceName, IsIdent, SectionName;
  }

  lemma BindLookup(p: Parse, key: string, value: string, section: string, k: string, raw: string)
    requires EffectOf(raw) == Bind(key, value)
    ensures Lookup(ParseStep(p, raw).values, section, k)
         == if p.current == Some(section) && k == key then Some(value) else Lookup(p.values, section, k)
    ensures ParseStep(p, raw).current == p.current
  {
    hide EffectOf;
  }

  lemma OtherLookup(p: Parse, raw: string, section: string, k: string)
    requires !EffectOf(raw).Bind?
    ensures Lookup(ParseStep(p, raw).values, section, k) == Lookup(p.values, section, k)
  {
    hide EffectOf;
  }

  predicate StepHolds(values: Values, d: Parse, m: Parse, raw: string, section: string, key: string)
  {
    var u := UserSection(values, d.current, raw);
    var d', m' := ParseStep(d, raw), ParseStep(m, OutLine(raw, u));
    && d'.current == m'.current
    && (Holds(values, section, key) ==>
          Lookup(m'.values, section, key)
          == if d.current == Some(section) && NamedKey(raw, u) == Some(key) then Some(values[section][key])
             else Lookup(m.values, section, key))
    && (!Holds(values, section, key) && Lookup(d.values, section, key) == Lookup(m.values, section, key) ==>
          Lookup(d'.values, section, key) == Lookup(m'.values, section, key))
  }

  lemma SkipStep(p: Parse, raw: string)
    requires EffectOf(raw).Skip?
    ensures ParseStep(p, raw) == p
  {
    hide EffectOf;
  }

  lemma StepLawInside(values: Values, d: Parse, m: Parse, raw: string, section: string, key: string)
    requires Sound(values) && d.current == m.current && !IsSectionHeader(Strip(raw))
    ensures StepHolds(values, d, m, raw, section, key)
  {
    hide ParseStep, OutLine, NamedKey, EffectOf, Lookup, Strip, IsSectionHeader;
    var u := UserSection(values, d.current, raw);
    assert SoundSection(u);
    hide SoundSection;
    var line := OutLine(raw, u);
    OutLineEffect(raw, u);
    EnterIsSectionAfter(d, raw);
    match EffectOf(raw) {
      case Bind(k, v) => BindLookup(d, k, v, section, key, raw);
      case _ => SkipStep(d, raw);
    }
    match EffectOf(line) {
      case Bind(k, v) => BindLookup(m, k, v, section, key, line);
      case _ => SkipStep(m, line);
    }
  }

  /** One line of the pass: what the new file says of a key, against the default and the user. */
  lemma StepLaw(values: Values, d: Parse, m: Parse, raw: string, section: string, key: string)
    requires Sound(values) && d.current == m.current
    ensures StepHolds(values, d, m, raw, section, key)
  {
    hide ParseStep, OutLine, NamedKey, EffectOf, Lookup, Strip, IsSectionHeader, SoundSection, SectionAfter;
    var u := UserSection(values, d.current, raw);
    EnterIsSectionAfter(d, raw);
    if IsSectionHeader(Strip(raw)) {
      NoUserKeys(raw);
      OtherLookup(d, raw, section, key);
      OtherLookup(m, raw, section, key);
      EnterIsSectionAfter(m, raw);
    } else {
      StepLawInside(values, d, m, raw, section, key);
    }
  }

  /** The whole pass: user keys that found a line win, everything else is the default's. */
  lemma {:induction false} PassLaw(values: Values, d: Parse, m: Parse, lines: seq<string>, section: string, key: string)
    requires Sound(values) && d.current == m.current
    ensures var d', m' := ParseFrom(d, lines), ParseFrom(m, OutLines(values, d.current, lines));
            && (Holds(values, section, key) ==>
                  Lookup(m'.values, section, key)
                  == if (section, key) in Written(values, d.current, lines) then Some(values[section][key])
                     else Lookup(m.values, section, key))
            && (!Holds(values, section, key) && Lookup(d.values, section, key) == Lookup(m.values, section, key) ==>
                  Lookup(d'.values, section, key) == Lookup(m'.values, section, key))
    decreases lines
  {
    hide Sound, ParseStep, OutLine, NamedKey, UserSection, Lookup, SectionAfter;
    if lines != [] {
      var raw := lines[0];
      var line := OutLine(raw, UserSection(values, d.current, raw));
      StepLaw(values, d, m, raw, section, key);
      EnterIsSectionAfter(d, raw);
      NamedIsHeld(values, d.current, raw);
      assert OutLines(values, d.current, lines)[1..] == OutLines(values, SectionAfter(d.current, raw), lines[1..]);
      PassLaw(values, ParseStep(d, raw), ParseStep(m, line), lines[1..], section, key);
    }
  }

  lemma NamedIsHeld(values: Values, current: Option<string>, raw: string)
    ensures NamedKey(raw, UserSection(values, current, raw)).Some? ==>
              current.Some? && Holds(values, current.value, NamedKey(raw, UserSection(values, current, raw)).value)
  {
  }

  /** A section without a header is neither written to by the pass nor known to the parser. */
  lemma {:induction false} NotEmitted(values: Values, d: Parse, lines: seq<string>, section: string, key: string)
    requires d.current != Some(section) && section !in Emitted(lines)
    ensures (section, key) !in Written(values, d.current, lines)
    ensures Lookup(ParseFrom(d, lines).values, section, key) == Lookup(d.values, section, key)
    decreases lines
  {
    hide UserSection, NamedKey, EffectOf, Strip, IsSectionHeader, SectionName;
    if lines != [] {
      EnterIsSectionAfter(d, lines[0]);
      NotEmitted(values, ParseStep(d, lines[0]), lines[1..], section, key);
    }
  }

  // ---- appending the sections the new default has no header for ------------------------------

  function KeyLines(keys: seq<string>, u: map<string, string>): seq<string>
    requires forall k <- keys :: k in u
    decreases keys
  {
    if keys == [] then [] else [KeyLine(keys[0], u[keys[0]])] + KeyLines(keys[1..], u)
  }

  predicate EndsWithBreak(line: string) {
    line != "" && line[|line| - 1] == '\n'
  }

  /** The blank lines put in front of an appended section. */
  function Spaced(out: seq<string>): seq<string> {
    var o := if out != [] && !EndsWithBreak(out[|out| - 1]) then out + ["\n"] else out;
    if o != [] && Strip(o[|o| - 1]) != "" then o + ["\n"] else o
  }

  /** An appended section starts on a line of its own. In front of it goes at most one line break, and none
      if there is nothing or an empty line already: after an unfinished line it only finishes that one. */
  lemma SpacedIs(out: seq<string>)
    ensures out <= Spaced(out) && |Spaced(out)| <= |out| + 1
    ensures forall i | |out| <= i < |Spaced(out)| :: Spaced(out)[i] == "\n"
    ensures Spaced(out) == []
            || (EndsWithBreak(Spaced(out)[|Spaced(out)| - 1]) && Strip(Spaced(out)[|Spaced(out)| - 1]) == "")
    ensures out != [] && EndsWithBreak(out[|out| - 1]) && Strip(out[|out| - 1]) == "" ==> Spaced(out) == out
  {
    assert Strip("\n") == "" by {
      assert LStrip("\n") == "";
    }
  }

  ghost function AppendSection(out: seq<string>, section: string, u: map<string, string>): seq<string> {
    S.InElementsOf(u.Keys);
    Spaced(out) + [HeaderLine(section)] + KeyLines(S.Sorted(u.Keys), u)
  }

  lemma {:induction false} KeyLinesAt(keys: seq<string>, u: map<string, string>)
    requires forall k <- keys :: k in u
    ensures var lines := KeyLines(keys, u);
            |lines| == |keys| && forall i | 0 <= i < |keys| :: lines[i] == KeyLine(keys[i], u[keys[i]])
    decreases keys
  {
    hide KeyLine;
    if keys != [] {
      KeyLinesAt(keys[1..], u);
    }
  }

  /** An appended section is its header and then every key once, in ascending order, with its value. */
  lemma AppendedSection(out: seq<string>, section: string, u: map<string, string>, keys: seq<string>)
    requires S.Ascending(keys) && S.Elements(keys) == u.Keys
    ensures var n, all := |Spaced(out)|, AppendSection(out, section, u);
            && |all| == n + 1 + |keys| && all[..n] == Spaced(out) && all[n] == "[" + section + "]\n"
            && forall i | 0 <= i < |keys| :: keys[i] in u && all[n + 1 + i] == keys[i] + ": " + u[keys[i]] + "\n"
  {
    hide Spaced, KeyLines, S.Ascending, S.Elements;
    S.InElementsOf(u.Keys);
    S.AscendingIsUnique(keys, S.Sorted(u.Keys));
    KeyLinesAt(keys, u);
    var front, lines := Spaced(out), KeyLines(keys, u);
    assert AppendSection(out, section, u) == (front + [HeaderLine(section)]) + lines;
    assert |(front + [HeaderLine(section)])| == |front| + 1;
    forall i | 0 <= i < |keys|
      ensures keys[i] in u && lines[i] == keys[i] + ": " + u[keys[i]] + "\n"
    {
      assert keys[i] in S.Sorted(u.Keys);
    }
  }

  predicate Appends(values: Values, emitted: set<string>, section: string) {
    section !in emitted && section in values && values[section] != map[]
  }

  ghost function AppendFrom(values: Values, emitted: set<string>, sections: seq<string>, out: seq<string>): seq<string>
    decreases sections
  {
    if sections == [] then out
    else AppendFrom(values, emitted, sections[1..],
                    if Appends(values, emitted, sections[0]) then AppendSection(out, sections[0], values[sections[0]])
                    else out)
  }

  /** The merged file, element by element as it is written out. */
  ghost function Merged(values: Values, lines: seq<string>): seq<string> {
    AppendFrom(values, Emitted(lines), S.Sorted(values.Keys), OutLines(values, None, lines))
  }

  lemma {:induction false} ParseConcat(p: Parse, a: seq<string>, b: seq<string>)
    ensures ParseFrom(p, a + b) == ParseFrom(ParseFrom(p, a), b)
    decreases a
  {
    hide ParseStep;
    if a == [] {
      assert a + b == b;
    } else {
      assert (a + b)[1..] == a[1..] + b;
      ParseConcat(ParseStep(p, a[0]), a[1..], b);
    }
  }

  lemma {:induction false} ParseKeyLines(p: Parse, keys: seq<string>, u: map<string, string>,
                                         section: string, key: string)
    requires (forall k <- keys :: k in u) && SoundSection(u) && p.current.Some?
    ensures var q := ParseFrom(p, KeyLines(keys, u));
            && q.current == p.current
            && Lookup(q.values, section, key)
               == if p.current == Some(section) && key in keys then Some(u[key]) else Lookup(p.values, section, key)
    decreases keys
  {
    hide ParseStep, KeyLine, EffectOf, Lookup, IsIdent, Stripped, NoBreak;
    if keys != [] {
      var line := KeyLine(keys[0], u[keys[0]]);
      KeyLineEffect(keys[0], u[keys[0]]);
      BindLookup(p, keys[0], u[keys[0]], section, key, line);
      ParseKeyLines(ParseStep(p, line), keys[1..], u, section, key);
      assert KeyLines(keys, u)[1..] == KeyLines(keys[1..], u);
      assert key in keys <==> key == keys[0] || key in keys[1..];
    }
  }

  lemma BreakStep(p: Parse)
    ensures ParseStep(p, "\n") == p
  {
    hide EffectOf;
    LineBreakEffect("x");
  }

  lemma ParseSpaced(p: Parse, out: seq<string>)
    ensures ParseFrom(p, Spaced(out)) == ParseFrom(p, out)
  {
    hide ParseStep, Strip;
    var q := ParseFrom(p, out);
    BreakStep(q);
    var b := ["\n"];
    assert ParseFrom(q, b) == q by {
      assert ParseFrom(q, b) == ParseFrom(ParseStep(q, "\n"), b[1..]);
    }
    ParseConcat(p, out, b);
    ParseConcat(p, out + b, b);
  }

  lemma ParseAppended(p: Parse, out: seq<string>, s: string, u: map<string, string>, section: string, key: string)
    requires SoundSection(u) && IsAceName(s)
    ensures Lookup(ParseFrom(p, AppendSection(out, s, u)).values, section, key)
         == if s == section && key in u then Some(u[key]) else Lookup(ParseFrom(p, out).values, section, key)
  {
    hide ParseStep, KeyLine, HeaderLine, EffectOf, Lookup, IsAceName, SoundSection, Spaced, KeyLines;
    S.InElementsOf(u.Keys);
    var keys := S.Sorted(u.Keys);
    var q := ParseFrom(p, out);
    var header := [HeaderLine(s)];
    var r := ParseStep(q, HeaderLine(s));
    ParseSpaced(p, out);
    ParseConcat(p, Spaced(out) + header, KeyLines(keys, u));
    ParseConcat(p, Spaced(out), header);
    assert ParseFrom(q, header) == r by {
      assert ParseFrom(q, header) == ParseFrom(r, header[1..]);
    }
    HeaderStep(q, s, section, key);
    ParseKeyLines(r, keys, u, section, key);
  }

  lemma HeaderStep(q: Parse, s: string, section: string, key: string)
    requires IsAceName(s)
    ensures ParseStep(q, HeaderLine(s)).current == Some(s)
    ensures Lookup(ParseStep(q, HeaderLine(s)).values, section, key) == Lookup(q.values, section, key)
  {
    hide EffectOf, IsAceName, HeaderLine;
    HeaderLineEffect(s);
  }

  /** The appended sections, read back. */
  lemma {:induction false} AppendLaw(values: Values, emitted: set<string>, sections: seq<string>, p: Parse,
                                     out: seq<string>, section: string, key: string)
    requires Sound(values) && forall s <- sections :: s in values
    ensures Lookup(ParseFrom(p, AppendFrom(values, emitted, sections, out)).values, section, key)
         == if section in sections && section !in emitted && Holds(values, section, key) then Some(values[section][key])
            else Lookup(ParseFrom(p, out).values, section, key)
    decreases sections
  {
    hide ParseFrom, AppendSection, Lookup, IsAceName, SoundSection;
    if sections != [] {
      var s := sections[0];
      var next := if Appends(values, emitted, s) then AppendSection(out, s, values[s]) else out;
      AppendLaw(values, emitted, sections[1..], p, next, section, key);
      if Appends(values, emitted, s) {
        ParseAppended(p, out, s, values[s], section, key);
      }
      assert section in sections <==> section == s || section in sections[1..];
    }
  }

  // ---- reading the merged file back --------------------------------------------------------------

  /** Elements that concatenate into a file: an unfinished line is last or followed by its line break. */
  predicate Shaped(out: seq<string>) {
    forall i | 0 <= i < |out| ::
      Terminated(out[i]) || (Unterminated(out[i]) && (i == |out| - 1 || out[i + 1] == "\n"))
  }

  /** The lines of the concatenation. */
  function Fused(out: seq<string>): seq<string>
    decreases |out|
  {
    if out == [] then []
    else if |out| >= 2 && !EndsWithBreak(out[0]) then [out[0] + out[1]] + Fused(out[2..])
    else [out[0]] + Fused(out[1..])
  }

  lemma {:induction false} LinesOfShaped(out: seq<string>)
    requires Shaped(out)
    ensures Lines(Flatten(out)) == Fused(out)
    decreases |out|
  {
    assert Lines("") == [];
    hide Lines, Terminated, Unterminated;
    if out != [] {
      assert Shaped(out[1..]);
      var rest := Flatten(out[1..]);
      BreakOrNot(out[0]);
      if |out| >= 2 && !EndsWithBreak(out[0]) {
        assert Shaped(out[2..]);
        assert out[1..][1..] == out[2..];
        assert rest == "\n" + Flatten(out[2..]);
        assert out[0] + rest == (out[0] + "\n") + Flatten(out[2..]);
        LinesOfCons(out[0] + "\n", Flatten(out[2..]));
        LinesOfShaped(out[2..]);
      } else {
        assert |out| == 1 ==> rest == "";
        LinesOfCons(out[0], rest);
        LinesOfShaped(out[1..]);
      }
    }
  }

  lemma BreakOrNot(line: string)
    ensures Terminated(line) ==> EndsWithBreak(line)
    ensures Unterminated(line) ==> !EndsWithBreak(line) && Terminated(line + "\n")
  {
  }

  lemma {:induction false} ParseFused(p: Parse, out: seq<string>)
    requires Shaped(out)
    ensures ParseFrom(p, Fused(out)) == ParseFrom(p, out)
    decreases |out|
  {
    hide ParseStep, Terminated, Unterminated, EndsWithBreak;
    if out != [] {
      assert Shaped(out[1..]);
      BreakOrNot(out[0]);
      if |out| >= 2 && !EndsWithBreak(out[0]) {
        assert Shaped(out[2..]);
        assert out[1..][1..] == out[2..] && out[1..][0] == "\n";
        var q := ParseStep(p, out[0]);
        BrokenStep(p, out[0]);
        BreakStep(q);
        ParseFused(q, out[2..]);
        assert Fused(out)[1..] == Fused(out[2..]);
      } else {
        ParseFused(ParseStep(p, out[0]), out[1..]);
        assert Fused(out)[1..] == Fused(out[1..]);
      }
    }
  }

  lemma BrokenStep(p: Parse, line: string)
    requires Unterminated(line)
    ensures ParseStep(p, line + "\n") == ParseStep(p, line)
  {
    hide EffectOf;
    LineBreakEffect(line);
  }

  lemma KeyLineIsLine(key: string, value: string)
    requires IsIdent(key) && NoBreak(value)
    ensures Terminated(KeyLine(key, value))
  {
    assert forall i | 0 <= i < |key| :: IdentChar(key[i]);
    var l := KeyLine(key, value);
    assert l == (key + ": " + value) + "\n";
  }

  lemma HeaderLineIsLine(section: string)
    requires NoBreak(section)
    ensures Terminated(HeaderLine(section))
  {
    assert HeaderLine(section) == ("[" + section + "]") + "\n";
  }

  lemma OutLineShape(raw: string, u: map<string, string>)
    requires SoundSection(u)
    ensures OutLine(raw, u) == raw || Terminated(OutLine(raw, u))
  {
    hide Strip, MatchKey, IsIdent, Stripped, NoBreak, KeyLine, Terminated;
    var named := NamedKey(raw, u);
    if named.Some? {
      KeyLineIsLine(named.value, u[named.value]);
    }
  }

  lemma {:induction false} OutLinesShape(values: Values, current: Option<string>, lines: seq<string>)
    requires Sound(values)
    requires forall i | 0 <= i < |lines| - 1 :: Terminated(lines[i])
    requires lines != [] ==> Terminated(lines[|lines| - 1]) || Unterminated(lines[|lines| - 1])
    ensures Shaped(OutLines(values, current, lines))
    decreases lines
  {
    hide OutLine, SectionAfter, Terminated, Unterminated, IsSectionHeader, Strip, SoundSection;
    if lines != [] {
      var u := UserSection(values, current, lines[0]);
      NothingIsSound();
      OutLineShape(lines[0], u);
      OutLinesShape(values, SectionAfter(current, lines[0]), lines[1..]);
      var rest := OutLines(values, SectionAfter(current, lines[0]), lines[1..]);
      assert |rest| == 0 <==> |lines| == 1;
      ShapedCons(OutLine(lines[0], u), rest);
    }
  }

  lemma NothingIsSound()
    ensures SoundSection(map[])
  {
  }

  lemma ShapedCons(line: string, rest: seq<string>)
    requires Shaped(rest) && (Terminated(line) || (Unterminated(line) && rest == []))
    ensures Shaped([line] + rest)
  {
    hide Terminated, Unterminated;
    var out := [line] + rest;
    forall i | 0 <= i < |out|
      ensures Terminated(out[i]) || (Unterminated(out[i]) && (i == |out| - 1 || out[i + 1] == "\n"))
    {
      if i > 0 {
        assert out[i] == rest[i - 1];
        assert i < |rest| ==> out[i + 1] == rest[i];
      }
    }
  }

  lemma ShapedSnoc(a: seq<string>, line: string)
    requires Shaped(a) && Terminated(line)
    requires a == [] || EndsWithBreak(a[|a| - 1]) || line == "\n"
    ensures Shaped(a + [line]) && EndsWithBreak(line)
  {
    BreakOrNot(line);
    if a != [] {
      BreakOrNot(a[|a| - 1]);
    }
    hide Terminated, Unterminated, EndsWithBreak;
    var out := a + [line];
    forall i | 0 <= i < |out|
      ensures Terminated(out[i]) || (Unterminated(out[i]) && (i == |out| - 1 || out[i + 1] == "\n"))
    {
      if i < |a| {
        assert out[i] == a[i];
        assert i + 1 < |a| ==> out[i + 1] == a[i + 1];
      }
    }
  }

  lemma SpacedShape(out: seq<string>)
    requires Shaped(out)
    ensures Shaped(Spaced(out))
    ensures Spaced(out) == [] || EndsWithBreak(Spaced(out)[|Spaced(out)| - 1])
  {
    assert Terminated("\n");
    hide Strip, Terminated, Unterminated, Shaped;
    var o := if out != [] && !EndsWithBreak(out[|out| - 1]) then out + ["\n"] else out;
    if o != out {
      ShapedSnoc(out, "\n");
    }
    if Spaced(out) != o {
      ShapedSnoc(o, "\n");
    }
  }

  lemma {:induction false} KeyLinesShape(a: seq<string>, keys: seq<string>, u: map<string, string>)
    requires Shaped(a) && a != [] && EndsWithBreak(a[|a| - 1])
    requires SoundSection(u) && forall k <- keys :: k in u
    ensures Shaped(a + KeyLines(keys, u))
    decreases keys
  {
    hide Shaped, EndsWithBreak, KeyLine, IsIdent, Stripped, NoBreak, Terminated;
    if keys == [] {
      assert a + KeyLines(keys, u) == a;
    } else {
      var line := KeyLine(keys[0], u[keys[0]]);
      KeyLineIsLine(keys[0], u[keys[0]]);
      ShapedSnoc(a, line);
      assert (a + [line])[|a|] == line;
      KeyLinesShape(a + [line], keys[1..], u);
      var rest := KeyLines(keys[1..], u);
      assert KeyLines(keys, u) == [line] + rest;
      hide KeyLines;
      assert a + ([line] + rest) == a + [line] + rest;
    }
  }

  lemma AppendSectionShape(out: seq<string>, section: string, u: map<string, string>)
    requires Shaped(out) && SoundSection(u) && NoBreak(section)
    ensures Shaped(AppendSection(out, section, u))
  {
    hide Shaped, EndsWithBreak, SoundSection, HeaderLine, NoBreak, Spaced, Terminated, KeyLines;
    S.InElementsOf(u.Keys);
    SpacedShape(out);
    HeaderLineIsLine(section);
    ShapedSnoc(Spaced(out), HeaderLine(section));
    KeyLinesShape(Spaced(out) + [HeaderLine(section)], S.Sorted(u.Keys), u);
  }

  lemma {:induction false} AppendShape(values: Values, emitted: set<string>, sections: seq<string>, out: seq<string>)
    requires Sound(values) && Shaped(out) && forall s <- sections :: s in values
    ensures Shaped(AppendFrom(values, emitted, sections, out))
    decreases sections
  {
    hide Shaped, SoundSection, IsAceName, AppendSection, NoBreak;
    if sections != [] {
      var s := sections[0];
      if Appends(values, emitted, s) {
        AppendSectionShape(out, s, values[s]);
      }
      AppendShape(values, emitted, sections[1..],
                  if Appends(values, emitted, s) then AppendSection(out, s, values[s]) else out);
    }
  }

  lemma MergedShape(values: Values, text: string)
    requires Sound(values)
    ensures Shaped(Merged(values, Lines(text)))
  {
    hide Shaped, Sound, Lines, Terminated, Unterminated;
    LinesAre(text);
    OutLinesShape(values, None, Lines(text));
    S.InElementsOf(values.Keys);
    AppendShape(values, Emitted(Lines(text)), S.Sorted(values.Keys), OutLines(values, None, Lines(text)));
  }

  // ---- the merge -------------------------------------------------------------------------------------

  /** A user key the merge reports instead of writing: its section is there, but no line names it. */
  predicate Orphan(values: Values, lines: seq<string>, section: string, key: string) {
    Holds(values, section, key) && section in Emitted(lines) && (section, key) !in Written(values, None, lines)
  }

  /** The text of the merged file. */
  ghost function MergedText(userText: string, newText: string): string {
    Flatten(Merged(ValuesOf(userText), Lines(newText)))
  }

  /**
   * The merge law: read back, the merged file gives every user key the user's
   * value unless it is an orphan, every other key its new default.
   */
  lemma MergeLaw(userText: string, newText: string, section: string, key: string)
    ensures var user := ValuesOf(userText);
            Lookup(ValuesOf(MergedText(userText, newText)), section, key)
            == if !Holds(user, section, key) then Lookup(ValuesOf(newText), section, key)
               else if Orphan(user, Lines(newText), section, key) then None
               else Lookup(user, section, key)
  {
    hide ParseFrom, Lines, Flatten, Written, Emitted, OutLines, AppendFrom, Shaped, Sound;
    var user, lines := ValuesOf(userText), Lines(newText);
    ValuesAreSound(userText);
    MergedShape(user, newText);
    LinesOfShaped(Merged(user, lines));
    ParseFused(START, Merged(user, lines));
    S.InElementsOf(user.Keys);
    AppendLaw(user, Emitted(lines), S.Sorted(user.Keys), START, OutLines(user, None, lines), section, key);
    PassLaw(user, START, START, lines, section, key);
    if section !in Emitted(lines) {
      NotEmitted(user, START, lines, section, key);
    }
  }

  /** The section a line belongs to. */
  function SectionAt(current: Option<string>, lines: seq<string>, i: nat): Option<string>
    requires i <= |lines|
    decreases i
  {
    if i == 0 then current else SectionAt(SectionAfter(current, lines[0]), lines[1..], i - 1)
  }

  lemma {:induction false} OutLineAt(values: Values, current: Option<string>, lines: seq<string>, i: nat)
    requires i < |lines|
    ensures |OutLines(values, current, lines)| == |lines|
    ensures OutLines(values, current, lines)[i]
         == OutLine(lines[i], UserSection(values, SectionAt(current, lines, i), lines[i]))
    decreases lines
  {
    hide OutLine, UserSection, SectionAfter;
    if |lines| > 1 {
      OutLineAt(values, SectionAfter(current, lines[0]), lines[1..], if i == 0 then 0 else i - 1);
    }
  }

  lemma {:induction false} AppendKeeps(values: Values, emitted: set<string>, sections: seq<string>, out: seq<string>)
    ensures out <= AppendFrom(values, emitted, sections, out)
    decreases sections
  {
    hide KeyLines, HeaderLine, Strip;
    if sections != [] {
      var s := sections[0];
      var next := if Appends(values, emitted, s) then AppendSection(out, s, values[s]) else out;
      AppendKeeps(values, emitted, sections[1..], next);
    }
  }

  /**
   * The merged file starts with the default, line for line; a line changes only
   * inside one of the user's sections, at column 0, where it names a user key.
   */
  lemma RestIsVerbatim(values: Values, lines: seq<string>, i: nat)
    requires i < |lines|
    ensures |lines| <= |Merged(values, lines)|
    ensures var section, line := SectionAt(None, lines, i), Merged(values, lines)[i];
            line == lines[i]
            || (&& section.Some? && section.value in values && !IsSectionHeader(Strip(lines[i])) && !Indented(lines[i])
                && exists key :: key in values[section.value] && NamedKey(lines[i], values[section.value]) == Some(key)
                                 && line == KeyLine(key, values[section.value][key]))
  {
    hide OutLines, AppendFrom, SectionAt, KeyLine, Strip, MatchKey, MatchCommented, IsSectionHeader, Emitted;
    OutLineAt(values, None, lines, i);
    AppendKeeps(values, Emitted(lines), S.Sorted(values.Keys), OutLines(values, None, lines));
    var u := UserSection(values, SectionAt(None, lines, i), lines[i]);
    assert Merged(values, lines)[i] == OutLine(lines[i], u);
  }

  predicate NoHeaders(lines: seq<string>, lo: nat, hi: nat)
    requires hi <= |lines|
  {
    forall m | lo <= m < hi :: !IsSectionHeader(Strip(lines[m]))
  }

  /** Before the first header a line belongs to no section. */
  lemma {:induction false} SectionBefore(current: Option<string>, lines: seq<string>, i: nat)
    requires i <= |lines| && NoHeaders(lines, 0, i)
    ensures SectionAt(current, lines, i) == current
    decreases i
  {
    hide IsSectionHeader, SectionName, Strip;
    if i > 0 {
      var rest := lines[1..];
      assert forall m | 0 <= m < |rest| :: rest[m] == lines[m + 1];
      SectionBefore(current, rest, i - 1);
    }
  }

  /** And then to the section of the last header before it. */
  lemma {:induction false} SectionIs(current: Option<string>, lines: seq<string>, i: nat, j: nat)
    requires j < i <= |lines| && IsSectionHeader(Strip(lines[j])) && NoHeaders(lines, j + 1, i)
    ensures SectionAt(current, lines, i) == SectionName(Strip(lines[j]))
    decreases i
  {
    hide IsSectionHeader, SectionName, Strip;
    var rest, after := lines[1..], SectionAfter(current, lines[0]);
    assert forall m | 0 <= m < |rest| :: rest[m] == lines[m + 1];
    if j == 0 {
      SectionBefore(after, rest, i - 1);
    } else {
      SectionIs(after, rest, i - 1, j - 1);
    }
  }

  /**
   * What becomes of every line of the default. At column 0 of one of the user's
   * sections, a line that sets a user key to another value, or has one
   * commented out, is replaced by that key's line. Every other line stays as it
   * is, to the character: one that sets the key to the user's value already,
   * one of a key the user does not have, a header, an indented one, and all of
   * foreign sections.
   */
  lemma DefaultLine(values: Values, lines: seq<string>, i: nat)
    requires i < |lines|
    ensures |lines| <= |Merged(values, lines)|
    ensures var raw, out, section := lines[i], Merged(values, lines)[i], SectionAt(None, lines, i);
            if section.None? || section.value !in values || IsSectionHeader(Strip(raw)) || Indented(raw) then out == raw
            else
              var u := values[section.value];
              && (forall key, value | KeyText(Strip(raw), key, value) ::
                    out == if key in u && u[key] != value then KeyLine(key, u[key]) else raw)
              && (forall key | MatchCommented(Strip(raw)) == Some(key) ::
                    out == if key in u then KeyLine(key, u[key]) else raw)
              && ((forall key, value :: !KeyText(Strip(raw), key, value)) && MatchCommented(Strip(raw)).None? ==>
                    out == raw)
  {
    hide OutLines, AppendFrom, SectionAt, KeyLine, Strip, MatchKey, MatchCommented, IsSectionHeader, Emitted, KeyText;
    OutLineAt(values, None, lines, i);
    AppendKeeps(values, Emitted(lines), S.Sorted(values.Keys), OutLines(values, None, lines));
    var raw, section := lines[i], SectionAt(None, lines, i);
    var u := UserSection(values, section, raw);
    assert Merged(values, lines)[i] == OutLine(raw, u);
    EitherKeyOrComment(Strip(raw));
    forall key, value
      ensures MatchKey(Strip(raw)) == Some(KeyValue(key, value)) <==> KeyText(Strip(raw), key, value)
    {
      MatchKeyIff(Strip(raw), key, value);
    }
    if MatchKey(Strip(raw)).Some? {
      assert KeyText(Strip(raw), MatchKey(Strip(raw)).value.key, MatchKey(Strip(raw)).value.value);
    }
  }

  lemma EitherKeyOrComment(s: string)
    ensures MatchKey(s).None? || MatchCommented(s).None?
  {
  }

  /** A line names a user key: sets it, or has it commented out. */
  ghost predicate NamesKey(raw: string, key: string) {
    !Indented(raw) && ((exists value :: KeyText(Strip(raw), key, value)) || MatchCommented(Strip(raw)) == Some(key))
  }

  lemma NamedKeyIff(raw: string, u: map<string, string>, key: string)
    ensures NamedKey(raw, u) == Some(key) <==> key in u && NamesKey(raw, key)
  {
    hide MatchKey, MatchCommented, Strip, KeyText;
    EitherKeyOrComment(Strip(raw));
    if MatchKey(Strip(raw)).Some? {
      var kv := MatchKey(Strip(raw)).value;
      MatchKeyIff(Strip(raw), kv.key, kv.value);
    }
    if value :| KeyText(Strip(raw), key, value) {
      MatchKeyIff(Strip(raw), key, value);
    }
  }

  /** Line `i` finds a key of a section. */
  ghost predicate FindsKey(current: Option<string>, lines: seq<string>, section: string, key: string, i: nat)
    requires i < |lines|
  {
    SectionAt(current, lines, i) == Some(section) && !IsSectionHeader(Strip(lines[i])) && NamesKey(lines[i], key)
  }

  /** A user key is written in place exactly when some line of its section in the default names it; the
      orphans are the others of the sections that the default has a header for. */
  lemma {:induction false} WrittenIff(values: Values, current: Option<string>, lines: seq<string>,
                                      section: string, key: string)
    ensures (section, key) in Written(values, current, lines)
       <==> Holds(values, section, key) && exists i: nat :: i < |lines| && FindsKey(current, lines, section, key, i)
    decreases lines
  {
    hide NamesKey, IsSectionHeader, Strip, NamedKey, SectionName;
    if lines != [] {
      var rest, after := lines[1..], SectionAfter(current, lines[0]);
      WrittenIff(values, after, rest, section, key);
      NamedKeyIff(lines[0], UserSection(values, current, lines[0]), key);
      forall i: nat | i < |rest|
        ensures FindsKey(after, rest, section, key, i) == FindsKey(current, lines, section, key, i + 1)
      {
        assert rest[i] == lines[i + 1];
      }
      if i: nat :| i < |lines| && FindsKey(current, lines, section, key, i) {
        if i > 0 {
          assert FindsKey(after, rest, section, key, i - 1);
        }
      }
      if (section, key) in Written(values, current, lines) && (section, key) !in Written(values, after, rest) {
        assert FindsKey(current, lines, section, key, 0);
      }
    }
  }

  /** The sections the default has a header for. */
  lemma {:induction false} EmittedIff(lines: seq<string>, section: string)
    ensures section in Emitted(lines)
       <==> exists l :: l in lines && IsSectionHeader(Strip(l)) && SectionName(Strip(l)) == Some(section)
    decreases lines
  {
    hide IsSectionHeader, Strip, SectionName;
    if lines != [] {
      EmittedIff(lines[1..], section);
      assert forall l :: l in lines <==> l == lines[0] || l in lines[1..];
    }
  }

  // ---- the loops of merge -----------------------------------------------------------------------------

  function Pairs(section: string, keys: seq<string>): set<(string, string)> {
    set k | k in keys :: (section, k)
  }

  /** The pairs the appended sections write. */
  ghost function AppendedPairs(values: Values, emitted: set<string>, sections: seq<string>): set<(string, string)>
    decreases sections
  {
    if sections == [] then {} else
      (if Appends(values, emitted, sections[0]) then Pairs(sections[0], S.Sorted(values[sections[0]].Keys)) else {})
      + AppendedPairs(values, emitted, sections[1..])
  }

  lemma OutAdvances(values: Values, current: Option<string>, lines: seq<string>, i: nat, out: seq<string>)
    requires i < |lines|
    ensures out + OutLines(values, current, lines[i..])
         == out + [OutLine(lines[i], UserSection(values, current, lines[i]))]
            + OutLines(values, SectionAfter(current, lines[i]), lines[i + 1..])
  {
    hide OutLine, UserSection, SectionAfter;
    assert lines[i..][0] == lines[i] && lines[i..][1..] == lines[i + 1..];
  }

  lemma WrittenAdvances(values: Values, current: Option<string>, lines: seq<string>, i: nat,
                        written: set<(string, string)>)
    requires i < |lines|
    ensures var named := NamedKey(lines[i], UserSection(values, current, lines[i]));
            written + Written(values, current, lines[i..])
            == (if named.Some? && current.Some? then written + {(current.value, named.value)} else written)
            + Written(values, SectionAfter(current, lines[i]), lines[i + 1..])
  {
    hide NamedKey, UserSection, SectionAfter;
    assert lines[i..][0] == lines[i] && lines[i..][1..] == lines[i + 1..];
  }

  lemma EmittedAdvances(lines: seq<string>, i: nat, emitted: set<string>)
    requires i < |lines|
    ensures var entered := SectionAfter(None, lines[i]);
            emitted + Emitted(lines[i..])
            == (if entered.Some? then emitted + {entered.value} else emitted) + Emitted(lines[i + 1..])
  {
    hide SectionAfter;
    assert lines[i..][0] == lines[i] && lines[i..][1..] == lines[i + 1..];
  }

  /** Where the pass stands after `i` lines. */
  predicate PassAt(values: Values, lines: seq<string>, i: nat, current: Option<string>, out: seq<string>,
                   written: set<(string, string)>, emitted: set<string>)
  {
    && i <= |lines|
    && out + OutLines(values, current, lines[i..]) == OutLines(values, None, lines)
    && written + Written(values, current, lines[i..]) == Written(values, None, lines)
    && emitted + Emitted(lines[i..]) == Emitted(lines)
  }

  lemma PassStarts(values: Values, lines: seq<string>)
    ensures PassAt(values, lines, 0, None, [], {}, {})
  {
    hide OutLines, Written, Emitted;
    assert lines[0..] == lines;
  }

  lemma PassEnds(values: Values, lines: seq<string>, current: Option<string>, out: seq<string>,
                 written: set<(string, string)>, emitted: set<string>)
    requires PassAt(values, lines, |lines|, current, out, written, emitted)
    ensures out == OutLines(values, None, lines)
    ensures written == Written(values, None, lines) && emitted == Emitted(lines)
  {
    assert lines[|lines|..] == [];
    assert OutLines(values, current, []) == [] && Written(values, current, []) == {} && Emitted([]) == {};
    hide OutLines, Written, Emitted;
  }

  lemma PassAdvances(values: Values, lines: seq<string>, i: nat, current: Option<string>, out: seq<string>,
                     written: set<(string, string)>, emitted: set<string>)
    requires i < |lines| && PassAt(values, lines, i, current, out, written, emitted)
    ensures var u := UserSection(values, current, lines[i]);
            var named, entered := NamedKey(lines[i], u), SectionAfter(None, lines[i]);
            PassAt(values, lines, i + 1, SectionAfter(current, lines[i]), out + [OutLine(lines[i], u)],
                   if named.Some? && current.Some? then written + {(current.value, named.value)} else written,
                   if entered.Some? then emitted + {entered.value} else emitted)
  {
    hide OutLine, NamedKey, UserSection, SectionAfter, OutLines, Written, Emitted;
    OutAdvances(values, current, lines, i, out);
    WrittenAdvances(values, current, lines, i, written);
    EmittedAdvances(lines, i, emitted);
  }

  method ApplyToDefault(values: Values, lines: seq<string>)
    returns (out: seq<string>, written: set<(string, string)>, emitted: set<string>)
    ensures out == OutLines(values, None, lines)
    ensures written == Written(values, None, lines) && emitted == Emitted(lines)
  {
    hide PassAt, OutLine, NamedKey, UserSection, SectionAfter, OutLines, Written, Emitted;
    var current: Option<string> := None;
    out, written, emitted := [], {}, {};
    PassStarts(values, lines);
    var i := 0;
    while i < |lines|
      invariant 0 <= i <= |lines|
      invariant PassAt(values, lines, i, current, out, written, emitted)
      decreases |lines| - i
    {
      var raw := lines[i];
      PassAdvances(values, lines, i, current, out, written, emitted);
      var line, named, next, entered := ApplyToLine(values, current, raw);
      if named.Some? && current.Some? {
        written := written + {(current.value, named.value)};
      }
      if entered.Some? {
        emitted := emitted + {entered.value};
      }
      current := next;
      out := out + [line];
      i := i + 1;
    }
    PassEnds(values, lines, current, out, written, emitted);
  }

  method ApplyToLine(values: Values, current: Option<string>, raw: string)
    returns (line: string, named: Option<string>, next: Option<string>, entered: Option<string>)
    ensures line == OutLine(raw, UserSection(values, current, raw))
    ensures named == NamedKey(raw, UserSection(values, current, raw))
    ensures next == SectionAfter(current, raw) && entered == SectionAfter(None, raw)
  {
    hide MatchKey, MatchCommented, KeyLine, IsAceName, Strip;
    line, named, next, entered := raw, None, current, None;
    var stripped := Strip(raw);
    if IsSectionHeader(stripped) {
      next := SectionName(stripped);
      entered := next;
    } else if current.Some? && current.value in values && !Indented(raw) {
      var u := values[current.value];
      var bound := MatchKey(stripped);
      if bound.Some? && bound.value.key in u {
        named := Some(bound.value.key);
        if u[bound.value.key] != bound.value.value {
          line := KeyLine(bound.value.key, u[bound.value.key]);
        }
      } else {
        var commented := MatchCommented(stripped);
        if commented.Some? && commented.value in u {
          named := commented;
          line := KeyLine(commented.value, u[commented.value]);
        }
      }
    }
  }

  method AppendOne(before: seq<string>, section: string, u: map<string, string>)
    returns (out: seq<string>, pairs: set<(string, string)>)
    ensures out == AppendSection(before, section, u)
    ensures pairs == Pairs(section, S.Sorted(u.Keys))
  {
    hide KeyLine, HeaderLine, Strip;
    S.InElementsOf(u.Keys);
    out := before;
    if out != [] && !EndsWithBreak(out[|out| - 1]) {
      out := out + ["\n"];
    }
    if out != [] && Strip(out[|out| - 1]) != "" {
      out := out + ["\n"];
    }
    assert out == Spaced(before);
    hide Spaced, S.Ascending, S.Elements;
    var keys := S.Sort(u.Keys);
    var lines;
    lines, pairs := WriteKeys(section, keys, u);
    out := out + [HeaderLine(section)] + lines;
  }

  method WriteKeys(section: string, keys: seq<string>, u: map<string, string>)
    returns (lines: seq<string>, pairs: set<(string, string)>)
    requires forall k <- keys :: k in u
    ensures lines == KeyLines(keys, u) && pairs == Pairs(section, keys)
  {
    hide KeyLine;
    lines, pairs := [], {};
    var i := 0;
    while i < |keys|
      invariant 0 <= i <= |keys|
      invariant lines + KeyLines(keys[i..], u) == KeyLines(keys, u)
      invariant pairs == Pairs(section, keys[..i])
      decreases |keys| - i
    {
      assert keys[i..][0] == keys[i] && keys[i..][1..] == keys[i + 1..];
      assert keys[..i + 1] == keys[..i] + [keys[i]];
      lines := lines + [KeyLine(keys[i], u[keys[i]])];
      pairs := pairs + {(section, keys[i])};
      i := i + 1;
    }
    assert keys[..i] == keys;
  }

  /** The orphans of `sections`, in order. */
  ghost function OrphansFrom(values: Values, written: set<(string, string)>, sections: seq<string>)
    : seq<(string, string)>
    requires forall s <- sections :: s in values
    decreases sections
  {
    if sections == [] then []
    else
      Unwritten(written, sections[0], S.Sorted(values[sections[0]].Keys))
      + OrphansFrom(values, written, sections[1..])
  }

  function Unwritten(written: set<(string, string)>, section: string, keys: seq<string>): seq<(string, string)>
    decreases keys
  {
    if keys == [] then []
    else if (section, keys[0]) in written then Unwritten(written, section, keys[1..])
    else [(section, keys[0])] + Unwritten(written, section, keys[1..])
  }

  /** Pairs in ascending order, each once: by section, and within a section by key. */
  predicate PairsAscend(pairs: seq<(string, string)>) {
    forall i, j | 0 <= i < j < |pairs| ::
      S.Less(pairs[i].0, pairs[j].0) || (pairs[i].0 == pairs[j].0 && S.Less(pairs[i].1, pairs[j].1))
  }

  method Merge(userText: string, newText: string) returns (text: string, orphans: seq<(string, string)>)
    ensures text == MergedText(userText, newText)
    ensures forall s, k :: (s, k) in orphans <==> Orphan(ValuesOf(userText), Lines(newText), s, k)
    ensures PairsAscend(orphans)
  {
    hide Lines, Sound, ParseFrom, AppendSection, Pairs, Flatten, Emitted, Written, OutLines, Unwritten;
    hide Orphan, OrphansFrom, PairsAscend, S.Ascending, S.Elements;
    var values := ParseUserValues(userText);
    var lines := Lines(newText);
    var out, written, emitted := ApplyToDefault(values, lines);
    ghost var passWritten := written;
    var sections := S.Sort(values.Keys);
    S.InElementsOf(values.Keys);
    var i := 0;
    while i < |sections|
      invariant 0 <= i <= |sections|
      invariant AppendFrom(values, emitted, sections[i..], out) == Merged(values, lines)
      invariant written + AppendedPairs(values, emitted, sections[i..])
             == passWritten + AppendedPairs(values, emitted, sections)
      decreases |sections| - i
    {
      var section := sections[i];
      assert sections[i..][0] == section && sections[i..][1..] == sections[i + 1..];
      if Appends(values, emitted, section) {
        var pairs;
        out, pairs := AppendOne(out, section, values[section]);
        written := written + pairs;
      }
      i := i + 1;
    }
    assert sections[i..] == [];
    orphans := ListOrphans(values, written, sections);
    text := Join(out);
    OrphansAre(values, lines, written);
    OrphansAscend(values, written, sections);
  }

  method ListOrphans(values: Values, written: set<(string, string)>, sections: seq<string>)
    returns (orphans: seq<(string, string)>)
    requires sections == S.Sorted(values.Keys) && forall s <- sections :: s in values
    ensures orphans == OrphansFrom(values, written, sections)
  {
    hide Unwritten, S.Ascending, S.Elements;
    orphans := [];
    var i := 0;
    while i < |sections|
      invariant 0 <= i <= |sections|
      invariant orphans + OrphansFrom(values, written, sections[i..]) == OrphansFrom(values, written, sections)
      decreases |sections| - i
    {
      assert sections[i..][0] == sections[i] && sections[i..][1..] == sections[i + 1..];
      var keys := S.Sort(values[sections[i]].Keys);
      var unwritten := ListUnwritten(written, sections[i], keys);
      orphans := orphans + unwritten;
      i := i + 1;
    }
  }

  method ListUnwritten(written: set<(string, string)>, section: string, keys: seq<string>)
    returns (r: seq<(string, string)>)
    ensures r == Unwritten(written, section, keys)
  {
    r := [];
    var i := 0;
    while i < |keys|
      invariant 0 <= i <= |keys|
      invariant r + Unwritten(written, section, keys[i..]) == Unwritten(written, section, keys)
      decreases |keys| - i
    {
      assert keys[i..][0] == keys[i] && keys[i..][1..] == keys[i + 1..];
      if (section, keys[i]) !in written {
        r := r + [(section, keys[i])];
      }
      i := i + 1;
    }
  }

  method Join(lines: seq<string>) returns (text: string)
    ensures text == Flatten(lines)
  {
    text := "";
    var i := 0;
    while i < |lines|
      invariant 0 <= i <= |lines|
      invariant text + Flatten(lines[i..]) == Flatten(lines)
      decreases |lines| - i
    {
      assert lines[i..][0] == lines[i] && lines[i..][1..] == lines[i + 1..];
      text := text + lines[i];
      i := i + 1;
    }
  }

  lemma {:induction false} UnwrittenAre(written: set<(string, string)>, section: string, keys: seq<string>,
                                        s: string, k: string)
    ensures (s, k) in Unwritten(written, section, keys) <==> s == section && k in keys && (s, k) !in written
    decreases keys
  {
    if keys != [] {
      UnwrittenAre(written, section, keys[1..], s, k);
      assert k in keys <==> k == keys[0] || k in keys[1..];
    }
  }

  lemma {:induction false} OrphansFromAre(values: Values, written: set<(string, string)>, sections: seq<string>,
                                          s: string, k: string)
    requires forall x <- sections :: x in values
    ensures (s, k) in OrphansFrom(values, written, sections)
       <==> s in sections && Holds(values, s, k) && (s, k) !in written
    decreases sections
  {
    if sections != [] {
      var keys := values[sections[0]].Keys;
      S.InElementsOf(keys);
      UnwrittenAre(written, sections[0], S.Sorted(keys), s, k);
      OrphansFromAre(values, written, sections[1..], s, k);
      assert s in sections <==> s == sections[0] || s in sections[1..];
    }
  }

  lemma {:induction false} UnwrittenAscend(written: set<(string, string)>, section: string, keys: seq<string>)
    requires S.Ascending(keys)
    ensures PairsAscend(Unwritten(written, section, keys))
    decreases keys
  {
    hide S.Less;
    if keys != [] {
      UnwrittenAscend(written, section, keys[1..]);
      forall p | p in Unwritten(written, section, keys[1..])
        ensures p.0 == section && S.Less(keys[0], p.1)
      {
        UnwrittenAre(written, section, keys[1..], p.0, p.1);
        assert exists i :: 0 < i < |keys| && keys[i] == p.1;
      }
    }
  }

  lemma AscendConcat(a: seq<(string, string)>, b: seq<(string, string)>, section: string)
    requires PairsAscend(a) && PairsAscend(b)
    requires forall p <- a :: p.0 == section
    requires forall p <- b :: S.Less(section, p.0)
    ensures PairsAscend(a + b)
  {
    hide S.Less;
    var all := a + b;
    forall i, j | 0 <= i < j < |all|
      ensures S.Less(all[i].0, all[j].0) || (all[i].0 == all[j].0 && S.Less(all[i].1, all[j].1))
    {
      if i < |a| <= j {
        assert all[i] in a && all[j] in b;
      } else if |a| <= i {
        assert all[i] == b[i - |a|] && all[j] == b[j - |a|];
      }
    }
  }

  lemma {:induction false} OrphansAscend(values: Values, written: set<(string, string)>, sections: seq<string>)
    requires S.Ascending(sections) && forall s <- sections :: s in values
    ensures PairsAscend(OrphansFrom(values, written, sections))
    decreases sections
  {
    hide S.Less, Unwritten;
    if sections != [] {
      hide PairsAscend;
      var section, keys := sections[0], S.Sorted(values[sections[0]].Keys);
      var first, rest := Unwritten(written, section, keys), OrphansFrom(values, written, sections[1..]);
      UnwrittenAscend(written, section, keys);
      OrphansAscend(values, written, sections[1..]);
      forall p | p in first ensures p.0 == section {
        UnwrittenAre(written, section, keys, p.0, p.1);
      }
      forall p | p in rest ensures S.Less(section, p.0) {
        OrphansFromAre(values, written, sections[1..], p.0, p.1);
        assert exists i :: 0 < i < |sections| && sections[i] == p.0;
      }
      AscendConcat(first, rest, section);
    }
  }

  lemma {:induction false} AppendedPairsAre(values: Values, emitted: set<string>, sections: seq<string>,
                                            s: string, k: string)
    requires forall x <- sections :: x in values
    ensures (s, k) in AppendedPairs(values, emitted, sections)
       <==> s in sections && s !in emitted && Holds(values, s, k)
    decreases sections
  {
    if sections != [] {
      var keys := values[sections[0]].Keys;
      S.InElementsOf(keys);
      AppendedPairsAre(values, emitted, sections[1..], s, k);
      assert s in sections <==> s == sections[0] || s in sections[1..];
    }
  }

  lemma OrphansAre(values: Values, lines: seq<string>, written: set<(string, string)>)
    requires written == Written(values, None, lines) + AppendedPairs(values, Emitted(lines), S.Sorted(values.Keys))
    ensures forall s <- S.Sorted(values.Keys) :: s in values
    ensures forall s, k ::
              (s, k) in OrphansFrom(values, written, S.Sorted(values.Keys)) <==> Orphan(values, lines, s, k)
  {
    hide Written, Emitted;
    S.InElementsOf(values.Keys);
    var sections := S.Sorted(values.Keys);
    forall s, k ensures (s, k) in OrphansFrom(values, written, sections) <==> Orphan(values, lines, s, k) {
      OrphansFromAre(values, written, sections, s, k);
      AppendedPairsAre(values, Emitted(lines), sections, s, k);
    }
  }
}
