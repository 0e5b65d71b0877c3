/** Merging a second time with the same user file changes nothing. */
module MergeTwice {
  import opened Wrappers
  import opened CfgText
  import opened ConfigMerge
  import S = Sorted

  lemma BindMeans(raw: string)
    ensures EffectOf(raw).Bind? ==>
              && !Indented(raw) && !IsSectionHeader(Strip(raw))
              && MatchKey(Strip(raw)) == Some(KeyValue(EffectOf(raw).key, EffectOf(raw).value))
  {
    hide Strip, MatchKey, IsAceName, SectionName, IsIdent;
  }

  lemma KeyLineStays(key: string, u: map<string, string>)
    requires SoundSection(u) && key in u
    ensures OutLine(KeyLine(key, u[key]), u) == KeyLine(key, u[key])
    ensures !IsSectionHeader(Strip(KeyLine(key, u[key])))
  {
    hide Strip, MatchKey, MatchCommented, KeyLine, IsIdent, Stripped, NoBreak, EffectOf, IsSectionHeader, Indented;
    KeyLineEffect(key, u[key]);
    BindMeans(KeyLine(key, u[key]));
  }

  /** A line of the output, seen again in its section. */
  lemma LineStays(values: Values, current: Option<string>, raw: string)
    requires Sound(values)
    ensures var line := OutLine(raw, UserSection(values, current, raw));
            && OutLine(line, UserSection(values, current, line)) == line
            && SectionAfter(current, line) == SectionAfter(current, raw)
            && SectionAfter(None, line) == SectionAfter(None, raw)
  {
    var u := UserSection(values, current, raw);
    assert SoundSection(u);
    hide Strip, KeyLine, SoundSection, Sound, IsAceName, SectionName, IsSectionHeader, MatchKey;
    var named := NamedKey(raw, u);
    hide NamedKey;
    if named.Some? {
      KeyLineStays(named.value, u);
    }
  }

  lemma {:induction false} PassTwice(values: Values, current: Option<string>, lines: seq<string>)
    requires Sound(values)
    ensures var out := OutLines(values, current, lines);
            OutLines(values, current, out) == out && Emitted(out) == Emitted(lines)
    decreases lines
  {
    hide OutLine, UserSection, SectionAfter, Sound;
    if lines != [] {
      LineStays(values, current, lines[0]);
      PassTwice(values, SectionAfter(current, lines[0]), lines[1..]);
      assert OutLines(values, current, lines)[1..] == OutLines(values, SectionAfter(current, lines[0]), lines[1..]);
    }
  }

  function Last(current: Option<string>, lines: seq<string>): Option<string>
    decreases lines
  {
    if lines == [] then current else Last(SectionAfter(current, lines[0]), lines[1..])
  }

  lemma {:induction false} PassConcat(values: Values, current: Option<string>, a: seq<string>, b: seq<string>)
    ensures OutLines(values, current, a + b) == OutLines(values, current, a) + OutLines(values, Last(current, a), b)
    ensures Emitted(a + b) == Emitted(a) + Emitted(b)
    decreases a
  {
    hide OutLine, UserSection, SectionAfter;
    if a == [] {
      assert a + b == b;
    } else {
      assert (a + b)[1..] == a[1..] + b;
      PassConcat(values, SectionAfter(current, a[0]), a[1..], b);
    }
  }

  /** Lines the pass leaves alone. */
  predicate Fixed(values: Values, current: Option<string>, lines: seq<string>) {
    OutLines(values, current, lines) == lines
  }

  lemma FixedConcat(values: Values, current: Option<string>, a: seq<string>, b: seq<string>)
    requires Fixed(values, current, a) && Fixed(values, Last(current, a), b)
    ensures Fixed(values, current, a + b)
  {
    hide OutLines;
    PassConcat(values, current, a, b);
  }

  lemma FixedOne(values: Values, current: Option<string>, line: string)
    requires OutLine(line, UserSection(values, current, line)) == line
    ensures Fixed(values, current, [line])
  {
    hide OutLine, UserSection, SectionAfter;
    assert OutLines(values, SectionAfter(current, line), [][..]) == [];
    assert [line][1..] == [];
  }

  lemma BreakIsFixed(values: Values, current: Option<string>)
    ensures Fixed(values, current, ["\n"])
  {
    assert Strip("\n") == "" by {
      StripLineBreak("");
      assert "" + "\n" == "\n";
    }
    assert NamedKey("\n", UserSection(values, current, "\n")) == None;
    FixedOne(values, current, "\n");
  }

  lemma SpacedIsFixed(values: Values, current: Option<string>, out: seq<string>)
    requires Fixed(values, current, out)
    ensures Fixed(values, current, Spaced(out)) && Emitted(out) <= Emitted(Spaced(out))
  {
    hide Fixed, Strip, Emitted;
    var o := if out != [] && !EndsWithBreak(out[|out| - 1]) then out + ["\n"] else out;
    BreakIsFixed(values, Last(current, out));
    BreakIsFixed(values, Last(current, o));
    FixedConcat(values, current, out, ["\n"]);
    PassConcat(values, current, out, ["\n"]);
    FixedConcat(values, current, o, ["\n"]);
    PassConcat(values, current, o, ["\n"]);
  }

  lemma HeaderIsFixed(values: Values, current: Option<string>, section: string)
    requires IsAceName(section)
    ensures Fixed(values, current, [HeaderLine(section)])
    ensures Last(current, [HeaderLine(section)]) == Some(section) && section in Emitted([HeaderLine(section)])
  {
    hide IsAceName, HeaderLine, EffectOf, Strip, IsSectionHeader, SectionName, MatchKey;
    var line := HeaderLine(section);
    HeaderLineEffect(section);
    EnterIsSectionAfter(Parse(current, map[]), line);
    EnterIsSectionAfter(Parse(None, map[]), line);
    NoUserKeys(line);
    FixedOne(values, current, line);
    assert [line][1..] == [];
  }

  lemma {:induction false} KeyLinesAreFixed(values: Values, section: string, keys: seq<string>)
    requires section in values && SoundSection(values[section]) && forall k <- keys :: k in values[section]
    ensures Fixed(values, Some(section), KeyLines(keys, values[section]))
    decreases keys
  {
    hide SoundSection, OutLine, KeyLine, Strip, IsSectionHeader;
    if keys != [] {
      var u := values[section];
      KeyLineStays(keys[0], u);
      KeyLinesAreFixed(values, section, keys[1..]);
      assert KeyLines(keys, u)[1..] == KeyLines(keys[1..], u);
    }
  }

  lemma SectionLines(values: Values, current: Option<string>, section: string, keys: seq<string>)
    requires section in values && SoundSection(values[section]) && IsAceName(section)
    requires forall k <- keys :: k in values[section]
    ensures var added := [HeaderLine(section)] + KeyLines(keys, values[section]);
            Fixed(values, current, added) && section in Emitted(added)
  {
    hide Fixed, HeaderLine, KeyLines, IsAceName, SoundSection, Emitted, Last;
    var header, rest := [HeaderLine(section)], KeyLines(keys, values[section]);
    HeaderIsFixed(values, current, section);
    KeyLinesAreFixed(values, section, keys);
    FixedConcat(values, current, header, rest);
    PassConcat(values, current, header, rest);
  }

  lemma SectionIsFixed(values: Values, current: Option<string>, out: seq<string>, section: string)
    requires section in values && SoundSection(values[section]) && IsAceName(section) && Fixed(values, current, out)
    ensures var all := AppendSection(out, section, values[section]);
            Fixed(values, current, all) && Emitted(out) + {section} <= Emitted(all)
  {
    hide Fixed, Spaced, HeaderLine, KeyLines, IsAceName, SoundSection, Emitted, Last, S.Ascending, S.Elements;
    var keys := S.Sorted(values[section].Keys);
    S.InElementsOf(values[section].Keys);
    var top, added := Spaced(out), [HeaderLine(section)] + KeyLines(keys, values[section]);
    SpacedIsFixed(values, current, out);
    SectionLines(values, Last(current, top), section, keys);
    FixedConcat(values, current, top, added);
    PassConcat(values, current, top, added);
    assert top + added == AppendSection(out, section, values[section]) by {
      Associate(top, [HeaderLine(section)], KeyLines(keys, values[section]));
    }
  }

  lemma Associate(a: seq<string>, b: seq<string>, c: seq<string>)
    ensures a + (b + c) == a + b + c
  {
  }

  lemma {:induction false} AppendIsFixed(values: Values, emitted: set<string>, sections: seq<string>, out: seq<string>)
    requires Sound(values) && Fixed(values, None, out) && emitted <= Emitted(out) && forall s <- sections :: s in values
    ensures var all := AppendFrom(values, emitted, sections, out);
            && Fixed(values, None, all) && Emitted(out) <= Emitted(all)
            && (forall s <- sections :: values[s] == map[] || s in Emitted(all))
    decreases sections
  {
    hide Fixed, AppendSection, Emitted, SoundSection, IsAceName, NoBreak;
    if sections != [] {
      var s := sections[0];
      var next := if Appends(values, emitted, s) then AppendSection(out, s, values[s]) else out;
      if Appends(values, emitted, s) {
        SectionIsFixed(values, None, out, s);
      }
      AppendIsFixed(values, emitted, sections[1..], next);
      assert forall x <- sections :: x == s || x in sections[1..];
    }
  }

  // ---- fusing an unfinished line with its break ----------------------------------------------------

  lemma BrokenStays(values: Values, current: Option<string>, line: string)
    requires Sound(values) && Unterminated(line) && OutLine(line, UserSection(values, current, line)) == line
    ensures OutLine(line + "\n", UserSection(values, current, line + "\n")) == line + "\n"
    ensures SectionAfter(current, line + "\n") == SectionAfter(current, line)
    ensures SectionAfter(None, line + "\n") == SectionAfter(None, line)
  {
    StripLineBreak(line);
    var u := UserSection(values, current, line);
    assert SoundSection(u);
    hide Strip, SoundSection, IsAceName, SectionName, IsSectionHeader, MatchKey, KeyLine, IsIdent, NoBreak, Stripped;
    assert NamedKey(line + "\n", u) == NamedKey(line, u);
    var named := NamedKey(line, u);
    if named.Some? {
      assert IsIdent(named.value) && NoBreak(u[named.value]) by {
        SoundKey(u, named.value);
      }
      KeyLineIsLine(named.value, u[named.value]);
      BreakOrNot(line);
      BreakOrNot(KeyLine(named.value, u[named.value]));
    }
  }

  lemma SoundKey(u: map<string, string>, key: string)
    requires SoundSection(u) && key in u
    ensures IsIdent(key) && NoBreak(u[key])
  {
  }

  lemma {:induction false} FusedIsFixed(values: Values, current: Option<string>, out: seq<string>)
    requires Sound(values) && Shaped(out) && Fixed(values, current, out)
    ensures Fixed(values, current, Fused(out)) && Emitted(Fused(out)) == Emitted(out)
    ensures Flatten(Fused(out)) == Flatten(out)
    decreases |out|
  {
    hide OutLine, UserSection, SectionAfter, Sound, Terminated, Unterminated, EndsWithBreak;
    if out != [] {
      assert Shaped(out[1..]);
      BreakOrNot(out[0]);
      var next := SectionAfter(current, out[0]);
      assert OutLines(values, current, out)[1..] == OutLines(values, next, out[1..]);
      if |out| >= 2 && !EndsWithBreak(out[0]) {
        BrokenStays(values, current, out[0]);
        FusedPair(values, current, out);
      } else {
        FusedIsFixed(values, next, out[1..]);
        assert Fused(out)[1..] == Fused(out[1..]);
      }
    }
  }

  lemma BreakKeepsSection(current: Option<string>)
    ensures SectionAfter(current, "\n") == current
  {
    StripLineBreak("");
    assert "" + "\n" == "\n";
  }

  lemma PairText(out: seq<string>)
    requires |out| >= 2 && out[1] == "\n" && !EndsWithBreak(out[0]) && Flatten(Fused(out[2..])) == Flatten(out[2..])
    ensures Flatten(Fused(out)) == Flatten(out)
  {
    hide EndsWithBreak;
    assert out[1..][1..] == out[2..] && out[1..][0] == "\n" && Fused(out)[1..] == Fused(out[2..]);
    assert out[0] + ("\n" + Flatten(out[2..])) == (out[0] + "\n") + Flatten(out[2..]);
  }

  lemma PairEmitted(out: seq<string>)
    requires |out| >= 2 && out[1] == "\n" && !EndsWithBreak(out[0]) && Emitted(Fused(out[2..])) == Emitted(out[2..])
    requires SectionAfter(None, out[0] + "\n") == SectionAfter(None, out[0]) && SectionAfter(None, "\n") == None
    ensures Emitted(Fused(out)) == Emitted(out)
  {
    hide EndsWithBreak, SectionAfter;
    assert out[1..][1..] == out[2..] && out[1..][0] == "\n" && Fused(out)[1..] == Fused(out[2..]);
  }

  lemma PairFixed(values: Values, current: Option<string>, out: seq<string>)
    requires |out| >= 2 && out[1] == "\n" && !EndsWithBreak(out[0])
    requires Fixed(values, SectionAfter(current, out[0]), Fused(out[2..]))
    requires OutLine(out[0] + "\n", UserSection(values, current, out[0] + "\n")) == out[0] + "\n"
    requires SectionAfter(current, out[0] + "\n") == SectionAfter(current, out[0])
    ensures Fixed(values, current, Fused(out))
  {
    hide EndsWithBreak, SectionAfter, OutLine, UserSection;
    assert Fused(out)[1..] == Fused(out[2..]);
  }

  lemma FixedTail(values: Values, current: Option<string>, out: seq<string>)
    requires out != [] && Fixed(values, current, out)
    ensures Fixed(values, SectionAfter(current, out[0]), out[1..])
  {
    hide SectionAfter, OutLine, UserSection;
    assert OutLines(values, current, out)[1..] == OutLines(values, SectionAfter(current, out[0]), out[1..]);
  }

  lemma {:induction false} FusedPair(values: Values, current: Option<string>, out: seq<string>)
    requires Sound(values) && Shaped(out) && |out| >= 2 && !EndsWithBreak(out[0])
    requires Fixed(values, SectionAfter(current, out[0]), out[1..])
    requires OutLine(out[0] + "\n", UserSection(values, current, out[0] + "\n")) == out[0] + "\n"
    requires SectionAfter(current, out[0] + "\n") == SectionAfter(current, out[0])
    requires SectionAfter(None, out[0] + "\n") == SectionAfter(None, out[0])
    ensures Fixed(values, current, Fused(out)) && Emitted(Fused(out)) == Emitted(out)
    ensures Flatten(Fused(out)) == Flatten(out)
    decreases |out|, 0
  {
    BreakOrNot(out[0]);
    assert Shaped(out[2..]) && out[1] == "\n" && out[1..][1..] == out[2..] && out[1..][0] == "\n";
    hide OutLine, UserSection, SectionAfter, Sound, Shaped, EndsWithBreak, Fixed, Fused, Emitted, Flatten;
    var next := SectionAfter(current, out[0]);
    BreakKeepsSection(next);
    BreakKeepsSection(None);
    FixedTail(values, next, out[1..]);
    FusedIsFixed(values, next, out[2..]);
    PairText(out);
    PairEmitted(out);
    PairFixed(values, current, out);
  }

  lemma {:induction false} NothingToAppend(values: Values, emitted: set<string>, sections: seq<string>,
                                           out: seq<string>)
    requires forall s <- sections :: s in values && (values[s] == map[] || s in emitted)
    ensures AppendFrom(values, emitted, sections, out) == out
    decreases sections
  {
    hide AppendSection;
    if sections != [] {
      NothingToAppend(values, emitted, sections[1..], out);
    }
  }

  /** A second merge of the same user file into the merged file leaves it as it is. */
  lemma MergeIsIdempotent(userText: string, newText: string)
    ensures MergedText(userText, MergedText(userText, newText)) == MergedText(userText, newText)
  {
    hide Lines, Sound, Fixed, Shaped, Flatten, Emitted, OutLines, AppendFrom, ValuesOf, Fused;
    var user, lines := ValuesOf(userText), Lines(newText);
    var out, sections := Merged(user, lines), S.Sorted(user.Keys);
    ValuesAreSound(userText);
    S.InElementsOf(user.Keys);
    PassIsFixed(user, lines);
    AppendIsFixed(user, Emitted(lines), sections, OutLines(user, None, lines));
    MergedShape(user, newText);
    LinesOfShaped(out);
    FusedIsFixed(user, None, out);
    NothingToAppend(user, Emitted(Fused(out)), sections, Fused(out));
    FixedMeans(user, Fused(out));
  }

  lemma FixedMeans(values: Values, lines: seq<string>)
    requires Fixed(values, None, lines)
    ensures OutLines(values, None, lines) == lines
  {
  }

  lemma PassIsFixed(values: Values, lines: seq<string>)
    requires Sound(values)
    ensures Fixed(values, None, OutLines(values, None, lines))
    ensures Emitted(OutLines(values, None, lines)) == Emitted(lines)
  {
    hide Sound, OutLines, Emitted;
    PassTwice(values, None, lines);
  }
}
