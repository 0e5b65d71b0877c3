/**
 * The text level of `merge_ace_cfg.py`.
 *
 * A file is a string; iterating over it yields its lines, each with its line
 * break but perhaps the last. A line is stripped of blanks at both ends and
 * then matched against three patterns: a section header, a key with a value,
 * and a key that is commented out. Only `[ace]` and `[ace N]` are sections of
 * interest; any other header ends them. Lines that start with a blank belong
 * to a multi-line value and mean nothing here.
 *
 * `EffectOf` is all that the parser makes of a line. Writing a header or a key
 * and reading it back gives the same header or key.
 */
module CfgText {
  import opened Wrappers

  predicate IsSpace(c: char) {
    c == ' ' || '\t' <= c <= '\r' || '\U{001C}' <= c <= '\U{001F}'
  }

  function LStrip(s: string): (r: string)
    ensures |r| <= |s| && (r != "" ==> !IsSpace(r[0]))
    ensures s == "" || !IsSpace(s[0]) ==> r == s
    decreases s
  {
    if s != "" && IsSpace(s[0]) then LStrip(s[1..]) else s
  }

  function RStrip(s: string): (r: string)
    ensures r <= s && (r != "" ==> !IsSpace(r[|r| - 1]))
    ensures s == "" || !IsSpace(s[|s| - 1]) ==> r == s
    decreases s
  {
    if s != "" && IsSpace(s[|s| - 1]) then RStrip(s[..|s| - 1]) else s
  }

  function Strip(s: string): (r: string)
    ensures r != "" ==> !IsSpace(r[0]) && !IsSpace(r[|r| - 1])
  {
    RStrip(LStrip(s))
  }

  /** A text that stripping leaves alone. */
  predicate Stripped(s: string) {
    s == "" || (!IsSpace(s[0]) && !IsSpace(s[|s| - 1]))
  }

  lemma StripStripped(s: string)
    requires Stripped(s)
    ensures Strip(s) == s
  {
  }

  lemma {:induction false} LStripBlank(t: string, s: string)
    requires forall c <- t :: IsSpace(c)
    ensures LStrip(t + s) == LStrip(s)
    decreases t
  {
    if t == "" {
      assert t + s == s;
    } else {
      assert t[0] in t && (t + s)[1..] == t[1..] + s;
      LStripBlank(t[1..], s);
    }
  }

  /** Stripping takes off the blanks at both ends and nothing else. */
  lemma StripPadded(before: string, core: string, after: string)
    requires Stripped(core) && (forall c <- before :: IsSpace(c)) && (forall c <- after :: IsSpace(c))
    ensures Strip(before + core + after) == core
  {
    assert before + core + after == before + (core + after);
    LStripBlank(before, core + after);
    if core == "" {
      assert core + after == after + "" && LStrip("") == "";
      LStripBlank(after, "");
    } else {
      assert (core + after)[0] == core[0];
      assert forall i | 0 <= i < |after| :: after[i] in after;
      RStripBlank(core, after);
    }
  }

  lemma {:induction false} RStripBlank(s: string, t: string)
    requires forall i | 0 <= i < |t| :: IsSpace(t[i])
    ensures RStrip(s + t) == RStrip(s)
    decreases t
  {
    if t == "" {
      assert s + t == s;
    } else {
      assert (s + t)[..|s + t| - 1] == s + t[..|t| - 1];
      RStripBlank(s, t[..|t| - 1]);
    }
  }

  predicate IsSectionHeader(stripped: string) {
    stripped != "" && stripped[0] == '[' && stripped[|stripped| - 1] == ']'
  }

  predicate IsDigit(c: char) {
    '0' <= c <= '9'
  }

  /** The names `SECTION_RE` captures: "ace", or "ace", blanks and digits. */
  predicate IsAceName(name: string) {
    && "ace" <= name
    && (name == "ace"
        || (IsSpace(name[3]) && LStrip(name[3..]) != ""
            && forall i | 0 <= i < |LStrip(name[3..])| :: IsDigit(LStrip(name[3..])[i])))
  }

  function SectionName(stripped: string): (r: Option<string>)
    requires IsSectionHeader(stripped)
    ensures r.Some? ==> IsAceName(r.value)
  {
    var name := Strip(stripped[1..|stripped| - 1]);
    if IsAceName(name) then Some(name) else None
  }

  predicate IdentStart(c: char) {
    'a' <= c <= 'z' || 'A' <= c <= 'Z' || c == '_'
  }

  predicate IdentChar(c: char) {
    IdentStart(c) || IsDigit(c)
  }

  predicate IsIdent(s: string) {
    s != "" && IdentStart(s[0]) && forall i | 0 <= i < |s| :: IdentChar(s[i])
  }

  /** The longest prefix of identifier characters. */
  function IdentLen(s: string): (n: nat)
    ensures n <= |s|
    ensures forall i | 0 <= i < n :: IdentChar(s[i])
    ensures n < |s| ==> !IdentChar(s[n])
    decreases s
  {
    if s != "" && IdentChar(s[0]) then 1 + IdentLen(s[1..]) else 0
  }

  datatype KeyValue = KeyValue(key: string, value: string)

  /** `KEY_RE`, with its second group stripped as every caller does. */
  function MatchKey(s: string): (r: Option<KeyValue>)
    ensures r.Some? ==> IsIdent(r.value.key) && Stripped(r.value.value) && s != "" && IdentStart(s[0])
  {
    var n := IdentLen(s);
    var rest := LStrip(s[n..]);
    if n > 0 && IdentStart(s[0]) && rest != "" && rest[0] == ':' then Some(KeyValue(s[..n], Strip(rest[1..]))) else None
  }

  /** `COMMENTED_KEY_RE`; only the key is used. */
  function MatchCommented(s: string): (r: Option<string>)
    ensures r.Some? ==> IsIdent(r.value) && s != "" && s[0] == '#'
  {
    if s != "" && s[0] == '#' then
      match MatchKey(LStrip(s[1..]))
      case Some(kv) => Some(kv.key)
      case None => None
    else None
  }

  /** `'%s: %s\n' % (key, value)` */
  function KeyLine(key: string, value: string): string {
    key + ": " + value + "\n"
  }

  function HeaderLine(section: string): string {
    "[" + section + "]\n"
  }

  // ---- what a line means ---------------------------------------------------------

  /** All that `parse_user_values` makes of one line. */
  datatype Effect =
    | Enter(section: Option<string>)
    | Bind(key: string, value: string)
    | Skip

  predicate Indented(raw: string) {
    raw != "" && (raw[0] == ' ' || raw[0] == '\t')
  }

  function EffectOf(raw: string): (e: Effect)
    ensures e.Enter? && e.section.Some? ==> IsAceName(e.section.value)
    ensures e.Bind? ==> IsIdent(e.key) && Stripped(e.value)
  {
    var stripped := Strip(raw);
    if IsSectionHeader(stripped) then Enter(SectionName(stripped))
    else if stripped == "" || stripped[0] == '#' || Indented(raw) then Skip
    else
      match MatchKey(stripped)
      case Some(kv) => Bind(kv.key, kv.value)
      case None => Skip
  }

  /** Writing a key and reading it back. */
  lemma KeyLineEffect(key: string, value: string)
    requires IsIdent(key) && Stripped(value)
    ensures EffectOf(KeyLine(key, value)) == Bind(key, value)
  {
    hide Strip, MatchKey;
    var tail := if value == "" then "" else " " + value;
    StripKeyLine(key, value);
    MatchKeyThenColon(key, tail);
    StripTail(value);
    var stripped := Strip(KeyLine(key, value));
    assert stripped[0] == key[0] && KeyLine(key, value)[0] == key[0];
    assert IdentChar(key[0]);
  }

  lemma MatchKeyThenColon(key: string, tail: string)
    requires IsIdent(key)
    ensures MatchKey(key + ":" + tail) == Some(KeyValue(key, Strip(tail)))
  {
    hide Strip;
    var s, rest := key + ":" + tail, ":" + tail;
    assert s == key + rest;
    IdentLenOfKey(key, rest);
    assert s[..|key|] == key && s[|key|..] == rest && rest[1..] == tail;
    assert LStrip(rest) == rest;
  }

  lemma StripTail(value: string)
    requires Stripped(value)
    ensures Strip(if value == "" then "" else " " + value) == value
  {
    if value != "" {
      assert (" " + value)[1..] == value;
    }
  }

  lemma StripKeyLine(key: string, value: string)
    requires IsIdent(key) && Stripped(value)
    ensures Strip(KeyLine(key, value)) == key + ":" + (if value == "" then "" else " " + value)
  {
    var raw := KeyLine(key, value);
    assert raw[0] == key[0] && IdentChar(key[0]);
    assert LStrip(raw) == raw;
    if value == "" {
      assert raw == (key + ":") + " \n";
      RStripBlank(key + ":", " \n");
    } else {
      assert raw == (key + ": " + value) + "\n";
      RStripBlank(key + ": " + value, "\n");
      assert key + ": " + value == key + ":" + (" " + value);
    }
  }

  lemma {:induction false} IdentLenOfKey(key: string, rest: string)
    requires forall i | 0 <= i < |key| :: IdentChar(key[i])
    requires rest == "" || !IdentChar(rest[0])
    ensures IdentLen(key + rest) == |key|
    decreases key
  {
    if key == "" {
      assert key + rest == rest;
    } else {
      assert (key + rest)[1..] == key[1..] + rest;
      IdentLenOfKey(key[1..], rest);
    }
  }

  /** Writing a section header and reading it back. */
  lemma HeaderLineEffect(section: string)
    requires IsAceName(section)
    ensures EffectOf(HeaderLine(section)) == Enter(Some(section))
  {
    var raw := HeaderLine(section);
    assert LStrip(raw) == raw;
    assert raw == ("[" + section + "]") + "\n";
    RStripBlank("[" + section + "]", "\n");
    var stripped := Strip(raw);
    assert stripped == "[" + section + "]";
    assert stripped[1..|stripped| - 1] == section;
    AceNameIsStripped(section);
    StripStripped(section);
  }

  lemma AceNameIsStripped(name: string)
    requires IsAceName(name)
    ensures Stripped(name)
  {
    if name != "ace" {
      LastOfLStrip(name[3..]);
    }
  }

  lemma {:induction false} LastOfLStrip(s: string)
    requires LStrip(s) != ""
    ensures s != "" && s[|s| - 1] == LStrip(s)[|LStrip(s)| - 1]
    decreases s
  {
    if IsSpace(s[0]) {
      LastOfLStrip(s[1..]);
    }
  }

  /** A final line break adds nothing to a line's meaning, and nothing on its own. */
  lemma LineBreakEffect(raw: string)
    requires raw != ""
    ensures EffectOf(raw + "\n") == EffectOf(raw)
    ensures EffectOf("\n") == Skip
  {
    StripLineBreak(raw);
    assert Indented(raw + "\n") == Indented(raw);
    StripLineBreak("");
    assert "" + "\n" == "\n";
  }

  lemma {:induction false} StripLineBreak(raw: string)
    ensures Strip(raw + "\n") == Strip(raw)
    decreases raw
  {
    if raw != "" && IsSpace(raw[0]) {
      assert (raw + "\n")[1..] == raw[1..] + "\n";
      StripLineBreak(raw[1..]);
    } else if raw == "" {
      assert raw + "\n" == "\n";
      assert LStrip("\n") == LStrip("");
    } else {
      RStripBlank(raw, "\n");
    }
  }

  // ---- exactly which lines mean what -----------------------------------------------

  predicate Blank(s: string) {
    forall c <- s :: IsSpace(c)
  }

  /** A key, blanks, a colon, and whatever follows. */
  ghost predicate KeyText(s: string, key: string, value: string) {
    IsIdent(key) && exists gap, rest :: Blank(gap) && s == key + gap + ":" + rest && value == Strip(rest)
  }

  lemma {:induction false} LStripTakes(s: string) returns (gap: string)
    ensures Blank(gap) && s == gap + LStrip(s)
    decreases s
  {
    if s != "" && IsSpace(s[0]) {
      var more := LStripTakes(s[1..]);
      gap := [s[0]] + more;
      assert s == [s[0]] + s[1..];
    } else {
      gap := "";
    }
  }

  lemma MatchedText(s: string)
    requires MatchKey(s).Some?
    ensures KeyText(s, MatchKey(s).value.key, MatchKey(s).value.value)
  {
    var n := IdentLen(s);
    var key, tail := s[..n], LStrip(s[n..]);
    assert MatchKey(s) == Some(KeyValue(key, Strip(tail[1..]))) && tail[0] == ':' && IsIdent(key);
    hide MatchKey, IdentLen, Strip, IsIdent;
    var gap := LStripTakes(s[n..]);
    hide LStrip, Blank;
    JoinText(s, n, gap, tail);
  }

  lemma JoinText(s: string, n: nat, gap: string, tail: string)
    requires n <= |s| && s[n..] == gap + tail && tail != "" && tail[0] == ':'
    ensures s == s[..n] + gap + ":" + tail[1..]
  {
    assert tail == ":" + tail[1..] && s == s[..n] + s[n..];
  }

  /** A text matches as a key with a value exactly when it is one. */
  lemma MatchKeyIff(s: string, key: string, value: string)
    ensures MatchKey(s) == Some(KeyValue(key, value)) <==> KeyText(s, key, value)
  {
    hide Strip, MatchKey;
    if MatchKey(s) == Some(KeyValue(key, value)) {
      MatchedText(s);
    }
    if KeyText(s, key, value) {
      var gap, rest :| Blank(gap) && s == key + gap + ":" + rest && value == Strip(rest);
      MatchSpaced(key, gap, rest);
    }
  }

  lemma MatchSpaced(key: string, gap: string, rest: string)
    requires IsIdent(key) && Blank(gap)
    ensures MatchKey(key + gap + ":" + rest) == Some(KeyValue(key, Strip(rest)))
  {
    hide Strip;
    var s, tail := key + gap + ":" + rest, gap + (":" + rest);
    assert s == key + tail;
    assert tail[0] == if gap == "" then ':' else gap[0];
    assert gap != "" ==> gap[0] in gap;
    IdentLenOfKey(key, tail);
    assert s[..|key|] == key && s[|key|..] == tail;
    LStripBlank(gap, ":" + rest);
    assert LStrip(":" + rest) == ":" + rest && (":" + rest)[1..] == rest;
  }

  /** And as a commented key exactly when it is a hash, blanks and such a text. */
  lemma MatchCommentedIff(s: string, key: string)
    ensures MatchCommented(s) == Some(key)
       <==> exists gap, text, value :: Blank(gap) && s == "#" + gap + text && KeyText(text, key, value)
  {
    hide MatchKey, KeyText;
    if MatchCommented(s) == Some(key) {
      var gap := LStripTakes(s[1..]);
      var text := LStrip(s[1..]);
      MatchKeyIff(text, key, MatchKey(text).value.value);
      assert s == "#" + s[1..];
      assert s == "#" + gap + text;
    }
    if gap, text, value :| Blank(gap) && s == "#" + gap + text && KeyText(text, key, value) {
      MatchKeyIff(text, key, value);
      assert s[1..] == gap + text;
      LStripBlank(gap, text);
      KeyIsUnstripped(text);
    }
  }

  lemma KeyIsUnstripped(text: string)
    requires MatchKey(text).Some?
    ensures LStrip(text) == text
  {
    assert IdentChar(text[0]);
  }

  /** A line binds a key exactly when it is not indented, no header, and a key with a value once stripped. */
  lemma BindIff(raw: string, key: string, value: string)
    ensures EffectOf(raw) == Bind(key, value) <==> !Indented(raw) && KeyText(Strip(raw), key, value)
  {
    hide Strip, MatchKey, KeyText, SectionName;
    MatchKeyIff(Strip(raw), key, value);
    if KeyText(Strip(raw), key, value) {
      StartsWithLetter(Strip(raw));
    }
  }

  lemma StartsWithLetter(s: string)
    requires MatchKey(s).Some?
    ensures s != "" && s[0] != '#' && !IsSectionHeader(s)
  {
  }

  /** A header names a section exactly when there is nothing but blanks around the name. */
  lemma SectionNameIff(stripped: string, name: string)
    requires IsSectionHeader(stripped)
    ensures SectionName(stripped) == Some(name)
       <==> IsAceName(name) && exists before, after :: Blank(before) && Blank(after)
                                 && stripped == "[" + before + name + after + "]"
  {
    hide IsAceName, Strip;
    var inner := stripped[1..|stripped| - 1];
    assert |stripped| >= 2 ==> stripped == "[" + inner + "]";
    if SectionName(stripped) == Some(name) {
      var before, after := StripTakes(inner);
      assert stripped == "[" + before + name + after + "]";
    }
    if before, after :| IsAceName(name) && Blank(before) && Blank(after)
                        && stripped == "[" + before + name + after + "]" {
      assert inner == before + name + after;
      AceNameIsStripped(name);
      StripPadded(before, name, after);
    }
  }

  lemma StripTakes(s: string) returns (before: string, after: string)
    ensures Blank(before) && Blank(after) && s == before + Strip(s) + after
  {
    before := LStripTakes(s);
    after := RStripTakes(LStrip(s));
    assert s == before + (Strip(s) + after);
  }

  lemma {:induction false} RStripTakes(s: string) returns (gap: string)
    ensures Blank(gap) && s == RStrip(s) + gap
    decreases s
  {
    if s != "" && IsSpace(s[|s| - 1]) {
      var more := RStripTakes(s[..|s| - 1]);
      gap := more + [s[|s| - 1]];
      assert s == s[..|s| - 1] + [s[|s| - 1]];
    } else {
      gap := "";
    }
  }

  /** An ace section is `ace` alone, or `ace`, blanks and digits. */
  lemma AceNameIff(name: string)
    ensures IsAceName(name)
       <==> name == "ace"
            || exists gap, digits :: Blank(gap) && gap != "" && digits != "" && (forall c <- digits :: '0' <= c <= '9')
                                     && name == "ace" + gap + digits
  {
    if IsAceName(name) && name != "ace" {
      var gap := LStripTakes(name[3..]);
      var digits := LStrip(name[3..]);
      assert name == "ace" + name[3..] && name == "ace" + gap + digits;
    }
    if gap, digits :| Blank(gap) && gap != "" && digits != "" && (forall c <- digits :: '0' <= c <= '9')
                      && name == "ace" + gap + digits {
      assert name[3..] == gap + digits && name[3] == gap[0] && gap[0] in gap;
      LStripBlank(gap, digits);
      assert digits[0] in digits && LStrip(digits) == digits;
      assert forall i | 0 <= i < |digits| :: digits[i] in digits;
    }
  }

  // ---- lines of a text ------------------------------------------------------------

  /** The length of the first line, its line break included. */
  function LineLen(text: string): (n: nat)
    ensures n <= |text| && (text != "" ==> n > 0)
    decreases text
  {
    if text == "" then 0
    else if text[0] == '\n' then 1
    else 1 + LineLen(text[1..])
  }

  /** The lines of a file, as iterating over it yields them. */
  function Lines(text: string): seq<string>
    decreases |text|
  {
    if text == "" then [] else [text[..LineLen(text)]] + Lines(text[LineLen(text)..])
  }

  function Flatten(lines: seq<string>): string
    decreases lines
  {
    if lines == [] then "" else lines[0] + Flatten(lines[1..])
  }

  /** A line with its line break. */
  predicate Terminated(l: string) {
    l != "" && l[|l| - 1] == '\n' && forall i | 0 <= i < |l| - 1 :: l[i] != '\n'
  }

  /** A last line without one. */
  predicate Unterminated(l: string) {
    l != "" && forall i | 0 <= i < |l| :: l[i] != '\n'
  }

  lemma {:induction false} LineLenIs(l: string, rest: string)
    requires Terminated(l) || (Unterminated(l) && rest == "")
    ensures LineLen(l + rest) == |l|
    decreases l
  {
    if |l| > 1 {
      assert (l + rest)[1..] == l[1..] + rest;
      LineLenIs(l[1..], rest);
    } else {
      assert (l + rest)[0] == l[0];
      if Unterminated(l) {
        assert (l + rest)[1..] == "";
      }
    }
  }

  lemma LinesOfCons(l: string, rest: string)
    requires Terminated(l) || (Unterminated(l) && rest == "")
    ensures Lines(l + rest) == [l] + Lines(rest)
  {
    LineLenIs(l, rest);
    assert (l + rest)[..|l|] == l && (l + rest)[|l|..] == rest;
  }

  lemma {:induction false} LinesAre(text: string)
    ensures forall i | 0 <= i < |Lines(text)| - 1 :: Terminated(Lines(text)[i])
    ensures Lines(text) != [] ==>
              var last := Lines(text)[|Lines(text)| - 1];
              Terminated(last) || Unterminated(last)
    decreases |text|
  {
    if text != "" {
      FirstLineIs(text);
      LinesAre(text[LineLen(text)..]);
    }
  }

  lemma {:induction false} FirstLineIs(text: string)
    requires text != ""
    ensures var l := text[..LineLen(text)];
            Terminated(l) || (Unterminated(l) && LineLen(text) == |text|)
    decreases text
  {
    if text[0] != '\n' && |text| > 1 {
      FirstLineIs(text[1..]);
      var l := text[1..][..LineLen(text[1..])];
      assert text[..LineLen(text)] == [text[0]] + l;
    }
  }
}
