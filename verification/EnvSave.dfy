/** What a structured save leaves in agent.env for any filled-in form, key by key. */
module EnvSave {
  import opened A2aDoc
  import opened Text
  import opened EnvEditor

  // ----------------------------------------------------------------------- statement

  /** A line that starts with a hash is kept as it is. */
  predicate Remark(line: string) { line != "" && line[0] == '#' }

  predicate Digit(c: char) { '0' <= c <= '9' }

  /** Letters, digits and underscores, and no digit first. */
  predicate KeyText(key: string) {
    key != "" && !Digit(key[0]) && forall i :: 0 <= i < |key| ==> 'a' <= key[i] <= 'z' || 'A' <= key[i] <= 'Z' || Digit(key[i]) || key[i] == '_'
  }

  lemma KeyTextIs(key: string)
    ensures KeyText(key) <==> IsName(key)
  {
  }

  /** The line gives the key this value, whatever white space is around the first equals sign. */
  ghost predicate Assigns(line: string, key: string, value: string) {
    !Remark(line) && KeyText(key) &&
    exists eq :: 0 < eq < |line| && line[eq] == '=' && '=' !in line[..eq] && key == Strip(line[..eq]) && value == Strip(line[eq + 1..])
  }

  /** A line the extra field may contain. */
  ghost predicate LineOk(line: string) { Remark(line) || exists key, value :: Assigns(line, key, value) }

  ghost predicate Unassigned(lines: seq<string>, key: string) {
    forall i, value :: 0 <= i < |lines| ==> !Assigns(lines[i], key, value)
  }

  /** No line after this one assigns the key. */
  ghost predicate NoneLater(lines: seq<string>, i: int, key: string) {
    forall j, value :: i < j < |lines| && 0 <= j ==> !Assigns(lines[j], key, value)
  }

  /** The last of the lines that assign the key gives it this value. */
  ghost predicate LastAssigned(lines: seq<string>, key: string, value: string) {
    exists i :: 0 <= i < |lines| && Assigns(lines[i], key, value) && NoneLater(lines, i, key)
  }

  /** The key has one of the form's own inputs. */
  function FieldOf(fields: Fields, key: string): Option<string> {
    if key == "AGENT_NAME" then Some(fields.agentName)
    else if key == "MODEL_ROUTE" then Some(fields.modelRoute)
    else if key == "GATEWAY_API_KEY" then Some(fields.gatewayKey)
    else None
  }

  /** The form's own input for the key, if there is one and it is not blank. */
  function FilledIn(fields: Fields, key: string): Option<string> {
    var field := FieldOf(fields, key);
    if field.Some? && Strip(field.value) != "" then Some(Strip(field.value)) else None
  }

  /** What a key has after a save: its last value in extra_env, else its trimmed input, else what it had. */
  ghost predicate Saved(fields: Fields, was: Option<string>, key: string, now: Option<string>) {
    var extra := TrimmedLines(fields.extraEnv);
    (forall value :: LastAssigned(extra, key, value) ==> now == Some(value)) &&
    (Unassigned(extra, key) ==> now == if FilledIn(fields, key).Some? then FilledIn(fields, key) else was)
  }

  /** Nothing to save: every input of the file is blank. */
  ghost predicate AllBlank(fields: Fields) {
    FilledIn(fields, "AGENT_NAME") == None && FilledIn(fields, "MODEL_ROUTE") == None && FilledIn(fields, "GATEWAY_API_KEY") == None &&
    TrimmedLines(fields.extraEnv) == []
  }

  function LinesOf(existing: Option<string>): seq<string> { if existing.Some? then TrimmedLines(existing.value) else [] }

  // ----------------------------------------------------------------------- extra_env

  lemma LineMeans(line: string)
    requires TrimmedLine(line) && !Remark(line)
    ensures ParseEnvLine(line).Ok? <==> exists key, value :: Assigns(line, key, value)
    ensures ParseEnvLine(line).Ok? ==> var s := ParseEnvLine(line).value;
              s.Set? && IsName(s.key) && forall key, value :: Assigns(line, key, value) <==> key == s.key && value == s.value
    ensures ParseEnvLine(line).InvalidLine? ==> ParseEnvLine(line).line == line
  {
    hide Strip, IsName, KeyText;
    var eq := EqualsAt(line);
    forall key ensures KeyText(key) <==> IsName(key) { KeyTextIs(key); }
    forall key, value | Assigns(line, key, value) ensures eq > 0 && key == Strip(line[..eq]) && value == Strip(line[eq + 1..]) {
      var at :| 0 < at < |line| && line[at] == '=' && '=' !in line[..at] && key == Strip(line[..at]) && value == Strip(line[at + 1..]);
      OneEquals(line, at);
    }
    if eq > 0 && IsName(Strip(line[..eq])) { assert Assigns(line, Strip(line[..eq]), Strip(line[eq + 1..])); }
  }

  lemma OneEquals(line: string, at: nat)
    requires at < |line| && line[at] == '=' && '=' !in line[..at]
    ensures EqualsAt(line) == at
  {
    var eq := EqualsAt(line);
    assert forall k :: 0 <= k < at ==> line[..at][k] == line[k];
    assert forall k :: 0 <= k < eq ==> line[..eq][k] == line[k];
  }

  /** Every trimmed piece of a section fits on one line. */
  predicate Tight(s: Section) {
    if s.Set? then '\n' !in s.value && Strip(s.value) == s.value else TrimmedLine(s.text)
  }

  /** What the sections of extra_env set is what its lines assign. */
  lemma {:induction false} ExtraMeans(lines: seq<string>, key: string)
    requires (forall i :: 0 <= i < |lines| ==> TrimmedLine(lines[i])) && IsName(key)
    ensures ExtraSections(lines).Ok? <==> forall i :: 0 <= i < |lines| ==> LineOk(lines[i])
    ensures ExtraSections(lines).Ok? ==> var extra := ExtraSections(lines).value;
              |extra| == |lines| && Proper(extra) && (forall k :: 0 <= k < |extra| ==> Tight(extra[k])) &&
              (LastSet(extra, key).None? ==> Unassigned(lines, key)) &&
              (LastSet(extra, key).Some? ==> forall value :: LastAssigned(lines, key, value) <==> LastSet(extra, key) == Some(value)) &&
              (LastSet(extra, key).Some? ==> !Unassigned(lines, key))
    ensures ExtraSections(lines).InvalidLine? ==>
              exists i :: 0 <= i < |lines| && lines[i] == ExtraSections(lines).line && !LineOk(lines[i]) && forall j :: 0 <= j < i ==> LineOk(lines[j])
  {
    hide IsName, Strip, TrimmedLine, Assigns, ParseEnvLine, LineOk, Tight, Remark;
    if lines != [] {
      var n := |lines| - 1;
      ExtraMeans(lines[..n], key);
      assert forall i :: 0 <= i < n ==> lines[..n][i] == lines[i];
      LastLine(lines[n], key);
      if ExtraSections(lines).Ok? {
        var before := ExtraSections(lines[..n]).value;
        var extra := ExtraSections(lines).value;
        assert extra[..n] == before;
        LaterAssignments(lines, key);
      } else if ExtraSections(lines[..n]).InvalidLine? {
        var i :| 0 <= i < n && lines[..n][i] == ExtraSections(lines).line && !LineOk(lines[..n][i]) && forall j :: 0 <= j < i ==> LineOk(lines[..n][j]);
        assert forall j :: 0 <= j < i ==> lines[..n][j] == lines[j];
      }
    }
  }

  /** What the last line of extra_env turns into. */
  lemma LastLine(line: string, key: string)
    requires TrimmedLine(line) && IsName(key)
    ensures IsComment(line) <==> Remark(line)
    ensures Remark(line) ==> LineOk(line) && Tight(Raw(line)) && forall value :: !Assigns(line, key, value)
    ensures !Remark(line) ==> (LineOk(line) <==> ParseEnvLine(line).Ok?)
    ensures !Remark(line) && ParseEnvLine(line).Ok? ==> var s := ParseEnvLine(line).value;
              s.Set? && IsName(s.key) && Tight(s) && forall value :: Assigns(line, key, value) <==> key == s.key && value == s.value
    ensures !Remark(line) && ParseEnvLine(line).InvalidLine? ==> ParseEnvLine(line).line == line
  {
    hide IsName, Strip, TrimmedLine;
    if !Remark(line) {
      LineMeans(line);
      if ParseEnvLine(line).Ok? { ParsedIsTight(line); }
    }
  }

  lemma ParsedIsTight(line: string)
    requires TrimmedLine(line) && !IsComment(line) && ParseEnvLine(line).Ok?
    ensures Tight(ParseEnvLine(line).value)
  {
    hide Strip, IsName;
    StripIdempotent(line[EqualsAt(line) + 1..]);
  }

  lemma LaterAssignments(lines: seq<string>, key: string)
    requires lines != []
    ensures var n := |lines| - 1;
            (Unassigned(lines, key) <==> Unassigned(lines[..n], key) && forall value :: !Assigns(lines[n], key, value)) &&
            (forall value :: Assigns(lines[n], key, value) ==> LastAssigned(lines, key, value)) &&
            ((forall value :: !Assigns(lines[n], key, value)) ==>
              forall value :: LastAssigned(lines, key, value) <==> LastAssigned(lines[..n], key, value)) &&
            ((exists value :: Assigns(lines[n], key, value)) ==>
              forall value :: LastAssigned(lines, key, value) ==> Assigns(lines[n], key, value))
  {
    hide Assigns;
    var n := |lines| - 1;
    assert forall i :: 0 <= i < n ==> lines[..n][i] == lines[i];
    forall i | 0 <= i < n ensures NoneLater(lines, i, key) <==> NoneLater(lines[..n], i, key) && forall value :: !Assigns(lines[n], key, value) {
      assert NoneLater(lines, i, key) ==> forall value :: !Assigns(lines[n], key, value);
    }
    forall value | LastAssigned(lines[..n], key, value) && forall v :: !Assigns(lines[n], key, v) ensures LastAssigned(lines, key, value) {
      var i :| 0 <= i < n && Assigns(lines[..n][i], key, value) && NoneLater(lines[..n], i, key);
      assert Assigns(lines[i], key, value);
    }
  }

  lemma NoneIsLast(lines: seq<string>, key: string)
    requires Unassigned(lines, key)
    ensures forall value :: !LastAssigned(lines, key, value)
  {
    hide Assigns;
  }

  // ------------------------------------------------------------------------- theorem

  function Sections(fields: Fields, extra: seq<Section>): seq<Section> {
    Managed(AGENT_NAME, fields.agentName) + Managed(MODEL_ROUTE, fields.modelRoute) + Managed(GATEWAY_API_KEY, fields.gatewayKey) + extra
  }

  lemma ManagedNames()
    ensures IsName(AGENT_NAME) && IsName(MODEL_ROUTE) && IsName(GATEWAY_API_KEY)
    ensures AGENT_NAME != MODEL_ROUTE && AGENT_NAME != GATEWAY_API_KEY && MODEL_ROUTE != GATEWAY_API_KEY
    ensures '\n' !in AGENT_NAME && '\n' !in MODEL_ROUTE && '\n' !in GATEWAY_API_KEY
  {
    assert AGENT_NAME[0] == 'A' && MODEL_ROUTE[0] == 'M' && GATEWAY_API_KEY[0] == 'G';
  }

  lemma ManagedSets(k: string, field: string, key: string)
    requires IsName(k)
    ensures Proper(Managed(k, field))
    ensures LastSet(Managed(k, field), key) == if k == key && Strip(field) != "" then Some(Strip(field)) else None
  {
    hide Strip;
  }

  /** What the sections of a save set. */
  lemma SectionsSet(fields: Fields, extra: seq<Section>, key: string)
    requires Proper(extra)
    ensures Proper(Sections(fields, extra))
    ensures LastSet(Sections(fields, extra), key) == if LastSet(extra, key).Some? then LastSet(extra, key) else FilledIn(fields, key)
  {
    hide IsName, Strip, Managed, LastSet;
    ManagedNames();
    var a, b, c := Managed(AGENT_NAME, fields.agentName), Managed(MODEL_ROUTE, fields.modelRoute), Managed(GATEWAY_API_KEY, fields.gatewayKey);
    ManagedSets(AGENT_NAME, fields.agentName, key);
    ManagedSets(MODEL_ROUTE, fields.modelRoute, key);
    ManagedSets(GATEWAY_API_KEY, fields.gatewayKey, key);
    LastSetConcat(a + b + c, extra, key);
    LastSetConcat(a + b, c, key);
    LastSetConcat(a, b, key);
  }

  /** The lines a save writes. */
  function Written(fields: Fields, existing: Option<string>): seq<string>
    requires ExtraSections(TrimmedLines(fields.extraEnv)).Ok?
  {
    Merge(LinesOf(existing), Sections(fields, ExtraSections(TrimmedLines(fields.extraEnv)).value))
  }

  lemma NoLinesOfNothing()
    ensures TrimmedLines("") == []
  {
    assert SplitOn("", '\n') == [""] && [""][1..] == [];
    StripOfNothing();
    assert Trimmed([""]) == Trimmed([""][1..]);
  }

  /**
   * A save is refused exactly if a line of extra_env is neither a comment nor an assignment, and then it
   * names the first such line; it leaves the file out exactly if there is nothing to write; else it writes
   * lines in which every key has its last value from extra_env, else its own input, else what it had.
   */
  lemma SaveMeaning(fields: Fields, existing: Option<string>, key: string) returns (after: seq<string>)
    requires IsName(key)
    ensures var extra := TrimmedLines(fields.extraEnv); var r := Save(fields, existing);
            (r.Ok? <==> forall i :: 0 <= i < |extra| ==> LineOk(extra[i])) &&
            (r.InvalidLine? ==> exists i :: 0 <= i < |extra| && extra[i] == r.line && !LineOk(extra[i]) && forall j :: 0 <= j < i ==> LineOk(extra[j])) &&
            (r.Ok? ==> (r.value == None <==> AllBlank(fields))) &&
            (r.Ok? && r.value.Some? ==> r.value == Some(FileOf(after)) && Saved(fields, Lookup(LinesOf(existing), key), key, Lookup(after, key)))
  {
    hide IsName, TrimmedLines, Strip, LineOk, Unassigned, LastAssigned, ExtraSections, Merge, FileOf, LastSet, Lookup, Managed;
    var lines := TrimmedLines(fields.extraEnv);
    TrimmedLinesAreTrimmed(fields.extraEnv);
    ExtraMeans(lines, key);
    NoLinesOfNothing();
    after := [];
    if ExtraSections(lines).Ok? {
      var extra := ExtraSections(lines).value;
      after := Written(fields, existing);
      SectionsSet(fields, extra, key);
      MergeLookup(LinesOf(existing), Sections(fields, extra), key);
      EmptySections(fields, extra);
      if LastSet(extra, key).None? { NoneIsLast(lines, key); }
    }
  }

  lemma EmptySections(fields: Fields, extra: seq<Section>)
    ensures Sections(fields, extra) == [] <==>
              FilledIn(fields, AGENT_NAME) == None && FilledIn(fields, MODEL_ROUTE) == None && FilledIn(fields, GATEWAY_API_KEY) == None && extra == []
  {
    hide Strip;
    ManagedNames();
  }

  // ------------------------------------------------------------------------ read back

  /** Line i of a merge is a line that was there, a comment, or the first line of a key that was set. */
  ghost predicate LineFrom(lines: seq<string>, sections: seq<Section>, after: seq<string>, i: nat)
    requires i < |after|
  {
    after[i] in lines || (exists s :: s in sections && s.Raw? && s.text == after[i]) ||
    exists s :: s in sections && s.Set? && FirstWith(after, s.key) == i
  }

  lemma MergeOneFrom(lines: seq<string>, before: seq<string>, sections: seq<Section>, s: Section, i: nat)
    requires Proper(sections) && (if s.Set? then IsName(s.key) else IsComment(s.text)) && i < |MergeOne(before, s)|
    requires i < |before| ==> LineFrom(lines, sections, before, i)
    ensures LineFrom(lines, sections + [s], MergeOne(before, s), i)
  {
    hide IsName;
    var after := MergeOne(before, s);
    assert forall t :: t in sections ==> t in sections + [s];
    assert s in sections + [s];
    if s.Raw? {
      if i < |before| { FirstStays(before, after, i); }
    } else {
      var at := FirstWith(before, s.key);
      NameHasNoEquals(s.key);
      assert s.key + "=" <= s.key + "=" + s.value;
      FirstIs(after, s.key, if at == -1 then |before| else at);
      if i < |before| && i != at {
        if at == -1 { FirstStays(before, after, i); }
        else {
          forall t | t in sections && t.Set? && FirstWith(before, t.key) == i ensures FirstWith(after, t.key) == i {
            FirstKept(before, s, t.key);
          }
        }
      }
    }
  }

  lemma FirstStays(before: seq<string>, after: seq<string>, i: nat)
    requires before <= after && i < |before|
    ensures after[i] == before[i] && forall key :: FirstWith(before, key) == i ==> FirstWith(after, key) == i
  {
    forall key | FirstWith(before, key) == i ensures FirstWith(after, key) == i { FirstIs(after, key, i); }
  }

  lemma {:induction false} MergeFrom(lines: seq<string>, sections: seq<Section>, i: nat)
    requires Proper(sections) && i < |Merge(lines, sections)|
    ensures LineFrom(lines, sections, Merge(lines, sections), i)
  {
    hide IsName, MergeOne, LineFrom;
    if sections == [] {
      LineIsThere(lines, i);
    } else {
      var n := |sections| - 1;
      var before := Merge(lines, sections[..n]);
      if i < |before| { MergeFrom(lines, sections[..n], i); }
      MergeOneFrom(lines, before, sections[..n], sections[n], i);
      assert sections == sections[..n] + [sections[n]];
    }
  }

  lemma LineIsThere(lines: seq<string>, i: nat)
    requires i < |lines|
    ensures LineFrom(lines, [], lines, i)
  {
  }

  lemma SetLineTrimmed(key: string, value: string)
    requires IsName(key) && '\n' !in key && '\n' !in value && Strip(value) == value
    ensures TrimmedLine(key + "=" + value)
  {
    hide Strip;
    var line := key + "=" + value;
    StripEnds(line);
    if value != "" { StripEnds(value); }
    assert line[0] == key[0] && line[|line| - 1] == if value == "" then '=' else value[|value| - 1];
  }

  /** No input that gets written has a line break inside; extra_env has one assignment per line anyway. */
  ghost predicate OneLineEach(fields: Fields) {
    forall key :: FilledIn(fields, key).Some? && Unassigned(TrimmedLines(fields.extraEnv), key) ==> '\n' !in FilledIn(fields, key).value
  }

  lemma NamesAreOneLine(key: string)
    requires IsName(key)
    ensures '\n' !in key
  {
  }

  lemma {:induction false} LastSetIn(sections: seq<Section>, key: string)
    requires LastSet(sections, key).Some?
    ensures Set(key, LastSet(sections, key).value) in sections
  {
    var n := |sections| - 1;
    assert sections == sections[..n] + [sections[n]];
    if !(sections[n].Set? && sections[n].key == key) { LastSetIn(sections[..n], key); }
  }

  lemma {:induction false} SetHasLast(sections: seq<Section>, s: Section)
    requires s in sections && s.Set?
    ensures LastSet(sections, s.key).Some?
  {
    var n := |sections| - 1;
    assert sections == sections[..n] + [sections[n]];
    if sections[n] != s { SetHasLast(sections[..n], s); }
  }

  lemma FilledInIsTight(fields: Fields, key: string)
    requires FilledIn(fields, key).Some?
    ensures Strip(FilledIn(fields, key).value) == FilledIn(fields, key).value
  {
    hide Strip;
    StripIdempotent(FieldOf(fields, key).value);
  }

  /** The value a key ends with fits on its line. */
  lemma LastIsTight(fields: Fields, key: string)
    requires IsName(key) && ExtraSections(TrimmedLines(fields.extraEnv)).Ok? && OneLineEach(fields)
    ensures var last := LastSet(Sections(fields, ExtraSections(TrimmedLines(fields.extraEnv)).value), key);
            last.Some? ==> TrimmedLine(key + "=" + last.value)
  {
    hide IsName, TrimmedLines, Strip, ExtraSections, LastSet, Unassigned, TrimmedLine, Sections, FilledIn;
    var lines := TrimmedLines(fields.extraEnv);
    TrimmedLinesAreTrimmed(fields.extraEnv);
    ExtraMeans(lines, key);
    var extra := ExtraSections(lines).value;
    SectionsSet(fields, extra, key);
    NamesAreOneLine(key);
    if LastSet(extra, key).Some? {
      LastSetIn(extra, key);
      SetLineTrimmed(key, LastSet(extra, key).value);
    } else if FilledIn(fields, key).Some? {
      FilledInIsTight(fields, key);
      SetLineTrimmed(key, FilledIn(fields, key).value);
    }
  }

  lemma RawIsExtra(fields: Fields, extra: seq<Section>, s: Section)
    requires s in Sections(fields, extra) && s.Raw?
    ensures s in extra
  {
    hide Strip;
  }

  /** Then every written line is one line of the file. */
  lemma WrittenTrimmed(fields: Fields, existing: Option<string>)
    requires ExtraSections(TrimmedLines(fields.extraEnv)).Ok? && OneLineEach(fields)
    ensures forall i :: 0 <= i < |Written(fields, existing)| ==> TrimmedLine(Written(fields, existing)[i])
  {
    hide IsName, TrimmedLines, Strip, ExtraSections, LastSet, TrimmedLine, Sections, OneLineEach, Merge, Lookup;
    ManagedNames();
    var lines := TrimmedLines(fields.extraEnv);
    TrimmedLinesAreTrimmed(fields.extraEnv);
    if existing.Some? { TrimmedLinesAreTrimmed(existing.value); }
    ExtraMeans(lines, AGENT_NAME);
    var extra := ExtraSections(lines).value;
    var sections := Sections(fields, extra);
    SectionsSet(fields, extra, AGENT_NAME);
    var after := Written(fields, existing);
    forall i | 0 <= i < |after| ensures TrimmedLine(after[i]) {
      MergeFrom(LinesOf(existing), sections, i);
      if s :| s in sections && s.Set? && FirstWith(after, s.key) == i {
        assert IsName(s.key);
        SetHasLast(sections, s);
        SectionsSet(fields, extra, s.key);
        MergeLookup(LinesOf(existing), sections, s.key);
        LineOfFirst(after, s.key);
        LastIsTight(fields, s.key);
      } else if s :| s in sections && s.Raw? && s.text == after[i] {
        RawIsExtra(fields, extra, s);
      }
    }
  }

  /**
   * Read back from the file, every key has what the save gave it if and only if none of the inputs that are
   * written has a line break inside.
   */
  lemma SaveReadsBack(fields: Fields, existing: Option<string>)
    requires Save(fields, existing).Ok? && Save(fields, existing).value.Some?
    ensures OneLineEach(fields) <==>
              forall key :: IsName(key) ==>
                Saved(fields, Lookup(LinesOf(existing), key), key, Lookup(TrimmedLines(Save(fields, existing).value.value), key))
  {
    hide IsName, TrimmedLines, Strip, ExtraSections, Written, FileOf, Saved, OneLineEach, Lookup, FilledIn;
    var text := Save(fields, existing).value.value;
    if OneLineEach(fields) {
      forall key | IsName(key) ensures Saved(fields, Lookup(LinesOf(existing), key), key, Lookup(TrimmedLines(text), key)) {
        WritesWritten(fields, existing, key);
        WrittenTrimmed(fields, existing);
        FileReadsBack(Written(fields, existing));
      }
    } else {
      BreakIsLost(fields, existing, text);
    }
  }

  lemma WritesWritten(fields: Fields, existing: Option<string>, key: string)
    requires Save(fields, existing).Ok? && Save(fields, existing).value.Some? && IsName(key)
    ensures ExtraSections(TrimmedLines(fields.extraEnv)).Ok?
    ensures Save(fields, existing).value.value == FileOf(Written(fields, existing))
    ensures Saved(fields, Lookup(LinesOf(existing), key), key, Lookup(Written(fields, existing), key))
  {
    hide IsName, TrimmedLines, Strip, LineOk, Unassigned, LastAssigned, ExtraSections, Merge, FileOf, LastSet, Lookup, Managed;
    var lines := TrimmedLines(fields.extraEnv);
    TrimmedLinesAreTrimmed(fields.extraEnv);
    ExtraMeans(lines, key);
    NoLinesOfNothing();
    var extra := ExtraSections(lines).value;
    SectionsSet(fields, extra, key);
    MergeLookup(LinesOf(existing), Sections(fields, extra), key);
    if LastSet(extra, key).None? { NoneIsLast(lines, key); }
  }

  /** A value with a line break is never read back. */
  lemma BreakIsLost(fields: Fields, existing: Option<string>, text: string)
    requires !OneLineEach(fields)
    ensures exists key :: IsName(key) && !Saved(fields, Lookup(LinesOf(existing), key), key, Lookup(TrimmedLines(text), key))
  {
    hide TrimmedLines, Strip, IsName, Unassigned, LastAssigned;
    ManagedNames();
    var key :| FilledIn(fields, key).Some? && Unassigned(TrimmedLines(fields.extraEnv), key) && '\n' in FilledIn(fields, key).value;
    assert IsName(key);
    TrimmedLinesAreTrimmed(text);
    var lines := TrimmedLines(text);
    var i := FirstWith(lines, key);
    if i >= 0 { assert '\n' !in lines[i]; }
    assert Lookup(lines, key) != FilledIn(fields, key);
  }
}
