/** The structured editor's agent.env: what opening shows, what saving writes, and when the two cancel out. */
module EnvEditor {
  import opened A2aDoc
  import opened Text

  datatype Result<+T> = Ok(value: T) | InvalidLine(line: string)

  /** A key to set, or a comment line to append as it is. */
  datatype Section = Set(key: string, value: string) | Raw(text: string)

  /** The agent.env part of the structured form. */
  datatype Fields = Fields(agentName: string, modelRoute: string, gatewayKey: string, extraEnv: string)

  const AGENT_NAME := "AGENT_NAME"
  const MODEL_ROUTE := "MODEL_ROUTE"
  const GATEWAY_API_KEY := "GATEWAY_API_KEY"

  // -------------------------------------------------------------------- lines, keys

  function Trimmed(lines: seq<string>): seq<string> {
    if lines == [] then [] else (if Strip(lines[0]) == "" then [] else [Strip(lines[0])]) + Trimmed(lines[1..])
  }

  /** trimmedLines: a carriage return before the newline is trimmed like any white space. */
  function TrimmedLines(raw: string): seq<string> { Trimmed(SplitOn(raw, '\n')) }

  predicate IsComment(line: string) { line != "" && line[0] == '#' }

  /** indexOf of the equals sign. */
  function EqualsAt(line: string): (r: int)
    ensures -1 <= r < |line|
    ensures r >= 0 ==> line[r] == '=' && '=' !in line[..r]
    ensures r == -1 ==> '=' !in line
  {
    if line == "" then -1
    else if line[0] == '=' then 0
    else
      var r := EqualsAt(line[1..]);
      if r == -1 then -1 else
        assert line[..r + 1] == [line[0]] + line[1..][..r];
        r + 1
  }

  predicate IsLetter(c: char) { 'A' <= c <= 'Z' || 'a' <= c <= 'z' || c == '_' }

  predicate IsName(key: string) {
    key != "" && IsLetter(key[0]) && forall i :: 0 <= i < |key| ==> IsLetter(key[i]) || '0' <= key[i] <= '9'
  }

  /** parseEnvLine: white space around the separator is not part of key or value. */
  function ParseEnvLine(line: string): Result<Section> {
    var t := Strip(line);
    if t == "" || IsComment(t) then Ok(Set("", ""))
    else
      var eq := EqualsAt(t);
      if eq <= 0 || !IsName(Strip(t[..eq])) then InvalidLine(line)
      else Ok(Set(Strip(t[..eq]), Strip(t[eq + 1..])))
  }

  // ------------------------------------------------------------------- mergeEnvFile

  function FirstWith(lines: seq<string>, key: string): (r: int)
    ensures -1 <= r < |lines|
    ensures r >= 0 ==> key + "=" <= lines[r] && forall i :: 0 <= i < r ==> !(key + "=" <= lines[i])
    ensures r == -1 ==> forall i :: 0 <= i < |lines| ==> !(key + "=" <= lines[i])
  {
    if lines == [] then -1
    else if key + "=" <= lines[0] then 0
    else
      var r := FirstWith(lines[1..], key);
      assert forall i :: 1 <= i < |lines| ==> lines[i] == lines[1..][i - 1];
      if r == -1 then -1 else r + 1
  }

  function MergeOne(lines: seq<string>, s: Section): (r: seq<string>)
    ensures |r| >= |lines|
  {
    match s
    case Raw(text) => lines + [text]
    case Set(key, value) =>
      var i := FirstWith(lines, key);
      if i == -1 then lines + [key + "=" + value] else lines[i := key + "=" + value]
  }

  function Merge(lines: seq<string>, sections: seq<Section>): seq<string> {
    if sections == [] then lines else MergeOne(Merge(lines, sections[..|sections| - 1]), sections[|sections| - 1])
  }

  /** The file text: every line terminated. */
  function FileOf(lines: seq<string>): string { Join(lines + [""], '\n') }

  function MergedFile(existing: Option<string>, sections: seq<Section>): Option<string> {
    if sections == [] then None
    else Some(FileOf(Merge(TrimmedLines(if existing.Some? then existing.value else ""), sections)))
  }

  /** mergeEnvFile. */
  method MergeEnvFile(existing: Option<string>, sections: seq<Section>) returns (r: Option<string>)
    ensures r == MergedFile(existing, sections)
  {
    if sections == [] { return None; }
    var lines := TrimmedLines(if existing.Some? then existing.value else "");
    var out := lines;
    var i := 0;
    while i < |sections|
      invariant 0 <= i <= |sections| && out == Merge(lines, sections[..i])
    {
      assert sections[..i + 1][..i] == sections[..i];
      match sections[i] {
        case Raw(text) => out := out + [text];
        case Set(key, value) =>
          var at := FirstWith(out, key);
          if at == -1 { out := out + [key + "=" + value]; } else { out := out[at := key + "=" + value]; }
      }
      i := i + 1;
    }
    assert sections[..i] == sections;
    r := Some(FileOf(out));
  }

  // ------------------------------------------------------------------ what a merge means

  function Lookup(lines: seq<string>, key: string): Option<string> {
    var i := FirstWith(lines, key);
    if i == -1 then None else Some(lines[i][|key| + 1..])
  }

  function LastSet(sections: seq<Section>, key: string): Option<string> {
    if sections == [] then None
    else
      var s := sections[|sections| - 1];
      if s.Set? && s.key == key then Some(s.value) else LastSet(sections[..|sections| - 1], key)
  }

  /** Sections as the renderer makes them: names to set, comments to append. */
  predicate Proper(sections: seq<Section>) {
    forall i :: 0 <= i < |sections| ==> if sections[i].Set? then IsName(sections[i].key) else IsComment(sections[i].text)
  }

  lemma NameHasNoEquals(key: string)
    requires IsName(key)
    ensures '=' !in key && !IsComment(key)
  {
  }

  /** A line names one key only. */
  lemma OneKey(line: string, a: string, b: string)
    requires '=' !in a && '=' !in b && a != b && a + "=" <= line
    ensures !(b + "=" <= line)
  {
    assert line[|a|] == (a + "=")[|a|] == '=';
    if |a| < |b| {
      assert (b + "=")[|a|] == b[|a|] && b[|a|] in b;
    } else if |b| < |a| {
      assert line[|b|] == (a + "=")[|b|] == a[|b|] && a[|b|] in a && (b + "=")[|b|] == '=';
    } else {
      assert line[..|a|] == (a + "=")[..|a|] == a && (b + "=")[..|b|] == b;
    }
  }

  lemma CommentHasNoKey(line: string, key: string)
    requires IsName(key) && IsComment(line)
    ensures !(key + "=" <= line)
  {
    assert (key + "=")[0] == key[0];
  }

  lemma FirstIs(lines: seq<string>, key: string, i: nat)
    requires i < |lines| && key + "=" <= lines[i] && forall k :: 0 <= k < i ==> !(key + "=" <= lines[k])
    ensures FirstWith(lines, key) == i
  {
  }

  lemma MergeOneLookup(lines: seq<string>, s: Section, key: string)
    requires IsName(key) && (if s.Set? then IsName(s.key) else IsComment(s.text))
    ensures Lookup(MergeOne(lines, s), key) == if s.Set? && s.key == key then Some(s.value) else Lookup(lines, key)
  {
    var r := MergeOne(lines, s);
    var was := FirstWith(lines, key);
    NameHasNoEquals(key);
    if s.Raw? {
      CommentHasNoKey(s.text, key);
      if was >= 0 { FirstIs(r, key, was); }
    } else {
      NameHasNoEquals(s.key);
      var line := s.key + "=" + s.value;
      assert s.key + "=" <= line && line[|s.key| + 1..] == s.value;
      var at := FirstWith(lines, s.key);
      if s.key == key {
        FirstIs(r, key, if at == -1 then |lines| else at);
      } else {
        OneKey(line, s.key, key);
        if at >= 0 { OneKey(lines[at], s.key, key); }
        if was >= 0 { FirstIs(r, key, was); }
      }
    }
  }

  /** A merge gives each set key its last value and leaves every other key's value alone. */
  lemma {:induction false} MergeLookup(lines: seq<string>, sections: seq<Section>, key: string)
    requires IsName(key) && Proper(sections)
    ensures Lookup(Merge(lines, sections), key) == if LastSet(sections, key).Some? then LastSet(sections, key) else Lookup(lines, key)
  {
    hide IsName, Lookup, MergeOne;
    if sections != [] {
      var n := |sections| - 1;
      MergeLookup(lines, sections[..n], key);
      MergeOneLookup(Merge(lines, sections[..n]), sections[n], key);
    }
  }

  /** The same line, or one of the same set key. */
  predicate SameSlot(a: string, b: string, sections: seq<Section>) {
    a == b || exists i :: 0 <= i < |sections| && sections[i].Set? && sections[i].key + "=" <= a && sections[i].key + "=" <= b
  }

  /** No line moves: every existing line keeps its place, changed only if its key was set. */
  lemma {:induction false} MergeKeepsOrder(lines: seq<string>, sections: seq<Section>, i: nat)
    requires i < |lines| && Proper(sections)
    ensures i < |Merge(lines, sections)| && SameSlot(lines[i], Merge(lines, sections)[i], sections)
  {
    if sections != [] {
      var n := |sections| - 1;
      var before := Merge(lines, sections[..n]);
      MergeKeepsOrder(lines, sections[..n], i);
      var s := sections[n];
      if lines[i] != before[i] {
        var k :| 0 <= k < n && sections[..n][k].Set? && sections[..n][k].key + "=" <= lines[i] && sections[..n][k].key + "=" <= before[i];
        assert sections[k] == sections[..n][k];
        if s.Set? && FirstWith(before, s.key) == i { SameKeyTwice(before[i], sections[k].key, s.key); }
      }
    }
  }

  lemma SameKeyTwice(line: string, a: string, b: string)
    requires a + "=" <= line && b + "=" <= line
    requires IsName(a) && IsName(b)
    ensures a == b
  {
    NameHasNoEquals(a);
    NameHasNoEquals(b);
    if a != b { OneKey(line, a, b); }
  }

  // -------------------------------------------------------------- open, then save unedited

  /** A line the pre-fill of the extra field shows. */
  predicate IsExtra(line: string, secretish: string -> bool) {
    !IsComment(line) && EqualsAt(line) > 0 &&
    var key := Strip(line[..EqualsAt(line)]);
    key != AGENT_NAME && key != MODEL_ROUTE && !secretish(key)
  }

  function Extras(lines: seq<string>, secretish: string -> bool): seq<string> {
    if lines == [] then [] else (if IsExtra(lines[0], secretish) then [lines[0]] else []) + Extras(lines[1..], secretish)
  }

  /** The last MODEL_ROUTE line wins the field. */
  function RouteOf(lines: seq<string>): string {
    if lines == [] then ""
    else
      var line := lines[|lines| - 1];
      if !IsComment(line) && EqualsAt(line) > 0 && Strip(line[..EqualsAt(line)]) == MODEL_ROUTE then Strip(line[EqualsAt(line) + 1..])
      else RouteOf(lines[..|lines| - 1])
  }

  function JoinLines(lines: seq<string>): string { if lines == [] then "" else Join(lines, '\n') }

  /** buildFormPreFill for a device whose row carries a name; secrets stay blank. */
  function PreFill(content: string, deviceName: string, secretish: string -> bool): Fields {
    var lines := TrimmedLines(content);
    Fields(deviceName, RouteOf(lines), "", JoinLines(Extras(lines, secretish)))
  }

  function ExtraSections(lines: seq<string>): Result<seq<Section>> {
    if lines == [] then Ok([])
    else
      var n := |lines| - 1;
      match ExtraSections(lines[..n])
      case InvalidLine(l) => InvalidLine(l)
      case Ok(before) =>
        if IsComment(lines[n]) then Ok(before + [Raw(lines[n])])
        else
          match ParseEnvLine(lines[n])
          case InvalidLine(l) => InvalidLine(l)
          case Ok(s) => Ok(before + [s])
  }

  function Managed(key: string, field: string): seq<Section> { if Strip(field) == "" then [] else [Set(key, Strip(field))] }

  /** The agent.env part of renderCanonicalFiles. */
  function Save(fields: Fields, existing: Option<string>): Result<Option<string>> {
    match ExtraSections(TrimmedLines(fields.extraEnv))
    case InvalidLine(l) => InvalidLine(l)
    case Ok(extra) =>
      Ok(MergedFile(existing, Managed(AGENT_NAME, fields.agentName) + Managed(MODEL_ROUTE, fields.modelRoute) +
                              Managed(GATEWAY_API_KEY, fields.gatewayKey) + extra))
  }

  /** No padding around the separator, and a proper name before it. */
  predicate PlainLine(line: string) {
    !IsComment(line) && EqualsAt(line) > 0 ==>
      IsName(line[..EqualsAt(line)]) && Strip(line[EqualsAt(line) + 1..]) == line[EqualsAt(line) + 1..]
  }

  /** Trimmed lines, each of them plain; keys may repeat. */
  predicate AllPlain(lines: seq<string>) {
    forall i :: 0 <= i < |lines| ==> TrimmedLine(lines[i]) && PlainLine(lines[i])
  }

  /** No key has two lines. */
  ghost predicate DistinctKeys(lines: seq<string>) {
    forall i, j, key :: 0 <= i < j < |lines| && IsName(key) && key + "=" <= lines[i] ==> !(key + "=" <= lines[j])
  }

  /** The value on the last line of a key; Lookup is the value on its first. */
  function LastValue(lines: seq<string>, key: string): Option<string> {
    if lines == [] then None
    else if key + "=" <= lines[|lines| - 1] then Some(lines[|lines| - 1][|key| + 1..])
    else LastValue(lines[..|lines| - 1], key)
  }

  /** The form shows this key's lines: the route field shows the last route unless it is blank, the extra field what is not masked. */
  predicate Shown(lines: seq<string>, key: string, secretish: string -> bool) {
    if key == MODEL_ROUTE then LastValue(lines, key) != Some("") else !secretish(key)
  }

  lemma {:induction false} StripIdempotent(s: string)
    ensures Strip(Strip(s)) == Strip(s)
    ensures forall i :: 0 <= i < |Strip(s)| ==> Strip(s)[i] in s
  {
    LeftStripped(s);
    RightStripped(StripLeft(s));
  }

  lemma {:induction false} LeftStripped(s: string)
    ensures StripLeft(s) == "" || !IsSpace(StripLeft(s)[0])
    ensures forall i :: 0 <= i < |StripLeft(s)| ==> StripLeft(s)[i] in s
  {
    if s != "" && IsSpace(s[0]) { LeftStripped(s[1..]); }
  }

  lemma {:induction false} RightStripped(s: string)
    ensures StripRight(s) == "" || !IsSpace(StripRight(s)[|StripRight(s)| - 1])
    ensures StripRight(s) <= s && StripRight(StripRight(s)) == StripRight(s)
  {
    if s != "" && IsSpace(s[|s| - 1]) { RightStripped(s[..|s| - 1]); }
  }

  /** A trimmed line is its own trimming, non-empty and free of newlines. */
  predicate TrimmedLine(line: string) { line != "" && Strip(line) == line && '\n' !in line }

  lemma {:induction false} TrimmedAreTrimmed(lines: seq<string>)
    requires forall i :: 0 <= i < |lines| ==> '\n' !in lines[i]
    ensures forall i :: 0 <= i < |Trimmed(lines)| ==> TrimmedLine(Trimmed(lines)[i])
  {
    hide Strip;
    if lines != [] {
      TrimmedAreTrimmed(lines[1..]);
      StripIdempotent(lines[0]);
    }
  }

  lemma TrimmedLinesAreTrimmed(raw: string)
    ensures forall i :: 0 <= i < |TrimmedLines(raw)| ==> TrimmedLine(TrimmedLines(raw)[i])
  {
    PiecesAreFree(raw, '\n');
    TrimmedAreTrimmed(SplitOn(raw, '\n'));
  }

  lemma {:induction false} TrimmedOfTrimmed(lines: seq<string>)
    requires forall i :: 0 <= i < |lines| ==> TrimmedLine(lines[i])
    ensures Trimmed(lines) == lines && Trimmed(lines + [""]) == lines
  {
    hide Strip;
    assert Strip("") == "" by { StripOfNothing(); }
    if lines == [] {
      assert [] + [""] == [""] && [""][1..] == [];
    } else {
      assert lines[0] != "" && Strip(lines[0]) == lines[0];
      assert (lines + [""])[1..] == lines[1..] + [""];
      TrimmedOfTrimmed(lines[1..]);
    }
  }

  lemma StripOfNothing()
    ensures Strip("") == ""
  {
  }

  /** A file made of trimmed lines reads back as those lines. */
  lemma FileReadsBack(lines: seq<string>)
    requires forall i :: 0 <= i < |lines| ==> TrimmedLine(lines[i])
    ensures TrimmedLines(FileOf(lines)) == lines && TrimmedLines(JoinLines(lines)) == lines
  {
    hide Trimmed, Join, SplitOn;
    var all := lines + [""];
    forall i | 0 <= i < |all| ensures '\n' !in all[i] {}
    SplitJoin(all, '\n');
    TrimmedOfTrimmed(lines);
    if lines == [] {
      SplitPiece("", '\n', "");
      assert lines + [""] == [""];
    } else {
      SplitJoin(lines, '\n');
    }
  }

  lemma {:induction false} ExtrasAreLines(lines: seq<string>, secretish: string -> bool)
    ensures forall l :: l in Extras(lines, secretish) <==> l in lines && IsExtra(l, secretish)
  {
    hide IsExtra;
    if lines != [] {
      assert lines == [lines[0]] + lines[1..];
      ExtrasAreLines(lines[1..], secretish);
    }
  }

  lemma {:induction false} ExtrasBack(lines: seq<string>, secretish: string -> bool)
    requires lines != []
    ensures var n := |lines| - 1;
            Extras(lines, secretish) == Extras(lines[..n], secretish) + (if IsExtra(lines[n], secretish) then [lines[n]] else [])
  {
    hide IsExtra;
    var n := |lines| - 1;
    if n > 0 {
      ExtrasBack(lines[1..], secretish);
      assert lines[..n][1..] == lines[1..][..n - 1];
    }
  }

  lemma SplitAtEquals(line: string)
    requires EqualsAt(line) > 0 && IsName(line[..EqualsAt(line)])
    ensures var eq := EqualsAt(line); line == line[..eq] + "=" + line[eq + 1..] && line[..eq] + "=" <= line
  {
  }

  lemma {:induction false} NameStrips(s: string)
    requires forall i :: 0 <= i < |s| ==> !IsSpace(s[i])
    ensures Strip(s) == s
  {
  }

  lemma NameIsTight(key: string)
    requires IsName(key)
    ensures Strip(key) == key
  {
    forall i | 0 <= i < |key| ensures !IsSpace(key[i]) {}
    NameStrips(key);
  }

  /** Which key a plain line is for. */
  lemma KeyOfLine(line: string, key: string)
    requires PlainLine(line) && IsName(key)
    ensures key + "=" <= line <==> !IsComment(line) && EqualsAt(line) > 0 && line[..EqualsAt(line)] == key
    ensures key + "=" <= line ==> EqualsAt(line) == |key|
  {
    NameHasNoEquals(key);
    var eq := EqualsAt(line);
    if key + "=" <= line {
      CommentOrKey(line, key);
      assert line[|key|] == (key + "=")[|key|] == '=' && line[..|key|] == (key + "=")[..|key|] == key;
    } else if !IsComment(line) && eq > 0 {
      SplitAtEquals(line);
    }
  }

  lemma CommentOrKey(line: string, key: string)
    requires IsName(key) && key + "=" <= line
    ensures !IsComment(line)
  {
    if IsComment(line) { CommentHasNoKey(line, key); }
  }

  /** What the form's extra field sets back: the last value of every key it shows. */
  lemma {:induction false} ShownSections(lines: seq<string>, secretish: string -> bool, key: string)
    requires AllPlain(lines) && IsName(key)
    ensures ExtraSections(Extras(lines, secretish)).Ok?
    ensures var extra := ExtraSections(Extras(lines, secretish)).value;
            (forall k :: 0 <= k < |extra| ==> extra[k].Set? && IsName(extra[k].key) && extra[k].key + "=" + extra[k].value in lines) &&
            LastSet(extra, key) == if key == AGENT_NAME || key == MODEL_ROUTE || secretish(key) then None else LastValue(lines, key)
  {
    hide IsName, PlainLine, IsExtra, TrimmedLine, ParseEnvLine, Extras, ExtraSections, LastSet;
    if lines == [] {
      NoExtras(secretish, key);
    } else {
      var n := |lines| - 1;
      ShownSections(lines[..n], secretish, key);
      ExtrasBack(lines, secretish);
      assert forall l :: l in lines[..n] ==> l in lines;
      KeyOfLine(lines[n], key);
      OneExtra(lines[n], secretish);
      var before := Extras(lines[..n], secretish);
      if IsExtra(lines[n], secretish) {
        SectionsBack(before, lines[n], key);
      } else {
        assert before + [] == before;
      }
    }
  }

  lemma NoExtras(secretish: string -> bool, key: string)
    ensures ExtraSections(Extras([], secretish)) == Ok([]) && LastSet([], key) == None
  {
  }

  lemma SectionsBack(before: seq<string>, line: string, key: string)
    requires ExtraSections(before).Ok? && !IsComment(line) && ParseEnvLine(line).Ok?
    ensures var prev := ExtraSections(before).value; var s := ParseEnvLine(line).value;
            ExtraSections(before + [line]) == Ok(prev + [s]) &&
            LastSet(prev + [s], key) == if s.Set? && s.key == key then Some(s.value) else LastSet(prev, key)
  {
    hide ParseEnvLine;
    assert (before + [line])[..|before|] == before;
    var prev, s := ExtraSections(before).value, ParseEnvLine(line).value;
    assert (prev + [s])[..|prev|] == prev;
  }

  lemma OneExtra(line: string, secretish: string -> bool)
    requires TrimmedLine(line) && PlainLine(line)
    ensures !IsComment(line) && EqualsAt(line) > 0 ==>
              var key := line[..EqualsAt(line)];
              IsName(key) && (IsExtra(line, secretish) <==> key != AGENT_NAME && key != MODEL_ROUTE && !secretish(key)) &&
              ParseEnvLine(line) == Ok(Set(key, line[EqualsAt(line) + 1..])) && line == key + "=" + line[EqualsAt(line) + 1..]
    ensures IsExtra(line, secretish) ==> !IsComment(line) && EqualsAt(line) > 0
  {
    hide Strip;
    if !IsComment(line) && EqualsAt(line) > 0 {
      NameIsTight(line[..EqualsAt(line)]);
      SplitAtEquals(line);
    }
  }

  /** The route field holds the last route, blank if there is none. */
  lemma {:induction false} RouteIsLast(lines: seq<string>)
    requires AllPlain(lines)
    ensures RouteOf(lines) == var v := LastValue(lines, MODEL_ROUTE); if v.Some? then v.value else ""
    ensures RouteOf(lines) != "" ==> Strip(RouteOf(lines)) == RouteOf(lines) && MODEL_ROUTE + "=" + RouteOf(lines) in lines
  {
    hide Strip, IsName, TrimmedLine, PlainLine;
    RouteIsName();
    if lines != [] {
      var n := |lines| - 1;
      RouteIsLast(lines[..n]);
      assert forall l :: l in lines[..n] ==> l in lines;
      KeyOfLine(lines[n], MODEL_ROUTE);
      if !IsComment(lines[n]) && EqualsAt(lines[n]) > 0 { PlainParts(lines[n]); }
    }
  }

  lemma PlainParts(line: string)
    requires PlainLine(line) && !IsComment(line) && EqualsAt(line) > 0
    ensures var eq := EqualsAt(line);
            Strip(line[..eq]) == line[..eq] && Strip(line[eq + 1..]) == line[eq + 1..] && line == line[..eq] + "=" + line[eq + 1..]
  {
    hide Strip;
    NameIsTight(line[..EqualsAt(line)]);
    SplitAtEquals(line);
  }

  lemma RouteIsName()
    ensures IsName(MODEL_ROUTE) && IsName(AGENT_NAME) && MODEL_ROUTE != AGENT_NAME
  {
    assert MODEL_ROUTE[0] != AGENT_NAME[0];
  }

  lemma {:induction false} LastSetConcat(a: seq<Section>, b: seq<Section>, key: string)
    ensures LastSet(a + b, key) == if LastSet(b, key).Some? then LastSet(b, key) else LastSet(a, key)
  {
    if b == [] {
      assert a + b == a;
    } else {
      var n := |b| - 1;
      assert (a + b)[..|a + b| - 1] == a + b[..n];
      LastSetConcat(a, b[..n], key);
    }
  }

  // ---------------------------------------------------------- what the unedited save merges

  function UneditedSections(lines: seq<string>, name: string, secretish: string -> bool): seq<Section>
    requires ExtraSections(Extras(lines, secretish)).Ok?
  {
    [Set(AGENT_NAME, name)] + (if RouteOf(lines) == "" then [] else [Set(MODEL_ROUTE, RouteOf(lines))]) +
    ExtraSections(Extras(lines, secretish)).value
  }

  /** Saving the unedited form merges the name, the last route if any, and the shown lines. */
  lemma UneditedSave(content: string, deviceName: string, secretish: string -> bool)
    requires AllPlain(TrimmedLines(content)) && Strip(deviceName) != ""
    ensures var lines := TrimmedLines(content);
            ExtraSections(Extras(lines, secretish)).Ok? &&
            Save(PreFill(content, deviceName, secretish), Some(content)) ==
              Ok(Some(FileOf(Merge(lines, UneditedSections(lines, Strip(deviceName), secretish)))))
  {
    hide Strip, IsName, TrimmedLines, ExtraSections, RouteOf, Extras, Merge, FileOf, AllPlain, JoinLines;
    var lines := TrimmedLines(content);
    RouteIsName();
    ShownSections(lines, secretish, MODEL_ROUTE);
    RouteIsLast(lines);
    StripOfNothing();
    ExtrasReadBack(lines, secretish);
    var extra := ExtraSections(Extras(lines, secretish)).value;
    var route := if RouteOf(lines) == "" then [] else [Set(MODEL_ROUTE, RouteOf(lines))];
    var first := [Set(AGENT_NAME, Strip(deviceName))];
    assert first + route + [] + extra == first + route + extra;
  }

  lemma ExtrasReadBack(lines: seq<string>, secretish: string -> bool)
    requires AllPlain(lines)
    ensures TrimmedLines(JoinLines(Extras(lines, secretish))) == Extras(lines, secretish)
  {
    hide TrimmedLines, Extras, AllPlain, TrimmedLine;
    ExtrasAreLines(lines, secretish);
    PlainTrimmed(lines);
    assert forall l :: l in Extras(lines, secretish) ==> TrimmedLine(l);
    FileReadsBack(Extras(lines, secretish));
  }

  lemma PlainTrimmed(lines: seq<string>)
    requires AllPlain(lines)
    ensures forall i :: 0 <= i < |lines| ==> TrimmedLine(lines[i])
  {
  }

  /** All of it is names with trimmed lines, and all but the name's line is in the file already. */
  lemma UneditedFacts(lines: seq<string>, name: string, secretish: string -> bool, key: string)
    requires AllPlain(lines) && IsName(key) && TrimmedLine(name)
    ensures ExtraSections(Extras(lines, secretish)).Ok?
    ensures var all := UneditedSections(lines, name, secretish);
            (forall k :: 0 <= k < |all| ==> all[k].Set? && IsName(all[k].key) && TrimmedLine(all[k].key + "=" + all[k].value)) &&
            (forall k :: 0 < k < |all| ==> all[k].key + "=" + all[k].value in lines) &&
            LastSet(all, key) ==
              if key == AGENT_NAME then Some(name) else if Shown(lines, key, secretish) then LastValue(lines, key) else None
  {
    hide IsName, TrimmedLine, Extras, ExtraSections, RouteOf, LastValue;
    RouteIsName();
    ShownSections(lines, secretish, key);
    RouteIsLast(lines);
    NameLineTrimmed(name);
    var first := [Set(AGENT_NAME, name)];
    var route := if RouteOf(lines) == "" then [] else [Set(MODEL_ROUTE, RouteOf(lines))];
    var extra := ExtraSections(Extras(lines, secretish)).value;
    assert UneditedSections(lines, name, secretish) == first + route + extra;
    LastSetConcat(first + route, extra, key);
    LastSetConcat(first, route, key);
    OneSet(AGENT_NAME, name, key);
    OneSet(MODEL_ROUTE, RouteOf(lines), key);
  }

  lemma OneSet(k: string, v: string, key: string)
    ensures LastSet([Set(k, v)], key) == if k == key then Some(v) else None
    ensures LastSet([], key) == None
  {
  }

  lemma StripEnds(s: string)
    requires s != ""
    ensures Strip(s) == s <==> !IsSpace(s[0]) && !IsSpace(s[|s| - 1])
  {
    LeftStripped(s);
    RightStripped(StripLeft(s));
    ShorterLeft(s);
    ShorterRight(StripLeft(s));
  }

  lemma {:induction false} ShorterLeft(s: string)
    ensures |StripLeft(s)| <= |s| && (s != "" && IsSpace(s[0]) ==> |StripLeft(s)| < |s|)
  {
    if s != "" && IsSpace(s[0]) { ShorterLeft(s[1..]); }
  }

  lemma {:induction false} ShorterRight(s: string)
    ensures |StripRight(s)| <= |s| && (s != "" && IsSpace(s[|s| - 1]) ==> |StripRight(s)| < |s|)
  {
    if s != "" && IsSpace(s[|s| - 1]) { ShorterRight(s[..|s| - 1]); }
  }

  lemma NameLineTrimmed(name: string)
    requires TrimmedLine(name)
    ensures TrimmedLine(AGENT_NAME + "=" + name)
  {
    hide Strip;
    var line := AGENT_NAME + "=" + name;
    StripEnds(name);
    StripEnds(line);
    assert line[0] == AGENT_NAME[0] && line[|line| - 1] == name[|name| - 1];
    assert '\n' !in AGENT_NAME;
  }

  lemma {:induction false} MergeTrimmed(lines: seq<string>, sections: seq<Section>)
    requires forall i :: 0 <= i < |lines| ==> TrimmedLine(lines[i])
    requires forall k :: 0 <= k < |sections| ==> sections[k].Set? && TrimmedLine(sections[k].key + "=" + sections[k].value)
    ensures forall i :: 0 <= i < |Merge(lines, sections)| ==> TrimmedLine(Merge(lines, sections)[i])
  {
    hide TrimmedLine;
    if sections != [] { MergeTrimmed(lines, sections[..|sections| - 1]); }
  }

  lemma TrimmedName(deviceName: string)
    requires Strip(deviceName) != "" && '\n' !in deviceName
    ensures TrimmedLine(Strip(deviceName))
  {
    StripIdempotent(deviceName);
  }

  /**
   * What an unedited save leaves under a key other than AGENT_NAME: the value on the key's last line if
   * the form shows the key, else the value it had, which is the one on its first line.
   */
  lemma UneditedValue(content: string, deviceName: string, secretish: string -> bool, key: string)
    requires AllPlain(TrimmedLines(content)) && Strip(deviceName) != "" && '\n' !in deviceName && IsName(key)
    ensures var saved := Save(PreFill(content, deviceName, secretish), Some(content)); var lines := TrimmedLines(content);
            saved.Ok? && saved.value.Some? &&
            Lookup(TrimmedLines(saved.value.value), key) ==
              if key == AGENT_NAME then Some(Strip(deviceName))
              else if Shown(lines, key, secretish) then LastValue(lines, key) else Lookup(lines, key)
  {
    hide Strip, IsName, TrimmedLines, UneditedSections, Shown, AllPlain, FileOf, Merge;
    var lines := TrimmedLines(content);
    var name := Strip(deviceName);
    TrimmedName(deviceName);
    PlainTrimmed(lines);
    UneditedSave(content, deviceName, secretish);
    UneditedFacts(lines, name, secretish, key);
    var all := UneditedSections(lines, name, secretish);
    MergeTrimmed(lines, all);
    FileReadsBack(Merge(lines, all));
    MergeLookup(lines, all, key);
    LookupOrLast(lines, key);
  }

  lemma {:induction false} LookupOrLast(lines: seq<string>, key: string)
    ensures Lookup(lines, key).None? <==> LastValue(lines, key).None?
  {
    if lines != [] {
      var n := |lines| - 1;
      LookupOrLast(lines[..n], key);
      var i := FirstWith(lines, key);
      if i >= 0 && i < n { assert lines[..n][i] == lines[i]; }
      var j := FirstWith(lines[..n], key);
      if j >= 0 { assert lines[..n][j] == lines[j]; }
    }
  }

  /** An unedited save changes a value exactly where the form shows a key whose first and last lines differ. */
  lemma DuplicateKeyChanges(content: string, deviceName: string, secretish: string -> bool, key: string)
    requires AllPlain(TrimmedLines(content)) && Strip(deviceName) != "" && '\n' !in deviceName && IsName(key) && key != AGENT_NAME
    ensures var saved := Save(PreFill(content, deviceName, secretish), Some(content)); var lines := TrimmedLines(content);
            saved.Ok? && saved.value.Some? &&
            (Lookup(TrimmedLines(saved.value.value), key) != Lookup(lines, key) <==>
              Shown(lines, key, secretish) && LastValue(lines, key) != Lookup(lines, key))
  {
    hide Strip, IsName, TrimmedLines, Shown, AllPlain, Save, PreFill;
    UneditedValue(content, deviceName, secretish, key);
  }

  lemma FirstKept(lines: seq<string>, s: Section, key: string)
    requires s.Set? && IsName(s.key) && IsName(key) && FirstWith(lines, s.key) >= 0
    ensures FirstWith(MergeOne(lines, s), key) == FirstWith(lines, key)
  {
    NameHasNoEquals(s.key);
    NameHasNoEquals(key);
    var at, was := FirstWith(lines, s.key), FirstWith(lines, key);
    var r := MergeOne(lines, s);
    var line := s.key + "=" + s.value;
    assert s.key + "=" <= line;
    if key != s.key {
      OneKey(line, s.key, key);
      OneKey(lines[at], s.key, key);
    }
    if was >= 0 { FirstIs(r, key, was); }
  }

  /** Where every set key has a line, a merge puts its last value on the first of them and touches nothing else. */
  lemma {:induction false} MergePlaces(lines: seq<string>, sections: seq<Section>, i: nat, key: string)
    requires i < |lines| && IsName(key)
    requires forall k :: 0 <= k < |sections| ==> sections[k].Set? && IsName(sections[k].key) && FirstWith(lines, sections[k].key) >= 0
    ensures |Merge(lines, sections)| == |lines| && FirstWith(Merge(lines, sections), key) == FirstWith(lines, key)
    ensures Merge(lines, sections)[i] == lines[i] ||
            exists s :: s in sections && FirstWith(lines, s.key) == i && LastSet(sections, s.key).Some? &&
                        Merge(lines, sections)[i] == s.key + "=" + LastSet(sections, s.key).value
  {
    hide IsName, FirstWith;
    if sections != [] {
      var n := |sections| - 1;
      var s := sections[n];
      var before := Merge(lines, sections[..n]);
      MergePlaces(lines, sections[..n], i, key);
      MergePlaces(lines, sections[..n], i, s.key);
      FirstKept(before, s, key);
      var at := FirstWith(lines, s.key);
      assert s in sections && Merge(lines, sections) == before[at := s.key + "=" + s.value];
      if i == at {
        assert LastSet(sections, s.key) == Some(s.value);
      } else if before[i] != lines[i] {
        var t :| t in sections[..n] && FirstWith(lines, t.key) == i && LastSet(sections[..n], t.key).Some? &&
                 before[i] == t.key + "=" + LastSet(sections[..n], t.key).value;
        assert t in sections && LastSet(sections, t.key) == LastSet(sections[..n], t.key);
      }
    }
  }

  lemma MergeSame(lines: seq<string>, sections: seq<Section>)
    requires forall k :: 0 <= k < |sections| ==> sections[k].Set? && IsName(sections[k].key) && FirstWith(lines, sections[k].key) >= 0
    requires forall k :: 0 <= k < |sections| ==> LastSet(sections, sections[k].key) == Lookup(lines, sections[k].key)
    ensures Merge(lines, sections) == lines
  {
    hide IsName, LastSet, Merge;
    RouteIsName();
    if sections == [] {
      MergeNothing(lines);
    } else {
      assert FirstWith(lines, sections[0].key) >= 0;
      MergePlaces(lines, sections, 0, AGENT_NAME);
      forall i | 0 <= i < |lines| ensures Merge(lines, sections)[i] == lines[i] { SamePlace(lines, sections, i); }
    }
  }

  lemma SamePlace(lines: seq<string>, sections: seq<Section>, i: nat)
    requires forall k :: 0 <= k < |sections| ==> sections[k].Set? && IsName(sections[k].key) && FirstWith(lines, sections[k].key) >= 0
    requires forall k :: 0 <= k < |sections| ==> LastSet(sections, sections[k].key) == Lookup(lines, sections[k].key)
    requires i < |lines|
    ensures i < |Merge(lines, sections)| && Merge(lines, sections)[i] == lines[i]
  {
    hide IsName, LastSet, Merge, FirstWith;
    RouteIsName();
    MergePlaces(lines, sections, i, AGENT_NAME);
    forall key | FirstWith(lines, key) == i ensures lines[i] == key + "=" + Lookup(lines, key).value { LineOfFirst(lines, key); }
  }

  lemma LineOfFirst(lines: seq<string>, key: string)
    requires FirstWith(lines, key) >= 0
    ensures Lookup(lines, key).Some? && lines[FirstWith(lines, key)] == key + "=" + Lookup(lines, key).value
  {
  }

  lemma MergeNothing(lines: seq<string>)
    ensures Merge(lines, []) == lines
  {
  }

  /**
   * Open and save, unedited, over every file of plain lines: the lines stay exactly as they are if and
   * only if the file's AGENT_NAME is the device row's name, trimmed, and every key the form shows has the
   * same value on its first line as on its last.
   */
  lemma EditorRoundTrip(content: string, deviceName: string, secretish: string -> bool)
    requires AllPlain(TrimmedLines(content)) && Strip(deviceName) != "" && '\n' !in deviceName
    ensures var saved := Save(PreFill(content, deviceName, secretish), Some(content)); var lines := TrimmedLines(content);
            saved.Ok? && saved.value.Some? &&
            (TrimmedLines(saved.value.value) == lines <==>
              Lookup(lines, AGENT_NAME) == Some(Strip(deviceName)) &&
              forall key :: IsName(key) && key != AGENT_NAME && Shown(lines, key, secretish) ==> Lookup(lines, key) == LastValue(lines, key))
  {
    hide Strip, IsName, TrimmedLines, Shown, AllPlain, Save, PreFill, Lookup, LastValue;
    var lines := TrimmedLines(content);
    var saved := Save(PreFill(content, deviceName, secretish), Some(content));
    RouteIsName();
    UneditedValue(content, deviceName, secretish, AGENT_NAME);
    if TrimmedLines(saved.value.value) == lines {
      forall key | IsName(key) && key != AGENT_NAME && Shown(lines, key, secretish) ensures Lookup(lines, key) == LastValue(lines, key) {
        UneditedValue(content, deviceName, secretish, key);
      }
    } else if Lookup(lines, AGENT_NAME) == Some(Strip(deviceName)) &&
              forall key :: IsName(key) && key != AGENT_NAME && Shown(lines, key, secretish) ==> Lookup(lines, key) == LastValue(lines, key) {
      NothingChanges(content, deviceName, secretish);
    }
  }

  lemma NothingChanges(content: string, deviceName: string, secretish: string -> bool)
    requires AllPlain(TrimmedLines(content)) && Strip(deviceName) != "" && '\n' !in deviceName
    requires Lookup(TrimmedLines(content), AGENT_NAME) == Some(Strip(deviceName))
    requires forall key :: IsName(key) && key != AGENT_NAME && Shown(TrimmedLines(content), key, secretish) ==>
               Lookup(TrimmedLines(content), key) == LastValue(TrimmedLines(content), key)
    ensures var saved := Save(PreFill(content, deviceName, secretish), Some(content));
            saved.Ok? && saved.value.Some? && TrimmedLines(saved.value.value) == TrimmedLines(content)
  {
    hide Strip, IsName, TrimmedLines, AllPlain, Save, PreFill, LastValue, LastSet, UneditedSections, FileOf;
    var lines := TrimmedLines(content);
    var name := Strip(deviceName);
    TrimmedName(deviceName);
    PlainTrimmed(lines);
    UneditedSave(content, deviceName, secretish);
    RouteIsName();
    UneditedFacts(lines, name, secretish, AGENT_NAME);
    var all := UneditedSections(lines, name, secretish);
    assert all[0] == Set(AGENT_NAME, name) by { NameComesFirst(lines, name, secretish); }
    forall k | 0 <= k < |all| ensures FirstWith(lines, all[k].key) >= 0 && LastSet(all, all[k].key) == Lookup(lines, all[k].key) {
      var s := all[k];
      if k > 0 { HasFirst(lines, s); }
      UneditedFacts(lines, name, secretish, s.key);
      LastSetOf(all, k);
    }
    MergeSame(lines, all);
    FileReadsBack(lines);
  }

  lemma NameComesFirst(lines: seq<string>, name: string, secretish: string -> bool)
    requires ExtraSections(Extras(lines, secretish)).Ok?
    ensures |UneditedSections(lines, name, secretish)| > 0 && UneditedSections(lines, name, secretish)[0] == Set(AGENT_NAME, name)
  {
  }

  lemma HasFirst(lines: seq<string>, s: Section)
    requires s.Set? && s.key + "=" + s.value in lines
    ensures FirstWith(lines, s.key) >= 0
  {
    var i :| 0 <= i < |lines| && lines[i] == s.key + "=" + s.value;
    assert s.key + "=" <= lines[i];
  }

  lemma {:induction false} LastSetOf(sections: seq<Section>, k: nat)
    requires k < |sections| && sections[k].Set?
    ensures LastSet(sections, sections[k].key).Some?
  {
    var n := |sections| - 1;
    if k < n { LastSetOf(sections[..n], k); }
  }

  /** With distinct keys only the name is left of the condition. */
  lemma DistinctKeysRoundTrip(content: string, deviceName: string, secretish: string -> bool)
    requires AllPlain(TrimmedLines(content)) && DistinctKeys(TrimmedLines(content)) && Strip(deviceName) != "" && '\n' !in deviceName
    ensures var saved := Save(PreFill(content, deviceName, secretish), Some(content));
            saved.Ok? && saved.value.Some? &&
            (TrimmedLines(saved.value.value) == TrimmedLines(content) <==> Lookup(TrimmedLines(content), AGENT_NAME) == Some(Strip(deviceName)))
  {
    hide Strip, IsName, TrimmedLines, Shown, AllPlain, Save, PreFill, Lookup, LastValue, DistinctKeys;
    EditorRoundTrip(content, deviceName, secretish);
    forall key | IsName(key) ensures Lookup(TrimmedLines(content), key) == LastValue(TrimmedLines(content), key) {
      FirstIsLast(TrimmedLines(content), key);
    }
  }

  lemma FirstIsLast(lines: seq<string>, key: string)
    requires DistinctKeys(lines) && IsName(key)
    ensures Lookup(lines, key) == LastValue(lines, key)
  {
    hide IsName;
    var i := FirstWith(lines, key);
    if i >= 0 { LastIs(lines, key, i); } else { LookupOrLast(lines, key); }
  }

  lemma {:induction false} LastIs(lines: seq<string>, key: string, i: nat)
    requires i < |lines| && key + "=" <= lines[i] && forall j :: i < j < |lines| ==> !(key + "=" <= lines[j])
    ensures LastValue(lines, key) == Some(lines[i][|key| + 1..])
  {
    if i < |lines| - 1 { LastIs(lines[..|lines| - 1], key, i); }
  }
}
