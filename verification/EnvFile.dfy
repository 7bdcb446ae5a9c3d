/** Env-style bundle files: the rotation's one-line update, and the editor's line-wise merge. */
module EnvFile {
  import opened A2aDoc
  import opened Text

  // ------------------------------------------------------------ bundledEnvValue, rotation

  predicate EnvChar(c: char) { 'A' <= c <= 'Z' || '0' <= c <= '9' || c == '_' }

  /** A name the reader recognises. */
  predicate EnvKey(key: string) { key != "" && forall i :: 0 <= i < |key| ==> EnvChar(key[i]) }

  predicate LineEnd(c: char) { c == '\n' || c == '\r' || c as int == 0x2028 || c as int == 0x2029 }

  predicate NoLineEnd(s: string) { forall i :: 0 <= i < |s| ==> !LineEnd(s[i]) }

  /** The line is a recognised name, an equals sign and a rest without line ends, for this very name. */
  predicate LineFor(line: string, key: string) { key + "=" <= line && NoLineEnd(line[|key| + 1..]) }

  /** The first matching line wins; a line that ends in a carriage return never matches. */
  function ValueIn(lines: seq<string>, key: string): string
    requires EnvKey(key)
  {
    if lines == [] then ""
    else if LineFor(lines[0], key) then Strip(lines[0][|key| + 1..])
    else ValueIn(lines[1..], key)
  }

  function BundledEnvValue(content: string, key: string): string
    requires EnvKey(key)
  {
    ValueIn(SplitOn(content, '\n'), key)
  }

  function NonEmpty(lines: seq<string>): seq<string> {
    if lines == [] then [] else (if lines[0] == "" then [] else [lines[0]]) + NonEmpty(lines[1..])
  }

  function ReplaceAll(lines: seq<string>, key: string, value: string): (r: seq<string>)
    ensures |r| == |lines|
    ensures forall i :: 0 <= i < |r| ==> r[i] == if key + "=" <= lines[i] then key + "=" + value else lines[i]
  {
    seq(|lines|, i requires 0 <= i < |lines| => if key + "=" <= lines[i] then key + "=" + value else lines[i])
  }

  predicate HasKey(lines: seq<string>, key: string) { exists i :: 0 <= i < |lines| && key + "=" <= lines[i] }

  function UpdatedLines(lines: seq<string>, key: string, value: string): seq<string> {
    ReplaceAll(lines, key, value) + (if HasKey(lines, key) then [] else [key + "=" + value])
  }

  /** mergeSpecForEnvUpdate: every line of the key is replaced, or one is appended; blank lines go. */
  function UpdatedEnv(content: string, key: string, value: string): (r: string)
  {
    Join(UpdatedLines(NonEmpty(SplitOn(content, '\n')), key, value) + [""], '\n')
  }

  method UpdateEnv(content: string, key: string, value: string) returns (next: string)
    ensures next == UpdatedEnv(content, key, value)
  {
    hide ReplaceAll, HasKey, SplitOn, NonEmpty, Join;
    var lines := NonEmpty(SplitOn(content, '\n'));
    NothingReplaced(key, value);
    var out: seq<string> := [];
    var replaced := false;
    var i := 0;
    while i < |lines|
      invariant 0 <= i <= |lines| && out == ReplaceAll(lines[..i], key, value) && replaced == HasKey(lines[..i], key)
    {
      ReplaceStep(lines, key, value, i);
      if key + "=" <= lines[i] {
        replaced := true;
        out := out + [key + "=" + value];
      } else {
        out := out + [lines[i]];
      }
      i := i + 1;
    }
    assert lines[..i] == lines;
    if !replaced { out := out + [key + "=" + value]; } else { assert out + [] == out; }
    next := Join(out + [""], '\n');
  }

  lemma NothingReplaced(key: string, value: string)
    ensures ReplaceAll([], key, value) == [] && !HasKey([], key)
  {
  }

  lemma ReplaceStep(lines: seq<string>, key: string, value: string, i: nat)
    requires i < |lines|
    ensures ReplaceAll(lines[..i + 1], key, value) == ReplaceAll(lines[..i], key, value) + [if key + "=" <= lines[i] then key + "=" + value else lines[i]]
    ensures HasKey(lines[..i + 1], key) <==> HasKey(lines[..i], key) || key + "=" <= lines[i]
  {
    assert lines[..i + 1] == lines[..i] + [lines[i]];
    if HasKey(lines[..i], key) {
      var k :| 0 <= k < i && key + "=" <= lines[..i][k];
      assert key + "=" <= lines[..i + 1][k];
    }
    assert lines[..i + 1][i] == lines[i];
  }

  lemma {:induction false} NonEmptyPieces(lines: seq<string>, sep: char)
    requires forall i :: 0 <= i < |lines| ==> sep !in lines[i]
    ensures forall i :: 0 <= i < |NonEmpty(lines)| ==> sep !in NonEmpty(lines)[i] && NonEmpty(lines)[i] != ""
  {
    if lines != [] { NonEmptyPieces(lines[1..], sep); }
  }

  /** The lines a reader of the updated file sees. */
  lemma UpdatedReadsBack(content: string, key: string, value: string)
    requires '\n' !in key && '\n' !in value
    ensures SplitOn(UpdatedEnv(content, key, value), '\n') == UpdatedLines(NonEmpty(SplitOn(content, '\n')), key, value) + [""]
  {
    hide SplitOn, Join, NonEmpty;
    var lines := NonEmpty(SplitOn(content, '\n'));
    PiecesAreFree(content, '\n');
    NonEmptyPieces(SplitOn(content, '\n'), '\n');
    var all := UpdatedLines(lines, key, value) + [""];
    forall i | 0 <= i < |all| ensures '\n' !in all[i] {}
    SplitJoin(all, '\n');
  }

  lemma {:induction false} ValueSkips(a: seq<string>, b: seq<string>, key: string)
    requires EnvKey(key) && forall i :: 0 <= i < |a| ==> !LineFor(a[i], key)
    ensures ValueIn(a + b, key) == ValueIn(b, key)
  {
    if a == [] {
      assert a + b == b;
    } else {
      assert (a + b)[1..] == a[1..] + b;
      ValueSkips(a[1..], b, key);
    }
  }

  /** Blank lines never matched anything. */
  lemma {:induction false} ValueNonEmpty(lines: seq<string>, key: string)
    requires EnvKey(key)
    ensures ValueIn(NonEmpty(lines), key) == ValueIn(lines, key)
  {
    if lines != [] {
      ValueNonEmpty(lines[1..], key);
      if lines[0] != "" { assert NonEmpty(lines)[1..] == NonEmpty(lines[1..]); }
      else { assert [] + NonEmpty(lines[1..]) == NonEmpty(lines[1..]); }
    }
  }

  /** A line of one key is never read as another key. */
  lemma OtherKey(line: string, key: string, other: string)
    requires EnvKey(key) && EnvKey(other) && key != other && key + "=" <= line
    ensures !(other + "=" <= line)
  {
    assert line[|key|] == (key + "=")[|key|] == '=' && !EnvChar('=');
    if |key| < |other| {
      assert EnvChar(other[|key|]) && (other + "=")[|key|] == other[|key|];
    } else if |other| < |key| {
      assert EnvChar(key[|other|]) && line[|other|] == (key + "=")[|other|] == key[|other|];
      assert (other + "=")[|other|] == '=';
    } else {
      assert line[..|key|] == (key + "=")[..|key|] == key && (other + "=")[..|other|] == other;
    }
  }

  lemma {:induction false} ReplacedValue(lines: seq<string>, key: string, value: string, other: string)
    requires EnvKey(key) && EnvKey(other) && NoLineEnd(value)
    ensures other != key ==> ValueIn(ReplaceAll(lines, key, value), other) == ValueIn(lines, other)
    ensures HasKey(lines, key) ==> ValueIn(ReplaceAll(lines, key, value), key) == Strip(value)
  {
    hide Strip;
    if lines != [] {
      var r := ReplaceAll(lines, key, value);
      assert r[1..] == ReplaceAll(lines[1..], key, value);
      ReplacedValue(lines[1..], key, value, other);
      var line := key + "=" + value;
      assert key + "=" <= line && line[|key| + 1..] == value;
      if key + "=" <= lines[0] {
        if other != key { OtherKey(lines[0], key, other); OtherKey(line, key, other); }
      } else if HasKey(lines, key) {
        var i :| 0 <= i < |lines| && key + "=" <= lines[i];
        assert key + "=" <= lines[1..][i - 1];
      }
    }
  }

  /**
   * The rotation's round trip: the value written is the value read back, and every other key reads as
   * it did before.
   */
  lemma EnvUpdateRoundTrip(content: string, key: string, value: string, other: string)
    requires EnvKey(key) && EnvKey(other) && NoLineEnd(value)
    ensures BundledEnvValue(UpdatedEnv(content, key, value), key) == Strip(value)
    ensures other != key ==> BundledEnvValue(UpdatedEnv(content, key, value), other) == BundledEnvValue(content, other)
  {
    hide SplitOn, Strip, UpdatedEnv, NonEmpty;
    assert '\n' !in key && '\n' !in value by { KeyHasNoNewline(key); }
    UpdatedReadsBack(content, key, value);
    var lines := NonEmpty(SplitOn(content, '\n'));
    var r := ReplaceAll(lines, key, value);
    var tail := (if HasKey(lines, key) then [] else [key + "=" + value]) + [""];
    assert UpdatedLines(lines, key, value) + [""] == r + tail;
    ReplacedValue(lines, key, value, other);
    ValueNonEmpty(SplitOn(content, '\n'), other);
    TailValue(lines, key, value, key);
    if other != key { TailValue(lines, key, value, other); }
  }

  lemma KeyHasNoNewline(key: string)
    requires EnvKey(key)
    ensures '\n' !in key
  {
  }

  lemma TailValue(lines: seq<string>, key: string, value: string, other: string)
    requires EnvKey(key) && EnvKey(other) && NoLineEnd(value)
    ensures var tail := (if HasKey(lines, key) then [] else [key + "=" + value]) + [""];
            ValueIn(ReplaceAll(lines, key, value) + tail, other) ==
              if other == key && !HasKey(lines, key) then Strip(value) else ValueIn(ReplaceAll(lines, key, value), other)
  {
    hide Strip;
    var r := ReplaceAll(lines, key, value);
    var line := key + "=" + value;
    assert key + "=" <= line && line[|key| + 1..] == value;
    assert !LineFor("", other);
    if HasKey(lines, key) {
      assert [] + [""] == [""];
      ValueAppend(r, [""], other);
      assert ValueIn([""], other) == "" by { assert [""][1..] == []; }
    } else {
      var tail := [line] + [""];
      assert tail[1..] == [""] && [""][1..] == [];
      ValueAppend(r, tail, other);
      if other == key {
        assert forall i :: 0 <= i < |r| ==> !LineFor(r[i], key);
        ValueSkips(r, tail, key);
      } else {
        OtherKey(line, key, other);
      }
    }
  }

  /** Appending matters only where nothing matched before. */
  lemma {:induction false} ValueAppend(a: seq<string>, b: seq<string>, key: string)
    requires EnvKey(key)
    ensures ValueIn(b, key) == "" ==> ValueIn(a + b, key) == ValueIn(a, key)
  {
    if a == [] {
      assert a + b == b;
    } else {
      assert (a + b)[1..] == a[1..] + b;
      ValueAppend(a[1..], b, key);
    }
  }

  /** Which line a read returns: the first that matches, whatever follows it; without one, nothing. */
  lemma ReadsFirstMatch(content: string, key: string, i: nat)
    requires EnvKey(key)
    requires var lines := SplitOn(content, '\n');
             i <= |lines| && (forall k :: 0 <= k < i ==> !LineFor(lines[k], key)) && (i < |lines| ==> LineFor(lines[i], key))
    ensures var lines := SplitOn(content, '\n'); BundledEnvValue(content, key) == if i < |lines| then Strip(lines[i][|key| + 1..]) else ""
  {
    hide SplitOn, Strip;
    var lines := SplitOn(content, '\n');
    assert lines == lines[..i] + lines[i..];
    ValueSkips(lines[..i], lines[i..], key);
  }

  predicate DosLine(line: string) { line != "" && line[|line| - 1] == '\r' }

  lemma DosLineNeverMatches(line: string, key: string)
    requires DosLine(line)
    ensures !LineFor(line, key)
  {
    if key + "=" <= line {
      assert line[|key|] == (key + "=")[|key|];
      assert line[|key| + 1..][|line| - |key| - 2] == '\r';
    }
  }

  /**
   * A file with DOS line ends reads as if it had no key at all, except that a last line without a line end
   * is read: whatever the content, if all lines before the last end in a carriage return, no key is read from them.
   */
  lemma DosLinesAreNotRead(content: string, key: string)
    requires EnvKey(key)
    requires var lines := SplitOn(content, '\n'); forall i :: 0 <= i < |lines| - 1 ==> DosLine(lines[i])
    ensures var lines := SplitOn(content, '\n'); var last := lines[|lines| - 1];
            BundledEnvValue(content, key) == if LineFor(last, key) then Strip(last[|key| + 1..]) else ""
    ensures var lines := SplitOn(content, '\n'); lines[|lines| - 1] == "" || DosLine(lines[|lines| - 1]) ==> BundledEnvValue(content, key) == ""
  {
    hide SplitOn, Strip, LineFor;
    var lines := SplitOn(content, '\n');
    var n := |lines| - 1;
    forall i | 0 <= i < |lines| && DosLine(lines[i]) ensures !LineFor(lines[i], key) { DosLineNeverMatches(lines[i], key); }
    EmptyNeverMatches(key);
    if LineFor(lines[n], key) { ReadsFirstMatch(content, key, n); } else { ReadsFirstMatch(content, key, n + 1); }
  }

  lemma EmptyNeverMatches(key: string)
    ensures !LineFor("", key)
  {
  }
}
