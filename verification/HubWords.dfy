/** What the router reads out of free text: names, handoff verbs, guidance, and links to pull requests. */
module HubWords {
  import opened A2aDoc
  import opened Text
  import opened HubBoard

  predicate Spaces(s: string) { forall i :: 0 <= i < |s| ==> IsSpace(s[i]) }

  /** Something, with no white space at its ends. */
  predicate Tight(s: string) { s != "" && !IsSpace(s[0]) && !IsSpace(s[|s| - 1]) }

  predicate EndsLine(c: char) { '\n' <= c <= '\r' }

  lemma {:induction false} LeadGoes(lead: string, rest: string)
    requires Spaces(lead) && rest != "" && !IsSpace(rest[0])
    ensures StripLeft(lead + rest) == rest
  {
    if lead == "" {
      assert lead + rest == rest;
    } else {
      assert (lead + rest)[1..] == lead[1..] + rest && (lead + rest)[0] == lead[0];
      LeadGoes(lead[1..], rest);
    }
  }

  lemma {:induction false} TailShrinks(core: string, tail: string) returns (t: string)
    requires core != "" && !IsSpace(core[|core| - 1])
    ensures t <= tail && StripRight(core + tail) == core + t && (Spaces(tail) ==> t == "")
  {
    var s := core + tail;
    if tail == "" {
      assert s == core;
      t := "";
    } else if IsSpace(s[|s| - 1]) {
      var shorter := tail[..|tail| - 1];
      assert s[..|s| - 1] == core + shorter;
      t := TailShrinks(core, shorter);
    } else {
      assert s[|s| - 1] == tail[|tail| - 1];
      t := tail;
    }
  }

  /** White space around a tight text goes; inside, and what follows it, it may stay. */
  lemma StripAround(lead: string, core: string, tail: string) returns (t: string)
    requires Spaces(lead) && Tight(core)
    ensures t <= tail && Strip(lead + core + tail) == core + t && (Spaces(tail) ==> t == "")
  {
    assert lead + core + tail == lead + (core + tail);
    LeadGoes(lead, core + tail);
    t := TailShrinks(core, tail);
  }

  lemma {:induction false} BeforeIsPrefix(s: string, stop: char -> bool)
    ensures Before(s, stop) <= s && forall i :: 0 <= i < |Before(s, stop)| ==> !stop(Before(s, stop)[i])
    ensures Before(s, stop) == s || stop(s[|Before(s, stop)|])
  {
    if s != "" && !stop(s[0]) {
      BeforeIsPrefix(s[1..], stop);
      assert s == [s[0]] + s[1..];
    }
  }

  lemma {:induction false} BeforeCore(core: string, tail: string, stop: char -> bool)
    requires forall i :: 0 <= i < |core| ==> !stop(core[i])
    ensures Before(core + tail, stop) == core + Before(tail, stop)
  {
    if core == "" {
      assert core + tail == tail;
    } else {
      assert (core + tail)[1..] == core[1..] + tail && (core + tail)[0] == core[0];
      BeforeCore(core[1..], tail, stop);
      assert core == [core[0]] + core[1..];
    }
  }

  // -------------------------------------------------------------------------- verbs

  /** What may follow a verb: nothing, or a space or line end and anything. */
  predicate Follows(tail: string) { tail == "" || tail[0] == ' ' || EndsLine(tail[0]) }

  /** White space that stays on its line. */
  predicate Gap(s: string) { forall i :: 0 <= i < |s| ==> IsSpace(s[i]) && !EndsLine(s[i]) }

  /** A word of a line: no white space in it. */
  predicate IsWord(s: string) { s != "" && forall i :: 0 <= i < |s| ==> !IsSpace(s[i]) }

  lemma {:induction false} LowerIs(s: string, t: string)
    ensures Lower(s + t) == Lower(s) + Lower(t) && |Lower(s)| == |s|
  {
  }

  /** A text is read from its first line: the prefix, the gap and the verb stay, and what is left of the tail. */
  lemma HandoffLine(lead: string, gap: string, verb: string, tail: string) returns (t: string)
    requires Spaces(lead) && Gap(gap) && IsWord(verb) && Follows(tail)
    ensures Strip(Before(Strip(lead + ("HANDOFF:" + gap + verb) + tail), c => '\n' <= c <= '\r')) == "HANDOFF:" + gap + verb + t
    ensures t == "" || t[0] == ' '
  {
    hide Strip, Before;
    var core := "HANDOFF:" + gap + verb;
    assert core[|core| - 1] == verb[|verb| - 1] && core[0] == 'H';
    var t1 := StripAround(lead, core, tail);
    var eol := c => '\n' <= c <= '\r';
    forall i | 0 <= i < |core| ensures !eol(core[i]) { CoreOnLine(gap, verb, i); }
    BeforeCore(core, t1, eol);
    BeforeIsPrefix(t1, eol);
    var rest := Before(t1, eol);
    assert "" + core + rest == core + rest;
    t := StripAround("", core, rest);
    SpaceNext(tail, t1, rest, t);
  }

  /** A comment whose text opens with the prefix hands off with the word that comes next, whatever its case. */
  lemma VerbReadsBack(lead: string, gap: string, verb: string, tail: string)
    requires Spaces(lead) && Gap(gap) && IsWord(verb) && Follows(tail)
    ensures HandoffVerb(lead + ("HANDOFF:" + gap + verb) + tail) == Some(Lower(verb))
  {
    hide Strip, Before, Lower;
    var t := HandoffLine(lead, gap, verb, tail);
    var line := "HANDOFF:" + gap + verb + t;
    assert HANDOFF_PREFIX <= line && line[|HANDOFF_PREFIX|..] == gap + verb + t;
    FirstWordOf(gap, verb, t);
    LowerIs(verb, "");
  }

  lemma FirstWordOf(gap: string, verb: string, t: string)
    requires Spaces(gap) && IsWord(verb) && (t == "" || t[0] == ' ')
    ensures Strip(Before(Strip(gap + verb + t), c => c == ' ')) == verb
  {
    hide Strip, Before;
    var t2 := StripAround(gap, verb, t);
    var blank := c => c == ' ';
    BeforeCore(verb, t2, blank);
    assert t2 != "" ==> t2[0] == t[0];
    NothingBefore(t2, blank);
    assert verb + "" == verb && "" + verb + "" == verb;
    var t3 := StripAround("", verb, "");
  }

  lemma NothingBefore(s: string, stop: char -> bool)
    requires s == "" || stop(s[0])
    ensures Before(s, stop) == ""
  {
  }

  lemma CoreOnLine(gap: string, verb: string, i: nat)
    requires Gap(gap) && IsWord(verb) && i < |"HANDOFF:" + gap + verb|
    ensures !EndsLine(("HANDOFF:" + gap + verb)[i])
  {
    var prefix := "HANDOFF:";
    if i >= |prefix + gap| {
      assert (prefix + gap + verb)[i] == verb[i - |prefix + gap|];
    } else if i >= |prefix| {
      assert (prefix + gap + verb)[i] == gap[i - |prefix|];
    } else {
      assert (prefix + gap + verb)[i] == prefix[i];
    }
  }

  /** What is left of the tail on the line still starts with a space, if anything is left. */
  lemma SpaceNext(tail: string, t: string, rest: string, t2: string)
    requires Follows(tail) && t <= tail && rest <= t && t2 <= rest
    requires forall i :: 0 <= i < |rest| ==> !('\n' <= rest[i] <= '\r')
    ensures t2 == "" || t2[0] == ' '
  {
    if t2 != "" { assert t2[0] == rest[0] == t[0] == tail[0]; }
  }

  /** Any text that does not open with the prefix is chatter. */
  lemma ChatterHasNoVerb(text: string)
    ensures HandoffVerb(text).Some? ==> "HANDOFF:" <= Strip(text)
  {
    hide Strip;
    var eol := c => '\n' <= c <= '\r';
    var s := Strip(text);
    BeforeIsPrefix(s, eol);
    StartsTight(text);
    LineStarts(Before(s, eol));
  }

  /** So is the bare prefix. */
  lemma NoWordNoVerb(text: string)
    requires Spaces(text)
    ensures HandoffVerb("HANDOFF:" + text).None?
  {
    hide Strip, Before, Lower;
    var eol := c => '\n' <= c <= '\r';
    var core := "HANDOFF:";
    assert core[|core| - 1] == ':';
    assert "" + core + text == core + text && core + "" == core && "" + core + "" == core;
    var t := StripAround("", core, text);
    forall i | 0 <= i < |core| ensures !eol(core[i]) {}
    BeforeCore(core, "", eol);
    NothingBefore("", eol);
    var t2 := StripAround("", core, "");
    assert core[|HANDOFF_PREFIX|..] == "";
    NothingStrips();
    LowerIs("", "");
    NothingBefore("", c => c == ' ');
  }

  lemma NothingStrips()
    ensures Strip("") == ""
  {
  }

  lemma {:induction false} LeftTight(s: string)
    ensures StripLeft(s) == "" || !IsSpace(StripLeft(s)[0])
  {
    if s != "" && IsSpace(s[0]) { LeftTight(s[1..]); }
  }

  lemma {:induction false} RightIsPrefix(s: string)
    ensures StripRight(s) <= s
  {
    if s != "" && IsSpace(s[|s| - 1]) { RightIsPrefix(s[..|s| - 1]); }
  }

  lemma StartsTight(s: string)
    ensures Strip(s) == "" || !IsSpace(Strip(s)[0])
  {
    LeftTight(s);
    RightIsPrefix(StripLeft(s));
  }

  /** A line that does not start with white space starts as it does once stripped. */
  lemma LineStarts(line: string)
    requires line == "" || !IsSpace(line[0])
    ensures Strip(line) <= line
  {
    assert StripLeft(line) == line;
    RightIsPrefix(line);
  }

  // ----------------------------------------------------------------------- guidance

  /** A text is guidance exactly if it opens with the prefix, after white space or none. */
  lemma GuidanceIs(text: string)
    ensures IsGuidance(text) <==> exists lead, rest :: Spaces(lead) && text == lead + "GUIDANCE:" + rest
  {
    hide StripLeft, StripRight;
    var core := "GUIDANCE:";
    assert core[0] == 'G' && core[|core| - 1] == ':';
    forall lead, rest | Spaces(lead) && text == lead + core + rest ensures IsGuidance(text) {
      var t := StripAround(lead, core, rest);
    }
    if IsGuidance(text) {
      var lead := Lead(text);
      RightIsPrefix(StripLeft(text));
      var s := StripLeft(text);
      assert s == core + s[|core|..];
      assert text == lead + core + s[|core|..];
    }
  }

  lemma {:induction false} Lead(s: string) returns (lead: string)
    ensures Spaces(lead) && s == lead + StripLeft(s)
  {
    lead := "";
    if s != "" && IsSpace(s[0]) {
      var more := Lead(s[1..]);
      lead := [s[0]] + more;
      assert s == [s[0]] + s[1..];
    }
  }

  // -------------------------------------------------------------------------- names

  /** A bare account name: lower case, no decoration of its own. */
  predicate Bare(core: string) {
    core != "" && Lower(core) == core && '@' !in core && core != "thecabal" &&
    !("thecabal-" <= core) && !EndsWith(core, "-bot") && !EndsWith(core, "[bot]")
  }

  /** How a bot account may be marked. */
  predicate BotMark(s: string) { s == "" || s == "-bot" || s == "[bot]" || s == "-bot[bot]" }

  predicate MeshMark(s: string) { s == "" || s == "thecabal-" }

  /** However an account is written, with or without a domain, mesh prefix, bot suffix or capitals, its base name is the bare one. */
  lemma BaseNameIs(lead: string, written: string, domain: string, mesh: string, core: string, bot: string)
    requires Spaces(lead) && Tight(written) && Lower(written) == mesh + core + bot && MeshMark(mesh) && Bare(core) && BotMark(bot)
    requires Spaces(domain) || domain[0] == '@'
    ensures BaseName(lead + written + domain) == core
  {
    hide Strip, Before;
    var t := StripAround(lead, written, domain);
    var stop := c => c == '@';
    LowerIs(written, t);
    var low := mesh + core + bot;
    assert Lower(written + t) == low + Lower(t);
    forall i | 0 <= i < |low| ensures !stop(low[i]) { NoAt(mesh, core, bot, i); }
    BeforeCore(low, Lower(t), stop);
    assert t == "" || t[0] == '@';
    assert Lower(t) == "" || Lower(t)[0] == '@';
    NothingBefore(Lower(t), stop);
    assert low + "" == low;
    Undecorated(mesh, core, bot);
  }

  lemma NoAt(mesh: string, core: string, bot: string, i: nat)
    requires MeshMark(mesh) && '@' !in core && BotMark(bot) && i < |mesh + core + bot|
    ensures (mesh + core + bot)[i] != '@'
  {
    if i >= |mesh + core| {
      assert (mesh + core + bot)[i] == bot[i - |mesh + core|];
    } else if i >= |mesh| {
      assert (mesh + core + bot)[i] == core[i - |mesh|];
    } else {
      assert (mesh + core + bot)[i] == mesh[i];
    }
  }

  lemma Undecorated(mesh: string, core: string, bot: string)
    requires MeshMark(mesh) && Bare(core) && BotMark(bot)
    ensures DropSuffix(DropPrefix(DropSuffix(mesh + core + bot, "[bot]"), "thecabal-"), "-bot") == core
  {
    var tail := if bot == "-bot" || bot == "-bot[bot]" then "-bot" else "";
    var a := mesh + core + bot;
    SuffixGoes(mesh, core, bot, tail);
    var b := mesh + (core + tail);
    assert b == mesh + core + tail;
    PrefixGoes(mesh, core, tail);
    if tail == "" { assert core + tail == core; } else { assert (core + tail)[|core|..] == tail; }
  }

  lemma SuffixGoes(mesh: string, core: string, bot: string, tail: string)
    requires MeshMark(mesh) && Bare(core) && BotMark(bot) && tail == if bot == "-bot" || bot == "-bot[bot]" then "-bot" else ""
    ensures DropSuffix(mesh + core + bot, "[bot]") == mesh + core + tail
  {
    var a := mesh + core + bot;
    var n := |mesh + core + tail|;
    if bot == "[bot]" || bot == "-bot[bot]" {
      assert bot == tail + "[bot]";
      assert a == mesh + core + tail + "[bot]";
      assert a[n..] == "[bot]";
    } else {
      assert bot == tail;
      LastChars(mesh, core, tail);
    }
  }

  /** Without the mark, no name here ends in it. */
  lemma LastChars(mesh: string, core: string, tail: string)
    requires MeshMark(mesh) && Bare(core) && (tail == "" || tail == "-bot")
    ensures !EndsWith(mesh + core + tail, "[bot]")
  {
    var a := mesh + core + tail;
    var suffix := "[bot]";
    if tail == "-bot" {
      assert a[|a| - 1] == tail[3] == 't';
    } else {
      assert a == mesh + core;
      if |core| >= 5 {
        assert a[|a| - 5..] == core[|core| - 5..];
      } else if |a| >= 5 {
        assert mesh == "thecabal-";
        assert a[|a| - |core| - 1] == mesh[8] == '-';
        assert a[|a| - 5..][4 - |core|] == '-';
      }
    }
  }

  lemma PrefixGoes(mesh: string, core: string, tail: string)
    requires MeshMark(mesh) && Bare(core) && (tail == "" || tail == "-bot")
    ensures DropPrefix(mesh + core + tail, "thecabal-") == core + tail
  {
    var a := mesh + core + tail;
    if mesh == "" {
      assert a == core + tail;
      NotMeshNamed(core, tail);
    } else {
      assert a == mesh + (core + tail);
      assert a[9..] == core + tail;
    }
  }

  lemma NotMeshNamed(core: string, tail: string)
    requires Bare(core) && (tail == "" || tail == "-bot")
    ensures !("thecabal-" <= core + tail)
  {
    var a, prefix := core + tail, "thecabal-";
    if |core| >= 9 {
      assert a[..9] == core[..9];
    } else if |core| == 8 {
      assert a[..8] == core && prefix[..8] == "thecabal";
      if tail == "-bot" { assert a[..9][..8] == a[..8]; }
    } else if tail == "-bot" {
      assert a[|core|] == '-' && prefix[|core|] != '-';
    }
  }

  // -------------------------------------------------------------------------- links

  /** The five pieces of a link to a pull request, in any case. */
  ghost predicate LinkIn(text: string, before: string, scheme: string, host: string, pull: string, after: string) {
    text == before + scheme + host + pull + after && (Lower(scheme) == "http://" || Lower(scheme) == "https://") &&
    IsWord(host) && Lower(pull) == "/pull/" && after != "" && '0' <= after[0] <= '9'
  }

  lemma SliceOf(a: string, b: string, c: string)
    ensures (a + b + c)[|a|..|a| + |b|] == b
  {
  }

  lemma SliceHasNoSpace(text: string, host: string, start: nat, j: nat)
    requires start <= j <= |text| && text[start..j] == host && IsWord(host)
    ensures forall k :: start <= k < j ==> !IsSpace(text[k])
  {
    forall k | start <= k < j ensures !IsSpace(text[k]) { assert text[k] == text[start..j][k - start] == host[k - start]; }
  }

  lemma PlainScheme(text: string, i: nat, scheme: string)
    requires i + 7 <= |text| && text[i..i + 7] == scheme && Lower(scheme) == "http://"
    ensures MatchesAt(text, i, "http://") && !MatchesAt(text, i, "https://")
  {
    if i + 8 <= |text| { assert Lower(text[i..i + 8])[4] == LowerChar(text[i + 4]) == Lower(scheme)[4] == ':'; }
  }

  lemma LinkIsFound(text: string, before: string, scheme: string, host: string, pull: string, after: string)
    requires LinkIn(text, before, scheme, host, pull, after)
    ensures HasPrLink(text)
  {
    hide LowerChar, IsWord;
    var i := |before|;
    var start := i + |scheme|;
    var j := start + |host|;
    assert |Lower(scheme)| == |scheme| && |Lower(pull)| == |pull|;
    LinkSlices(text, before, scheme, host, pull, after);
    assert host != "" by { WordIsThere(host); }
    SliceHasNoSpace(text, host, start, j);
    if |scheme| == 7 { PlainScheme(text, i, scheme); }
    assert IsPrLink(text, i, j);
  }

  lemma WordIsThere(s: string)
    requires IsWord(s)
    ensures s != ""
  {
  }

  lemma LinkSlices(text: string, before: string, scheme: string, host: string, pull: string, after: string)
    requires text == before + scheme + host + pull + after && after != ""
    ensures var i := |before|; var start := i + |scheme|; var j := start + |host|; var k := j + |pull|;
            k < |text| && text[i..start] == scheme && text[start..j] == host && text[j..k] == pull && text[k] == after[0]
  {
    assert text == before + scheme + (host + pull + after);
    SliceOf(before, scheme, host + pull + after);
    assert text == (before + scheme + host) + pull + after;
    SliceOf(before + scheme + host, pull, after);
    assert text == (before + scheme) + host + (pull + after);
    SliceOf(before + scheme, host, pull + after);
  }

  /** A text counts as evidence exactly if it holds such a link. */
  lemma PrLinkIs(text: string)
    ensures HasPrLink(text) <==> exists before, scheme, host, pull, after :: LinkIn(text, before, scheme, host, pull, after)
  {
    hide IsPrLink;
    forall before, scheme, host, pull, after | LinkIn(text, before, scheme, host, pull, after) ensures HasPrLink(text) {
      LinkIsFound(text, before, scheme, host, pull, after);
    }
    if HasPrLink(text) {
      var i, j :| 0 <= i < j <= |text| && IsPrLink(text, i, j);
      var start := LinkParts(text, i, j);
    }
  }

  lemma LinkParts(text: string, i: nat, j: nat) returns (start: nat)
    requires i < j <= |text| && IsPrLink(text, i, j)
    ensures i <= start < j && j + 6 < |text| && LinkIn(text, text[..i], text[i..start], text[start..j], text[j..j + 6], text[j + 6..])
  {
    start := i + (if MatchesAt(text, i, "https://") then 8 else 7);
    assert text == text[..i] + text[i..start] + text[start..j] + text[j..j + 6] + text[j + 6..];
  }
}
