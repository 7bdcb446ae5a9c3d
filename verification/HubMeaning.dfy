/** What a tick makes of a bead that is at work or parked, said by its fields and by the thread's comments. */
module HubMeaning {
  import opened A2aDoc
  import opened Text
  import opened HubBoard
  import opened HubSweep
  import opened HubDispatch

  // ------------------------------------------------------------------ the thread

  /** A comment of this account after this time. */
  ghost predicate Word(c: Comment, since: int, author: string) {
    c.at.Some? && c.at.value > since && BaseName(c.author) == author
  }

  /** Comment j comes before comment k: earlier, or at the same time and higher up. */
  ghost predicate NotLater(thread: seq<Comment>, j: int, k: int)
    requires 0 <= j < |thread| && 0 <= k < |thread| && thread[j].at.Some? && thread[k].at.Some?
  {
    thread[j].at.value < thread[k].at.value || (thread[j].at.value == thread[k].at.value && j <= k)
  }

  /** Comment k is the account's last handoff since then. */
  ghost predicate LastVerb(thread: seq<Comment>, since: int, author: string, k: int) {
    0 <= k < |thread| && Word(thread[k], since, author) && HandoffVerb(thread[k].text).Some? &&
    forall j :: 0 <= j < |thread| && Word(thread[j], since, author) && HandoffVerb(thread[j].text).Some? ==> NotLater(thread, j, k)
  }

  /** Comment k is the first since then of any of these accounts. */
  ghost predicate FirstWord(thread: seq<Comment>, since: int, authors: set<string>, k: int) {
    0 <= k < |thread| && thread[k].at.Some? && thread[k].at.value > since && BaseName(thread[k].author) in authors &&
    forall j :: 0 <= j < |thread| && thread[j].at.Some? && thread[j].at.value > since && BaseName(thread[j].author) in authors ==>
      NotLater(thread, k, j)
  }

  /** The account said something less than so long ago, or was dispatched then. */
  ghost predicate Heard(thread: seq<Comment>, since: int, author: string, limit: int) {
    since >= limit || (author != "" && exists k :: 0 <= k < |thread| && Word(thread[k], since, author) && thread[k].at.value >= limit)
  }

  // --------------------------------------------------------------------- the bead

  ghost predicate InStage(s: Option<Stage>) { s == Some(Dev) || s == Some(Test) || s == Some(Review) }

  /** Dispatched to its agent, which has not handed it on. */
  ghost predicate AtItsAgent(b: Bead) { b.status == InProgress && InStage(b.stage) && b.dispatchedAt.Some? }

  ghost predicate WithTheOwner(b: Bead) { b.status == Blocked && InStage(b.blockedFrom) && b.blockedAt.Some? }

  /** Where a verb takes a bead of this stage. */
  function NextStage(stage: Stage, verb: string): Option<Stage> {
    if stage == Dev && verb == "dev-done" then Some(Test)
    else if stage == Test && verb == "test-pass" then Some(Review)
    else if (stage == Test && verb == "test-fail") || (stage == Review && verb == "changes-requested") then Some(Dev)
    else if stage == Review && verb == "review-accepted" then Some(Merge)
    else None
  }

  /** The handoff its agent made, if it is not the owner's own bead. */
  ghost predicate HandedOff(cfg: Config, b: Bead, thread: seq<Comment>, verb: string)
    requires AtItsAgent(b)
  {
    BaseName(b.assignee) != "" && BaseName(b.assignee) != BaseName(cfg.owner) &&
    exists k :: LastVerb(thread, b.dispatchedAt.value, BaseName(b.assignee), k) && HandoffVerb(thread[k].text) == Some(verb)
  }

  /** Parked with the owner, to come back to this stage, with a remark. */
  ghost predicate IsParked(cfg: Config, now: int, was: Bead, b: Bead, stage: Stage, said: seq<Comment>) {
    b == was.(assignee := cfg.owner, status := Blocked, blockedFrom := Some(stage), blockedAt := Some(now - now % 1_000_000),
              dispatchedAt := None, pending := None) &&
    SaidBy(cfg, now, said)
  }

  /** One comment, the router's, dated now. */
  ghost predicate SaidBy(cfg: Config, now: int, said: seq<Comment>) { |said| == 1 && said[0].author == cfg.actor && said[0].at == Some(now) }

  /** Staged onward: the owner's for merge, or pending for the next stage's agent. */
  ghost predicate IsHandedOn(cfg: Config, now: int, was: Bead, b: Bead, stage: Stage, said: seq<Comment>) {
    if stage == Merge then
      b == was.(assignee := cfg.owner, status := Open, stage := Some(Merge), dispatchedAt := None, pending := None, blockedFrom := None, blockedAt := None) &&
      SaidBy(cfg, now, said)
    else
      stage in cfg.roster && said == [] &&
      b == was.(assignee := cfg.roster[stage], status := Open, stage := Some(stage), pending := Some(1), dispatchedAt := None, blockedFrom := None, blockedAt := None)
  }

  /** What becomes of a bead at its agent, and what the router says about it. */
  ghost predicate AgentOutcome(cfg: Config, now: int, was: Bead, thread: seq<Comment>, b: Bead, said: seq<Comment>)
    requires AtItsAgent(was)
  {
    (forall verb :: HandedOff(cfg, was, thread, verb) ==>
      var next := NextStage(was.stage.value, verb);
      if next.Some? && (next.value == Merge || next.value in cfg.roster) then IsHandedOn(cfg, now, was, b, next.value, said)
      else IsParked(cfg, now, was, b, was.stage.value, said)) &&
    ((forall verb :: !HandedOff(cfg, was, thread, verb)) ==>
      if was.dispatchedAt.value < now - cfg.silent || !Heard(thread, was.dispatchedAt.value, BaseName(was.assignee), now - cfg.grace)
      then IsParked(cfg, now, was, b, was.stage.value, said)
      else b == was && said == [])
  }

  /** What becomes of a bead parked with the owner. */
  ghost predicate OwnerOutcome(cfg: Config, was: Bead, thread: seq<Comment>, b: Bead, said: seq<Comment>)
    requires WithTheOwner(was)
  {
    said == [] &&
    if was.blockedFrom.value in cfg.roster && exists k :: FirstWord(thread, was.blockedAt.value, cfg.ownerAuthors, k) && IsGuidance(thread[k].text)
    then b == was.(assignee := cfg.roster[was.blockedFrom.value], status := Open, pending := Some(1), blockedFrom := None, blockedAt := None)
    else b == was
  }

  // ----------------------------------------------------------- reading a sorted thread

  lemma LastOfAppended(cs: seq<Comment>, c: Comment, author: string)
    ensures LastHandoff(cs + [c], author) == if IsHandoffBy(c, author) then Some(c) else LastHandoff(cs, author)
    ensures LastHandoff([], author) == None
  {
    hide IsHandoffBy;
    assert (cs + [c])[..|cs|] == cs;
  }

  lemma {:induction false} LastOfInserted(cs: seq<Comment>, c: Comment, author: string)
    requires c.at.Some? && AllTimed(cs) && ByTime(cs)
    ensures var was := LastHandoff(cs, author);
            (was.Some? ==> was.value in cs) &&
            LastHandoff(InsertByTime(cs, c), author) ==
              if IsHandoffBy(c, author) && (was.Some? ==> was.value.at.value <= c.at.value) then Some(c) else was
  {
    hide IsHandoffBy, LastHandoff;
    LastOfAppended(cs, c, author);
    LastIsIn(cs, author);
    if cs == [] {
      assert [] + [c] == [c];
    } else {
      var n := |cs| - 1;
      assert cs == cs[..n] + [cs[n]];
      LastOfAppended(cs[..n], cs[n], author);
      if cs[n].at.value > c.at.value {
        LastOfInserted(cs[..n], c, author);
        LastOfAppended(InsertByTime(cs[..n], c), cs[n], author);
      }
    }
  }

  lemma {:induction false} LastIsIn(cs: seq<Comment>, author: string)
    requires AllTimed(cs) && ByTime(cs)
    ensures LastHandoff(cs, author).Some? ==>
              LastHandoff(cs, author).value in cs && forall i :: 0 <= i < |cs| && i == |cs| - 1 ==> LastHandoff(cs, author).value.at.value <= cs[i].at.value
  {
    hide IsHandoffBy;
    if cs != [] {
      var n := |cs| - 1;
      assert cs == cs[..n] + [cs[n]];
      LastIsIn(cs[..n], author);
    }
  }

  ghost predicate VerbOf(c: Comment, since: int, author: string) { Word(c, since, author) && HandoffVerb(c.text).Some? }

  ghost predicate NoVerb(thread: seq<Comment>, since: int, author: string) { forall j :: 0 <= j < |thread| ==> !VerbOf(thread[j], since, author) }

  lemma NoVerbStep(thread: seq<Comment>, since: int, author: string)
    requires thread != []
    ensures NoVerb(thread, since, author) <==> NoVerb(thread[..|thread| - 1], since, author) && !VerbOf(thread[|thread| - 1], since, author)
  {
    hide VerbOf;
    var init := thread[..|thread| - 1];
    assert forall j :: 0 <= j < |init| ==> init[j] == thread[j];
  }

  /** The last handoff of the sorted comments is the thread's last in time, ties by place. */
  lemma {:induction false} LastVerbIs(thread: seq<Comment>, since: int, author: string) returns (k: int)
    ensures var h := LastHandoff(Since(thread, since), author);
            if h.Some? then LastVerb(thread, since, author, k) && thread[k] == h.value
            else NoVerb(thread, since, author)
  {
    hide HandoffVerb, BaseName, LastVerb, Word;
    k := -1;
    if thread != [] {
      var n := |thread| - 1;
      var init, c := thread[..n], thread[n];
      k := LastVerbIs(init, since, author);
      SinceFacts(init, since);
      WordForms(c, since, author);
      NoVerbStep(thread, since, author);
      if HubBoard.After(c, since) { LastOfInserted(Since(init, since), c, author); }
      var was := LastHandoff(Since(init, since), author);
      if was.Some? { LastVerbHas(init, since, author, k); }
      if VerbOf(c, since, author) {
        if was.Some? && was.value.at.value > c.at.value {
          LaterDoesNotCount(thread, since, author, k);
        } else {
          NowLast(thread, since, author, k, was.Some?);
          k := n;
        }
      } else if was.Some? {
        OthersDoNotCount(thread, since, author, k);
      }
    }
  }

  lemma WordForms(c: Comment, since: int, author: string)
    ensures VerbOf(c, since, author) <==> HubBoard.After(c, since) && IsHandoffBy(c, author)
  {
  }

  lemma LastVerbHas(thread: seq<Comment>, since: int, author: string, k: int)
    requires LastVerb(thread, since, author, k)
    ensures 0 <= k < |thread| && thread[k].at.Some? && VerbOf(thread[k], since, author)
  {
  }

  lemma OthersDoNotCount(thread: seq<Comment>, since: int, author: string, k: int)
    requires thread != [] && LastVerb(thread[..|thread| - 1], since, author, k) && !VerbOf(thread[|thread| - 1], since, author)
    ensures LastVerb(thread, since, author, k)
  {
    hide HandoffVerb, BaseName;
    var init := thread[..|thread| - 1];
    forall j | 0 <= j < |thread| && VerbOf(thread[j], since, author) ensures NotLater(thread, j, k) { assert init[j] == thread[j]; }
  }

  lemma LaterDoesNotCount(thread: seq<Comment>, since: int, author: string, k: int)
    requires thread != [] && LastVerb(thread[..|thread| - 1], since, author, k)
    requires thread[|thread| - 1].at.Some? && thread[..|thread| - 1][k].at.value > thread[|thread| - 1].at.value
    ensures LastVerb(thread, since, author, k)
  {
    hide HandoffVerb, BaseName;
    var init := thread[..|thread| - 1];
    forall j | 0 <= j < |thread| && VerbOf(thread[j], since, author) ensures NotLater(thread, j, k) {
      if j < |init| { assert init[j] == thread[j]; }
    }
  }

  lemma NowLast(thread: seq<Comment>, since: int, author: string, k: int, some: bool)
    requires thread != [] && VerbOf(thread[|thread| - 1], since, author)
    requires some ==> LastVerb(thread[..|thread| - 1], since, author, k) && thread[..|thread| - 1][k].at.value <= thread[|thread| - 1].at.value
    requires !some ==> NoVerb(thread[..|thread| - 1], since, author)
    ensures LastVerb(thread, since, author, |thread| - 1)
  {
    hide HandoffVerb, BaseName;
    var init := thread[..|thread| - 1];
    forall j | 0 <= j < |thread| && VerbOf(thread[j], since, author) ensures NotLater(thread, j, |thread| - 1) {
      if j < |init| { assert init[j] == thread[j]; }
    }
  }

  lemma OneLastVerb(thread: seq<Comment>, since: int, author: string, k: int, l: int)
    requires LastVerb(thread, since, author, k) && LastVerb(thread, since, author, l)
    ensures k == l
  {
    hide HandoffVerb, BaseName;
    assert NotLater(thread, k, l) && NotLater(thread, l, k);
  }

  // ---------------------------------------------------------------- the owner's first word

  ghost predicate OwnersWord(c: Comment, since: int, authors: set<string>) { c.at.Some? && c.at.value > since && BaseName(c.author) in authors }

  lemma {:induction false} FirstOfAppended(cs: seq<Comment>, c: Comment, authors: set<string>)
    ensures FirstBy(cs + [c], authors) ==
            if FirstBy(cs, authors).Some? then FirstBy(cs, authors) else if BaseName(c.author) in authors then Some(c) else None
  {
    hide BaseName;
    if cs != [] {
      assert (cs + [c])[1..] == cs[1..] + [c];
      FirstOfAppended(cs[1..], c, authors);
    } else {
      assert [c][1..] == [];
    }
  }

  lemma {:induction false} FirstIsIn(cs: seq<Comment>, authors: set<string>)
    ensures FirstBy(cs, authors).Some? ==> FirstBy(cs, authors).value in cs
  {
    if cs != [] { FirstIsIn(cs[1..], authors); }
  }

  lemma {:induction false} FirstOfInserted(cs: seq<Comment>, c: Comment, authors: set<string>)
    requires c.at.Some? && AllTimed(cs) && ByTime(cs)
    ensures var was := FirstBy(cs, authors);
            (was.Some? ==> was.value in cs) &&
            FirstBy(InsertByTime(cs, c), authors) ==
              if BaseName(c.author) in authors && (was.Some? ==> was.value.at.value > c.at.value) then Some(c) else was
  {
    hide BaseName, FirstBy;
    FirstIsIn(cs, authors);
    NothingSaid(authors);
    if cs == [] {
      FirstOfAppended([], c, authors);
      assert [] + [c] == [c];
    } else {
      var n := |cs| - 1;
      assert cs == cs[..n] + [cs[n]];
      FirstOfAppended(cs[..n], cs[n], authors);
      if cs[n].at.value <= c.at.value {
        FirstOfAppended(cs, c, authors);
      } else {
        FirstOfInserted(cs[..n], c, authors);
        FirstOfAppended(InsertByTime(cs[..n], c), cs[n], authors);
      }
    }
  }

  lemma NothingSaid(authors: set<string>)
    ensures FirstBy([], authors) == None
  {
  }

  ghost predicate NoWord(thread: seq<Comment>, since: int, authors: set<string>) { forall j :: 0 <= j < |thread| ==> !OwnersWord(thread[j], since, authors) }

  lemma NoWordStep(thread: seq<Comment>, since: int, authors: set<string>)
    requires thread != []
    ensures NoWord(thread, since, authors) <==> NoWord(thread[..|thread| - 1], since, authors) && !OwnersWord(thread[|thread| - 1], since, authors)
  {
    hide OwnersWord;
    var init := thread[..|thread| - 1];
    assert forall j :: 0 <= j < |init| ==> init[j] == thread[j];
  }

  lemma {:induction false} FirstWordIs(thread: seq<Comment>, since: int, authors: set<string>) returns (k: int)
    ensures var c := FirstBy(Since(thread, since), authors);
            if c.Some? then FirstWord(thread, since, authors, k) && thread[k] == c.value
            else NoWord(thread, since, authors)
  {
    hide BaseName, FirstWord, FirstBy, NoWord;
    k := -1;
    if thread == [] {
      NothingSaid(authors);
      assert NoWord(thread, since, authors) by { NobodySpoke(since, authors); }
    } else {
      var n := |thread| - 1;
      var init, c := thread[..n], thread[n];
      k := FirstWordIs(init, since, authors);
      if FirstBy(Since(init, since), authors).Some? { FirstWordHas(init, since, authors, k); }
      SinceFacts(init, since);
      NoWordStep(thread, since, authors);
      if HubBoard.After(c, since) { FirstOfInserted(Since(init, since), c, authors); }
      var was := FirstBy(Since(init, since), authors);
      if OwnersWord(c, since, authors) && (was.Some? ==> was.value.at.value > c.at.value) {
        NowFirst(thread, since, authors, k, was.Some?);
        k := n;
      } else if was.Some? {
        StillFirst(thread, since, authors, k);
      }
    }
  }

  lemma NobodySpoke(since: int, authors: set<string>)
    ensures NoWord([], since, authors)
  {
  }

  lemma NowFirst(thread: seq<Comment>, since: int, authors: set<string>, k: int, some: bool)
    requires thread != [] && OwnersWord(thread[|thread| - 1], since, authors)
    requires some ==> FirstWord(thread[..|thread| - 1], since, authors, k) && thread[..|thread| - 1][k].at.value > thread[|thread| - 1].at.value
    requires !some ==> NoWord(thread[..|thread| - 1], since, authors)
    ensures FirstWord(thread, since, authors, |thread| - 1)
  {
    hide BaseName;
    var init := thread[..|thread| - 1];
    forall j | 0 <= j < |thread| && OwnersWord(thread[j], since, authors) ensures NotLater(thread, |thread| - 1, j) {
      if j < |init| { assert init[j] == thread[j]; }
    }
  }

  lemma StillFirst(thread: seq<Comment>, since: int, authors: set<string>, k: int)
    requires thread != [] && FirstWord(thread[..|thread| - 1], since, authors, k)
    requires OwnersWord(thread[|thread| - 1], since, authors) ==> thread[..|thread| - 1][k].at.value <= thread[|thread| - 1].at.value
    ensures FirstWord(thread, since, authors, k)
  {
    hide BaseName;
    var init := thread[..|thread| - 1];
    forall j | 0 <= j < |thread| && OwnersWord(thread[j], since, authors) ensures NotLater(thread, k, j) {
      if j < |init| { assert init[j] == thread[j]; }
    }
  }

  lemma OneFirstWord(thread: seq<Comment>, since: int, authors: set<string>, k: int, l: int)
    requires FirstWord(thread, since, authors, k) && FirstWord(thread, since, authors, l)
    ensures k == l
  {
    hide BaseName;
    assert NotLater(thread, k, l) && NotLater(thread, l, k);
  }

  // ------------------------------------------------------------------- signs of life

  lemma {:induction false} ActivityIs(cs: seq<Comment>, author: string, start: int, limit: int)
    requires AllTimed(cs) && ByTime(cs) && forall i :: 0 <= i < |cs| ==> cs[i].at.value > start
    ensures LastActivity(cs, author, start) >= limit <==>
            start >= limit || exists i :: 0 <= i < |cs| && BaseName(cs[i].author) == author && cs[i].at.value >= limit
  {
    hide BaseName;
    if cs != [] {
      var n := |cs| - 1;
      assert forall i :: 0 <= i < n ==> cs[..n][i] == cs[i];
      ActivityIs(cs[..n], author, start, limit);
      if BaseName(cs[n].author) != author && exists i :: 0 <= i < n && BaseName(cs[i].author) == author && cs[i].at.value >= limit {
        var i :| 0 <= i < n && BaseName(cs[i].author) == author && cs[i].at.value >= limit;
        assert BaseName(cs[..n][i].author) == author;
      }
    }
  }

  lemma SeenIsHeard(b: Bead, thread: seq<Comment>, limit: int)
    requires Dispatched(b)
    ensures LastSeen(b, thread) >= limit <==> Heard(thread, b.dispatchedAt.value, BaseName(b.assignee), limit)
  {
    hide BaseName, Since;
    var since, author := b.dispatchedAt.value, BaseName(b.assignee);
    var cs := Since(thread, since);
    SinceFacts(thread, since);
    forall i | 0 <= i < |cs| ensures cs[i].at.value > since { assert cs[i] in cs; }
    ActivityIs(cs, author, since, limit);
    if i :| 0 <= i < |cs| && BaseName(cs[i].author) == author && cs[i].at.value >= limit {
      assert cs[i] in cs && cs[i] in thread;
      var k :| 0 <= k < |thread| && thread[k] == cs[i];
      assert Word(thread[k], since, author);
    }
    if k :| 0 <= k < |thread| && Word(thread[k], since, author) && thread[k].at.value >= limit {
      assert thread[k] in cs;
      var i :| 0 <= i < |cs| && cs[i] == thread[k];
      assert BaseName(cs[i].author) == author;
    }
  }

  // -------------------------------------------------------------------------- moves

  lemma HandoffIsHandedOff(cfg: Config, b: Bead, thread: seq<Comment>)
    requires AtItsAgent(b) && Dispatched(b)
    ensures var c := Handoff(cfg, b, thread);
            if c.Some? then HandoffVerb(c.value.text).Some? && forall verb :: HandedOff(cfg, b, thread, verb) <==> HandoffVerb(c.value.text) == Some(verb)
            else forall verb :: !HandedOff(cfg, b, thread, verb)
  {
    hide BaseName, HandoffVerb, LastVerb, Since, LastHandoff;
    var since, author := b.dispatchedAt.value, BaseName(b.assignee);
    var k := LastVerbIs(thread, since, author);
    var c := Handoff(cfg, b, thread);
    if c.Some? { LastVerbHas(thread, since, author, k); }
    forall l | LastVerb(thread, since, author, l) ensures if LastHandoff(Since(thread, since), author).Some? then l == k else false {
      LastVerbHas(thread, since, author, l);
      if LastHandoff(Since(thread, since), author).Some? { OneLastVerb(thread, since, author, k, l); }
    }
  }

  lemma VerbMoves(cfg: Config, stage: Stage, verb: string)
    requires stage != Merge
    ensures var next := NextStage(stage, verb); var m := HandoffMove(cfg, stage, verb);
            m == if next == Some(Merge) then Accept
                 else if next.Some? && next.value in cfg.roster then Advance(next.value, cfg.roster[next.value])
                 else Park(stage)
  {
  }

  /** What a tick decides for a bead at its agent, and what that writes. */
  lemma AgentMove(cfg: Config, now: int, b: Bead, thread: seq<Comment>)
    requires AtItsAgent(b)
    ensures var m := TickMove(cfg, now, b, thread); AgentOutcome(cfg, now, b, thread, if m.Stay? then b else Moved(cfg, now, b, m), Remarks(cfg, now, m))
  {
    hide BaseName, HandoffVerb, HandoffMove, Handoff, HandedOff, Heard, LastSeen, NextStage;
    assert Dispatched(b) && !Parked(b);
    HandoffIsHandedOff(cfg, b, thread);
    SeenIsHeard(b, thread, now - cfg.grace);
    var c := Handoff(cfg, b, thread);
    if c.Some? { VerbMoves(cfg, b.stage.value, HandoffVerb(c.value.text).value); }
  }

  /** What it decides for a parked one. */
  lemma OwnerMove(cfg: Config, now: int, b: Bead, thread: seq<Comment>)
    requires WithTheOwner(b)
    ensures var m := TickMove(cfg, now, b, thread); OwnerOutcome(cfg, b, thread, if m.Stay? then b else Moved(cfg, now, b, m), Remarks(cfg, now, m))
  {
    hide IsGuidance, FirstWord, Since, FirstBy;
    assert Parked(b) && !Dispatched(b);
    var since := b.blockedAt.value;
    var k := FirstWordIs(thread, since, cfg.ownerAuthors);
    forall l | FirstWord(thread, since, cfg.ownerAuthors, l) ensures FirstBy(Since(thread, since), cfg.ownerAuthors).Some? && l == k {
      FirstWordHas(thread, since, cfg.ownerAuthors, l);
      OneFirstWord(thread, since, cfg.ownerAuthors, k, l);
    }
  }

  lemma FirstWordHas(thread: seq<Comment>, since: int, authors: set<string>, k: int)
    requires FirstWord(thread, since, authors, k)
    ensures 0 <= k < |thread| && OwnersWord(thread[k], since, authors)
  {
  }

  /** A bead that is neither makes no move of its own. */
  lemma OtherMove(cfg: Config, now: int, b: Bead, thread: seq<Comment>)
    requires !AtItsAgent(b) && !WithTheOwner(b)
    ensures TickMove(cfg, now, b, thread).Stay?
  {
  }

  /**
   * A tick over the whole board.  A bead at its agent follows the agent's last handoff since the dispatch, or
   * is parked when it has been silent or idle too long, or stays; a parked bead follows the owner's first word
   * since then; and no other bead is written to, unless it is due and dispatched.
   */
  lemma TickOutcome(cfg: Config, h: Hub, now: int, ready: seq<Id>, notify: Option<string -> bool>, id: Id)
    requires HubOk(h) && id in h.beads
    ensures var g := Tick(cfg, h, now, ready, notify);
            id in g.beads && ThreadOf(h, id) <= ThreadOf(g, id) &&
            var was := h.beads[id]; var thread := ThreadOf(h, id); var b := g.beads[id]; var said := ThreadOf(g, id)[|thread|..];
            if AtItsAgent(was) then AgentOutcome(cfg, now, was, thread, b, said)
            else if WithTheOwner(was) then OwnerOutcome(cfg, was, thread, b, said)
            else said == [] && (b == was || exists stage :: Due(cfg, h, ready, id, stage) && IsDispatched(cfg, now, notify, was, b, stage))
  {
    hide TickMove, Moved, Remarks, Tick, Items, AgentOutcome, OwnerOutcome, DispatchedBead, RevertedBead, WakeupFails, Due, IsDispatched, ItemOk;
    var was, thread := h.beads[id], ThreadOf(h, id);
    TickMeaning(cfg, h, now, ready, notify, id);
    NoRemarks(cfg, now);
    if FindItem(Items(cfg, h, now, ready, notify), id).Some? {
      ItemIsOpen(cfg, h, now, ready, notify, FindItem(Items(cfg, h, now, ready, notify), id).value);
    }
    if AtItsAgent(was) { AgentMove(cfg, now, was, thread); }
    else if WithTheOwner(was) { OwnerMove(cfg, now, was, thread); }
    else {
      OtherMove(cfg, now, was, thread);
      var item := FindItem(Items(cfg, h, now, ready, notify), id);
      if item.Some? {
        DispatchSound(cfg, h, now, ready, notify, item.value);
        ItemIsDispatched(cfg, h, now, ready, notify, item.value);
      }
    }
  }

  lemma ItemIsOpen(cfg: Config, h: Hub, now: int, ready: seq<Id>, notify: Option<string -> bool>, item: Item)
    requires HubOk(h) && item in Items(cfg, h, now, ready, notify)
    ensures item.id in h.beads && h.beads[item.id].status == Open
  {
    hide Items, TickMove;
    DispatchSound(cfg, h, now, ready, notify, item);
  }
}
