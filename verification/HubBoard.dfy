/** The queue the hub router works on: beads, comment threads, and what a router write does to one bead. */
module HubBoard {
  import opened A2aDoc
  import opened Text

  // ------------------------------------------------------------------ string helpers

  function LowerChar(c: char): char { if 'A' <= c <= 'Z' then c - 'A' + 'a' else c }

  function Lower(s: string): string { seq(|s|, i requires 0 <= i < |s| => LowerChar(s[i])) }

  /** Everything before the first character with the property. */
  function Before(s: string, stop: char -> bool): string {
    if s == "" || stop(s[0]) then "" else [s[0]] + Before(s[1..], stop)
  }

  predicate EndsWith(s: string, suffix: string) { |s| >= |suffix| && s[|s| - |suffix|..] == suffix }

  function DropSuffix(s: string, suffix: string): string {
    if EndsWith(s, suffix) then s[..|s| - |suffix|] else s
  }

  function DropPrefix(s: string, prefix: string): string {
    if prefix <= s then s[|prefix|..] else s
  }

  /** base_name: the bare lowercase account name behind domains, mesh prefixes and bot suffixes. */
  function BaseName(name: string): string {
    var local := Before(Lower(Strip(name)), c => c == '@');
    DropSuffix(DropPrefix(DropSuffix(local, "[bot]"), "thecabal-"), "-bot")
  }

  const HANDOFF_PREFIX := "HANDOFF:"
  const GUIDANCE_PREFIX := "GUIDANCE:"

  /** handoff_verb: the first word after the prefix on the first line; None is plain chatter. */
  function HandoffVerb(text: string): Option<string> {
    var line := Strip(Before(Strip(text), c => '\n' <= c <= '\r'));
    if !(HANDOFF_PREFIX <= line) then None
    else
      var verb := Lower(Strip(Before(Strip(line[|HANDOFF_PREFIX|..]), c => c == ' ')));
      if verb == "" then None else Some(verb)
  }

  predicate IsGuidance(text: string) { GUIDANCE_PREFIX <= Strip(text) }

  predicate MatchesAt(text: string, i: nat, word: string)
    requires i <= |text|
  {
    i + |word| <= |text| && Lower(text[i..i + |word|]) == word
  }

  /** A pull-request link: scheme, one or more non-blanks, then /pull/ and a digit. */
  predicate HasPrLink(text: string) {
    exists i, j :: 0 <= i < j <= |text| && IsPrLink(text, i, j)
  }

  predicate IsPrLink(text: string, i: nat, j: nat)
    requires i < j <= |text|
  {
    var start := i + (if MatchesAt(text, i, "https://") then 8 else 7);
    (MatchesAt(text, i, "http://") || MatchesAt(text, i, "https://")) && start < j &&
    (forall k :: start <= k < j ==> !IsSpace(text[k])) &&
    MatchesAt(text, j, "/pull/") && j + 6 < |text| && '0' <= text[j + 6] <= '9'
  }

  // ---------------------------------------------------------------------- the board

  type Id = string

  datatype Stage = Dev | Test | Review | Merge
  datatype Status = Open | InProgress | Blocked | Other

  /** A row with the metadata keys the router owns; times are microseconds. */
  datatype Bead = Bead(
    issueType: string, labels: set<string>, description: string, priority: Option<int>,
    status: Status, assignee: string,
    stage: Option<Stage>, dispatchedAt: Option<int>, pending: Option<int>,
    blockedFrom: Option<Stage>, blockedAt: Option<int>)

  /** `at` is None when the board's time does not parse. */
  datatype Comment = Comment(author: string, text: string, at: Option<int>)

  /** The beads in listing order, with their comment threads. */
  datatype Hub = Hub(order: seq<Id>, beads: map<Id, Bead>, threads: map<Id, seq<Comment>>)

  datatype Config = Config(
    roster: map<Stage, string>, wip: nat, owner: string, ownerAuthors: set<string>, autoNotify: bool,
    actor: string, grace: int, reping: int, silent: int)

  predicate Routing(s: Option<Stage>) { s.Some? && s.value != Merge }

  /** meta.get(KEY_PENDING) as a truth value. */
  predicate IsPending(b: Bead) { b.pending.Some? && b.pending.value != 0 }

  /** The board stamp keeps whole seconds only. */
  const SECOND := 1_000_000

  function Stamp(now: int): int { now - now % SECOND }

  // -------------------------------------------------------------------- verbs, stages

  predicate Allowed(stage: Stage, verb: string) {
    verb == "blocked" ||
    (stage == Dev && verb == "dev-done") ||
    (stage == Test && (verb == "test-pass" || verb == "test-fail")) ||
    (stage == Review && (verb == "review-accepted" || verb == "changes-requested"))
  }

  function Target(verb: string): Option<Stage> {
    if verb == "dev-done" then Some(Test)
    else if verb == "test-pass" then Some(Review)
    else if verb == "test-fail" || verb == "changes-requested" then Some(Dev)
    else if verb == "review-accepted" then Some(Merge)
    else None
  }

  function AgentFor(cfg: Config, stage: Option<Stage>): Option<string> {
    if stage.Some? && stage.value in cfg.roster then Some(cfg.roster[stage.value]) else None
  }

  function StageOfCandidate(b: Bead): Option<Stage> {
    if "owner-call" in b.labels then None
    else if "role:reviewer" in b.labels then Some(Review)
    else if "role:tester" in b.labels then Some(Test)
    else if "role:builder" in b.labels then Some(Dev)
    else None
  }

  predicate HasPrEvidence(b: Bead, thread: seq<Comment>) {
    HasPrLink(b.description) || exists c :: c in thread && HasPrLink(c.text)
  }

  predicate IsCandidate(cfg: Config, b: Bead, thread: seq<Comment>) {
    b.issueType != "epic" && b.status.Open? && b.assignee == "" && b.stage.None? &&
    var stage := StageOfCandidate(b);
    stage.Some? && AgentFor(cfg, stage).Some? && (stage.value != Dev ==> HasPrEvidence(b, thread))
  }

  // ----------------------------------------------------------------- comments in time

  predicate After(c: Comment, since: int) { c.at.Some? && c.at.value > since }

  predicate AllTimed(cs: seq<Comment>) { forall i :: 0 <= i < |cs| ==> cs[i].at.Some? }

  /** Stable: behind every comment that is not later. */
  function InsertByTime(cs: seq<Comment>, c: Comment): (r: seq<Comment>)
    requires c.at.Some? && AllTimed(cs)
    ensures AllTimed(r)
  {
    if cs == [] then [c]
    else
      var n := |cs| - 1;
      if cs[n].at.value <= c.at.value then cs + [c] else InsertByTime(cs[..n], c) + [cs[n]]
  }

  /** _comments_since: the later comments, sorted by time, equal times in thread order. */
  function Since(thread: seq<Comment>, since: int): (r: seq<Comment>)
    ensures AllTimed(r)
  {
    if thread == [] then []
    else
      var n := |thread| - 1;
      if After(thread[n], since) then InsertByTime(Since(thread[..n], since), thread[n]) else Since(thread[..n], since)
  }

  predicate IsHandoffBy(c: Comment, author: string) { BaseName(c.author) == author && HandoffVerb(c.text).Some? }

  function LastHandoff(cs: seq<Comment>, author: string): Option<Comment> {
    if cs == [] then None
    else
      var n := |cs| - 1;
      if IsHandoffBy(cs[n], author) then Some(cs[n]) else LastHandoff(cs[..n], author)
  }

  /** The time of the author's last comment, else the given start. */
  function LastActivity(cs: seq<Comment>, author: string, start: int): int
    requires AllTimed(cs)
  {
    if cs == [] then start
    else
      var n := |cs| - 1;
      if BaseName(cs[n].author) == author then cs[n].at.value else LastActivity(cs[..n], author, start)
  }

  function FirstBy(cs: seq<Comment>, authors: set<string>): Option<Comment> {
    if cs == [] then None
    else if BaseName(cs[0].author) in authors then Some(cs[0])
    else FirstBy(cs[1..], authors)
  }

  // -------------------------------------------------------------- one bead, one tick

  /** What the first three passes may do to a bead. */
  datatype Move =
    | Stay
    | Park(at: Stage)
    | Accept
    | Advance(to: Stage, agent: string)
    | Resume(agent: string)

  predicate Dispatched(b: Bead) { b.status.InProgress? && Routing(b.stage) && b.dispatchedAt.Some? }

  /** The handoff a dispatched bead is waiting for: its assignee's latest one since the dispatch. */
  function Handoff(cfg: Config, b: Bead, thread: seq<Comment>): Option<Comment>
    requires Dispatched(b)
  {
    var assignee := BaseName(b.assignee);
    if assignee == "" || assignee == BaseName(cfg.owner) then None
    else LastHandoff(Since(thread, b.dispatchedAt.value), assignee)
  }

  predicate ByTime(cs: seq<Comment>)
    requires AllTimed(cs)
  {
    forall i, j :: 0 <= i < j < |cs| ==> cs[i].at.value <= cs[j].at.value
  }

  lemma {:induction false} SinceFacts(thread: seq<Comment>, since: int)
    ensures forall c :: c in Since(thread, since) <==> c in thread && After(c, since)
    ensures ByTime(Since(thread, since))
  {
    if thread != [] {
      var n := |thread| - 1;
      assert thread == thread[..n] + [thread[n]];
      SinceFacts(thread[..n], since);
      if After(thread[n], since) { InsertFacts(Since(thread[..n], since), thread[n]); }
    }
  }

  lemma {:induction false} InsertMembers(cs: seq<Comment>, c: Comment)
    requires c.at.Some? && AllTimed(cs)
    ensures forall d :: d in InsertByTime(cs, c) <==> d in cs || d == c
  {
    if cs != [] {
      var n := |cs| - 1;
      assert cs == cs[..n] + [cs[n]];
      InsertMembers(cs[..n], c);
    }
  }

  predicate NoLaterThan(cs: seq<Comment>, t: int)
    requires AllTimed(cs)
  {
    forall i :: 0 <= i < |cs| ==> cs[i].at.value <= t
  }

  lemma {:induction false} InsertBound(cs: seq<Comment>, c: Comment, t: int)
    requires c.at.Some? && AllTimed(cs) && NoLaterThan(cs, t) && c.at.value <= t
    ensures NoLaterThan(InsertByTime(cs, c), t)
  {
    if cs != [] { InsertBound(cs[..|cs| - 1], c, t); }
  }

  lemma {:induction false} InsertFacts(cs: seq<Comment>, c: Comment)
    requires c.at.Some? && AllTimed(cs) && ByTime(cs)
    ensures (forall d :: d in InsertByTime(cs, c) <==> d in cs || d == c) && ByTime(InsertByTime(cs, c))
  {
    InsertMembers(cs, c);
    InsertOrder(cs, c);
  }

  lemma {:induction false} InsertOrder(cs: seq<Comment>, c: Comment)
    requires c.at.Some? && AllTimed(cs) && ByTime(cs)
    ensures ByTime(InsertByTime(cs, c))
  {
    if cs != [] {
      var n := |cs| - 1;
      InsertOrder(cs[..n], c);
      if cs[n].at.value > c.at.value { InsertBound(cs[..n], c, cs[n].at.value); }
    }
  }

  predicate NoneAfter(cs: seq<Comment>, i: int, author: string) {
    forall j :: 0 <= j < |cs| && i < j ==> !IsHandoffBy(cs[j], author)
  }

  /** Where the last handoff stands. */
  lemma {:induction false} LastHandoffFacts(cs: seq<Comment>, author: string) returns (i: int)
    ensures -1 <= i < |cs| && NoneAfter(cs, i, author)
    ensures LastHandoff(cs, author).Some? <==> i >= 0
    ensures i >= 0 ==> cs[i] == LastHandoff(cs, author).value && IsHandoffBy(cs[i], author)
  {
    hide IsHandoffBy;
    i := |cs| - 1;
    if cs != [] && !IsHandoffBy(cs[i], author) { i := LastHandoffFacts(cs[..i], author); }
  }

  /** The handoff that counts: by the assignee, after the dispatch, and none of the assignee's is later. */
  lemma HandoffFacts(cfg: Config, b: Bead, thread: seq<Comment>)
    requires Dispatched(b) && Handoff(cfg, b, thread).Some?
    ensures var c := Handoff(cfg, b, thread).value;
            c in thread && After(c, b.dispatchedAt.value) && IsHandoffBy(c, BaseName(b.assignee)) &&
            forall d :: d in thread && After(d, b.dispatchedAt.value) && IsHandoffBy(d, BaseName(b.assignee)) ==> d.at.value <= c.at.value
  {
    hide IsHandoffBy, BaseName;
    var cs := Since(thread, b.dispatchedAt.value);
    SinceFacts(thread, b.dispatchedAt.value);
    var i := LastHandoffFacts(cs, BaseName(b.assignee));
    forall d | d in thread && After(d, b.dispatchedAt.value) && IsHandoffBy(d, BaseName(b.assignee)) ensures d.at.value <= cs[i].at.value {
      assert d in cs;
      var j :| 0 <= j < |cs| && cs[j] == d;
    }
  }

  /** _apply_handoff: a verb without a target stage finds no agent either, and parks. */
  function HandoffMove(cfg: Config, stage: Stage, verb: string): Move {
    if !Allowed(stage, verb) then Park(stage)
    else if Target(verb) == Some(Merge) then Accept
    else if AgentFor(cfg, Target(verb)).None? then Park(stage)
    else Advance(Target(verb).value, AgentFor(cfg, Target(verb)).value)
  }

  function LastSeen(b: Bead, thread: seq<Comment>): int
    requires Dispatched(b)
  {
    if BaseName(b.assignee) == "" then b.dispatchedAt.value
    else LastActivity(Since(thread, b.dispatchedAt.value), BaseName(b.assignee), b.dispatchedAt.value)
  }

  predicate Overdue(cfg: Config, now: int, b: Bead, thread: seq<Comment>)
    requires Dispatched(b)
  {
    now - b.dispatchedAt.value > cfg.silent || now - LastSeen(b, thread) > cfg.grace
  }

  predicate Parked(b: Bead) { b.status.Blocked? && Routing(b.blockedFrom) && b.blockedAt.Some? }

  /** The guidance pass stops at the first comment of an owner account, whatever it says. */
  predicate Guided(cfg: Config, b: Bead, thread: seq<Comment>)
    requires Parked(b)
  {
    var c := FirstBy(Since(thread, b.blockedAt.value), cfg.ownerAuthors);
    c.Some? && IsGuidance(c.value.text)
  }

  function HandoffPass(cfg: Config, b: Bead, thread: seq<Comment>): Move {
    if !Dispatched(b) then Stay
    else
      var c := Handoff(cfg, b, thread);
      if c.None? then Stay
      else
        HandoffFacts(cfg, b, thread);
        assert IsHandoffBy(c.value, BaseName(b.assignee));
        HandoffMove(cfg, b.stage.value, HandoffVerb(c.value.text).value)
  }

  function GuidancePass(cfg: Config, b: Bead, thread: seq<Comment>): Move {
    if Parked(b) && Guided(cfg, b, thread) && AgentFor(cfg, b.blockedFrom).Some?
    then Resume(AgentFor(cfg, b.blockedFrom).value)
    else Stay
  }

  function GracePass(cfg: Config, now: int, b: Bead, thread: seq<Comment>): Move {
    if Dispatched(b) && Overdue(cfg, now, b, thread) then Park(b.stage.value) else Stay
  }

  /** The one move of a tick's first three passes. */
  function TickMove(cfg: Config, now: int, b: Bead, thread: seq<Comment>): Move {
    if !HandoffPass(cfg, b, thread).Stay? then HandoffPass(cfg, b, thread)
    else if !GuidancePass(cfg, b, thread).Stay? then GuidancePass(cfg, b, thread)
    else GracePass(cfg, now, b, thread)
  }

  function Moved(cfg: Config, now: int, b: Bead, m: Move): Bead {
    match m
    case Stay => b
    case Park(stage) =>
      b.(assignee := cfg.owner, status := Blocked, blockedFrom := Some(stage), blockedAt := Some(Stamp(now)), dispatchedAt := None, pending := None)
    case Accept =>
      b.(assignee := cfg.owner, status := Open, stage := Some(Merge), dispatchedAt := None, pending := None, blockedFrom := None, blockedAt := None)
    case Advance(stage, agent) =>
      b.(assignee := agent, status := Open, stage := Some(stage), pending := Some(1), dispatchedAt := None, blockedFrom := None, blockedAt := None)
    case Resume(agent) =>
      b.(assignee := agent, status := Open, pending := Some(1), blockedFrom := None, blockedAt := None)
  }

  /** The router's own comment on a park or a merge hand-over. */
  function Remarks(cfg: Config, now: int, m: Move): seq<Comment> {
    if m.Park? then [Comment(cfg.actor, "owner-blocked: parked with the owner", Some(now))]
    else if m.Accept? then [Comment(cfg.actor, "review accepted: handed to the owner for merge", Some(now))]
    else []
  }

  function WithMove(cfg: Config, now: int, h: Hub, id: Id, m: Move): Hub
    requires id in h.beads
  {
    if m.Stay? then h
    else h.(beads := h.beads[id := Moved(cfg, now, h.beads[id], m)],
            threads := if Remarks(cfg, now, m) == [] then h.threads else h.threads[id := ThreadOf(h, id) + Remarks(cfg, now, m)])
  }

  function ThreadOf(h: Hub, id: Id): seq<Comment> {
    if id in h.threads then h.threads[id] else []
  }

  function DispatchedBead(now: int, b: Bead, stage: Stage, agent: string, wasPending: bool): Bead {
    b.(assignee := agent, status := InProgress, stage := Some(stage), dispatchedAt := Some(Stamp(now)),
       pending := if wasPending then None else Some(0))
  }

  function RevertedBead(cfg: Config, b: Bead): Bead {
    b.(assignee := cfg.actor, status := Open, pending := Some(1), dispatchedAt := None)
  }
}
