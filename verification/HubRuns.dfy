/** Whole runs of the router against a board that agents and owners keep commenting on. */
module HubRuns {
  import opened A2aDoc
  import opened HubBoard
  import opened HubSweep

  // ------------------------------------------------------------------------- states

  /** The last stamped dispatch of a bead. */
  datatype Stamped = Stamped(stage: Stage, agent: string, at: int)

  /**
   * The board with history no tick reads: the last tick's time, the last dispatch of each bead, the
   * comments that moved it as handoffs, and when the last of them did.
   */
  datatype Trace = Trace(
    hub: Hub, lastTick: Option<int>, record: map<Id, Stamped>, used: map<Id, seq<Comment>>, movedAt: map<Id, int>)

  datatype Step =
    | ATick(now: int, ready: seq<Id>, notify: Option<string -> bool>)
    | ANew(id: Id, bead: Bead)
    | AEdit(id: Id, bead: Bead)
    | AComment(id: Id, comment: Comment)

  predicate NoHubKeys(b: Bead) {
    b.stage.None? && b.dispatchedAt.None? && b.pending.None? && b.blockedFrom.None? && b.blockedAt.None?
  }

  /** People may rewrite texts, labels and priorities at will, but not what the router owns of its own beads. */
  predicate EditOk(was: Bead, b: Bead) {
    if NoHubKeys(was) then NoHubKeys(b)
    else b == was.(issueType := b.issueType, labels := b.labels, description := b.description, priority := b.priority)
  }

  predicate Enabled(t: Trace, x: Step) {
    match x
    case ATick(now, ready, notify) => true
    case ANew(id, b) => id !in t.hub.beads && id !in t.hub.order && NoHubKeys(b)
    case AEdit(id, b) => id in t.hub.beads && EditOk(t.hub.beads[id], b)
    case AComment(id, c) => id in t.hub.beads
  }

  function HandoffUsed(cfg: Config, h: Hub, id: Id): Option<Comment>
    requires id in h.beads
  {
    if Dispatched(h.beads[id]) then Handoff(cfg, h.beads[id], ThreadOf(h, id)) else None
  }

  function UsedBy(t: Trace, id: Id): seq<Comment> { if id in t.used then t.used[id] else [] }

  function Do(cfg: Config, t: Trace, x: Step): Trace
    requires HubOk(t.hub) && Enabled(t, x)
  {
    match x
    case ATick(now, ready, notify) =>
      var items := Items(cfg, t.hub, now, ready, notify);
      Trace(Tick(cfg, t.hub, now, ready, notify), Some(now),
            map id | id in t.hub.beads && (FindItem(items, id).Some? || id in t.record) ::
              var item := FindItem(items, id);
              if item.Some? then Stamped(item.value.stage, item.value.agent, Stamp(now)) else t.record[id],
            map id | id in t.hub.beads ::
              UsedBy(t, id) + (if HandoffUsed(cfg, t.hub, id).Some? then [HandoffUsed(cfg, t.hub, id).value] else []),
            map id | id in t.hub.beads && (HandoffUsed(cfg, t.hub, id).Some? || id in t.movedAt) ::
              if HandoffUsed(cfg, t.hub, id).Some? then now else t.movedAt[id])
    case ANew(id, b) => t.(hub := Hub(t.hub.order + [id], t.hub.beads[id := b], t.hub.threads))
    case AEdit(id, b) => t.(hub := t.hub.(beads := t.hub.beads[id := b]))
    case AComment(id, c) => t.(hub := t.hub.(threads := t.hub.threads[id := ThreadOf(t.hub, id) + [c]]))
  }

  // ---------------------------------------------------------------------- lifecycle

  predicate AtWork(b: Bead) {
    b.status.InProgress? && b.dispatchedAt.Some? && !IsPending(b) && b.blockedFrom.None? && b.blockedAt.None?
  }

  predicate Waiting(b: Bead) {
    b.status.Open? && IsPending(b) && b.dispatchedAt.None? && b.blockedFrom.None? && b.blockedAt.None?
  }

  predicate WithOwner(b: Bead) {
    b.status.Blocked? && b.blockedFrom == b.stage && b.blockedAt.Some? && b.dispatchedAt.None? && b.pending.None?
  }

  predicate HandedOver(b: Bead) {
    b.status.Open? && b.dispatchedAt.None? && b.pending.None? && b.blockedFrom.None? && b.blockedAt.None?
  }

  /** Dispatched and stamped, or open and pending, or blocked from its own stage; merge waits for the owner. */
  predicate BeadOk(b: Bead) {
    if b.stage.None? then NoHubKeys(b)
    else if b.stage == Some(Merge) then HandedOver(b)
    else AtWork(b) || Waiting(b) || WithOwner(b)
  }

  /** The handoff a merge stands on. */
  predicate AcceptedBy(c: Comment, r: Stamped) {
    r.stage == Review && c.at.Some? && c.at.value > r.at && BaseName(c.author) == BaseName(r.agent) &&
    HandoffVerb(c.text) == Some("review-accepted")
  }

  ghost predicate BeadInv(t: Trace, id: Id)
    requires id in t.hub.beads
  {
    var b := t.hub.beads[id];
    BeadOk(b) &&
    (Dispatched(b) ==> id in t.record && t.record[id] == Stamped(b.stage.value, b.assignee, b.dispatchedAt.value)) &&
    (b.stage == Some(Merge) ==> id in t.record && exists c :: c in ThreadOf(t.hub, id) && AcceptedBy(c, t.record[id]))
  }

  ghost predicate Inv(t: Trace) {
    HubOk(t.hub) && (forall id :: id in t.hub.beads ==> BeadInv(t, id))
  }

  // ----------------------------------------------------------------- one bead, one tick

  /** Every move leaves one of the lifecycle's states. */
  lemma MoveKeepsBead(cfg: Config, now: int, b: Bead, thread: seq<Comment>)
    requires BeadOk(b)
    ensures var m := TickMove(cfg, now, b, thread);
            !m.Stay? ==> BeadOk(Moved(cfg, now, b, m)) && !Dispatched(Moved(cfg, now, b, m)) && b.stage.Some? && b.stage != Some(Merge)
  {
    hide HandoffMove, Guided, Overdue, Handoff;
    if !HandoffPass(cfg, b, thread).Stay? { HandoffStages(cfg, b, thread); }
  }

  /** What a handoff can lead to. */
  lemma HandoffStages(cfg: Config, b: Bead, thread: seq<Comment>)
    requires Dispatched(b) && Handoff(cfg, b, thread).Some?
    ensures var m := HandoffPass(cfg, b, thread); var c := Handoff(cfg, b, thread).value;
            !m.Stay? && !m.Resume? && (m.Park? ==> m.at == b.stage.value) && (m.Advance? ==> m.to != Merge) &&
            (m.Accept? <==> b.stage == Some(Review) && HandoffVerb(c.text) == Some("review-accepted"))
  {
    hide Handoff, HandoffVerb;
    assert HandoffVerb(Handoff(cfg, b, thread).value.text).Some? by { HandoffHasVerb(cfg, b, thread); }
  }

  lemma HandoffHasVerb(cfg: Config, b: Bead, thread: seq<Comment>)
    requires Dispatched(b) && Handoff(cfg, b, thread).Some?
    ensures HandoffVerb(Handoff(cfg, b, thread).value.text).Some?
  {
    HandoffFacts(cfg, b, thread);
  }

  lemma DispatchKeepsBead(cfg: Config, now: int, h: Hub, item: Item)
    requires ItemOk(cfg, now, h, item) && BeadOk(h.beads[item.id])
    ensures var b := h.beads[item.id]; var d := DispatchedBead(now, b, item.stage, item.agent, item.wasPending);
            BeadOk(d) && Dispatched(d) && BeadOk(RevertedBead(cfg, d)) && Waiting(RevertedBead(cfg, d)) && b.stage != Some(Merge)
  {
    hide HasPrEvidence, TickMove;
  }

  /** An accepting tick found the review agent's handoff, later than the dispatch into review. */
  lemma AcceptMeans(cfg: Config, now: int, b: Bead, thread: seq<Comment>)
    requires BeadOk(b) && b.stage != Some(Merge) && TickMove(cfg, now, b, thread) != Stay
    requires Moved(cfg, now, b, TickMove(cfg, now, b, thread)).stage == Some(Merge)
    ensures Dispatched(b) && exists c :: c in thread && AcceptedBy(c, Stamped(b.stage.value, b.assignee, b.dispatchedAt.value))
  {
    hide HandoffVerb, Handoff, Overdue, Guided, BaseName;
    if !HandoffPass(cfg, b, thread).Stay? {
      HandoffStages(cfg, b, thread);
      HandoffFacts(cfg, b, thread);
      var c := Handoff(cfg, b, thread).value;
      assert AcceptedBy(c, Stamped(b.stage.value, b.assignee, b.dispatchedAt.value));
    }
  }

  lemma TickKeepsBead(cfg: Config, t: Trace, x: Step, id: Id)
    requires Inv(t) && x.ATick? && id in t.hub.beads
    ensures id in Do(cfg, t, x).hub.beads && BeadInv(Do(cfg, t, x), id)
  {
    hide TickMove, Moved, Remarks, DispatchedBead, RevertedBead, ItemOk, Items, Tick, BeadOk, AcceptedBy, HandoffUsed;
    var b := t.hub.beads[id];
    var thread := ThreadOf(t.hub, id);
    var m := TickMove(cfg, x.now, b, thread);
    assert BeadInv(t, id);
    TickMeaning(cfg, t.hub, x.now, x.ready, x.notify, id);
    var item := FindItem(Items(cfg, t.hub, x.now, x.ready, x.notify), id);
    var g := Do(cfg, t, x);
    assert forall c :: c in thread ==> c in ThreadOf(g.hub, id);
    if item.Some? {
      DispatchKeepsBead(cfg, x.now, t.hub, item.value);
      DispatchFields(cfg, x.now, b, item.value);
    } else if !m.Stay? {
      MoveKeepsBead(cfg, x.now, b, thread);
      if g.hub.beads[id].stage == Some(Merge) { AcceptMeans(cfg, x.now, b, thread); }
    }
  }

  lemma DispatchFields(cfg: Config, now: int, b: Bead, item: Item)
    ensures var d := DispatchedBead(now, b, item.stage, item.agent, item.wasPending);
            d.stage == Some(item.stage) && d.assignee == item.agent && d.dispatchedAt == Some(Stamp(now)) &&
            RevertedBead(cfg, d).stage == Some(item.stage) && !Dispatched(RevertedBead(cfg, d))
  {
  }

  lemma StepKeeps(cfg: Config, t: Trace, x: Step)
    requires Inv(t) && Enabled(t, x)
    ensures Inv(Do(cfg, t, x))
  {
    var g := Do(cfg, t, x);
    if x.ATick? {
      hide Tick, Items, HandoffUsed;
      TickShape(cfg, t, x);
      forall id | id in g.hub.beads ensures BeadInv(g, id) { TickKeepsBead(cfg, t, x, id); }
    } else {
      hide AcceptedBy, BeadOk;
      EditsKeep(cfg, t, x);
    }
  }

  lemma TickShape(cfg: Config, t: Trace, x: Step)
    requires HubOk(t.hub) && x.ATick?
    ensures var g := Do(cfg, t, x); HubOk(g.hub) && g.hub.beads.Keys == t.hub.beads.Keys
  {
    hide Items, ThreePasses;
    var items := Items(cfg, t.hub, x.now, x.ready, x.notify);
    var st := ThreePasses(cfg, x.now, t.hub);
    DispatchShape(x.now, st.hub, items);
    RevertShape(cfg, WithDispatches(x.now, st.hub, items), items, x.notify);
  }

  lemma {:induction false} DispatchShape(now: int, h: Hub, items: seq<Item>)
    ensures WithDispatches(now, h, items).beads.Keys == h.beads.Keys && WithDispatches(now, h, items).order == h.order
  {
    if items != [] { DispatchShape(now, h, items[..|items| - 1]); }
  }

  lemma {:induction false} RevertShape(cfg: Config, h: Hub, items: seq<Item>, notify: Option<string -> bool>)
    ensures WithReverts(cfg, h, items, notify).beads.Keys == h.beads.Keys && WithReverts(cfg, h, items, notify).order == h.order
  {
    if items != [] { RevertShape(cfg, h, items[..|items| - 1], notify); }
  }

  lemma EditsKeep(cfg: Config, t: Trace, x: Step)
    requires Inv(t) && Enabled(t, x) && !x.ATick?
    ensures Inv(Do(cfg, t, x))
  {
    hide AcceptedBy;
    var g := Do(cfg, t, x);
    forall id | id in g.hub.beads ensures BeadInv(g, id) {
      if id in t.hub.beads { assert BeadInv(t, id); }
      assert forall c :: c in ThreadOf(t.hub, id) ==> c in ThreadOf(g.hub, id);
    }
  }

  // --------------------------------------------------------------------------- runs

  lemma StepShape(cfg: Config, t: Trace, x: Step)
    requires HubOk(t.hub) && Enabled(t, x)
    ensures HubOk(Do(cfg, t, x).hub)
  {
    hide Tick, Items, HandoffUsed;
    if x.ATick? { TickShape(cfg, t, x); }
  }

  ghost predicate IsRun(cfg: Config, t: Trace, xs: seq<Step>)
    requires HubOk(t.hub)
    decreases |xs|
  {
    xs == [] || (Enabled(t, xs[0]) && (StepShape(cfg, t, xs[0]); IsRun(cfg, Do(cfg, t, xs[0]), xs[1..])))
  }

  ghost function End(cfg: Config, t: Trace, xs: seq<Step>): Trace
    requires HubOk(t.hub) && IsRun(cfg, t, xs)
    decreases |xs|
  {
    if xs == [] then t
    else
      StepShape(cfg, t, xs[0]);
      End(cfg, Do(cfg, t, xs[0]), xs[1..])
  }

  /**
   * Lifecycle and merge, over every run: a bead in dev, test or review is exactly one of dispatched with a
   * stamp, open and pending, or blocked from that very stage; one in merge carries the assignee's accepted
   * review, later than its last dispatch, and that dispatch was into review.
   */
  lemma {:induction false} RunKeeps(cfg: Config, t: Trace, xs: seq<Step>)
    requires Inv(t) && IsRun(cfg, t, xs)
    ensures Inv(End(cfg, t, xs))
    ensures forall id :: id in End(cfg, t, xs).hub.beads ==> BeadInv(End(cfg, t, xs), id)
    decreases |xs|
  {
    hide BeadInv, Do, Enabled;
    if xs != [] {
      StepKeeps(cfg, t, xs[0]);
      RunKeeps(cfg, Do(cfg, t, xs[0]), xs[1..]);
    }
  }

  const EMPTY_BOARD := Trace(Hub([], map[], map[]), None, map[], map[], map[])

  lemma EmptyInv()
    ensures Inv(EMPTY_BOARD)
  {
  }
}
