/** Nothing due is left behind: which beads a tick dispatches, said by the board's fields. */
module HubDispatch {
  import opened A2aDoc
  import opened Text
  import opened HubBoard
  import opened HubSweep

  // ---------------------------------------------------------------------- statement

  /** Where work that nobody has yet would start, by its labels; an owner's call starts nowhere. */
  ghost predicate LabelledFor(labels: set<string>, stage: Stage) {
    "owner-call" !in labels &&
    match stage
    case Review => "role:reviewer" in labels
    case Test => "role:tester" in labels && "role:reviewer" !in labels
    case Dev => "role:builder" in labels && "role:tester" !in labels && "role:reviewer" !in labels
    case Merge => false
  }

  /** The bead waits for the stage's agent: pending there, or ready, unclaimed and with the evidence the stage needs. */
  ghost predicate Due(cfg: Config, h: Hub, ready: seq<Id>, id: Id, stage: Stage) {
    id in h.beads && stage in cfg.roster && stage != Merge &&
    var b := h.beads[id];
    b.status == Open &&
    ((b.pending.Some? && b.pending.value != 0 && b.stage == Some(stage)) ||
     (id in ready && b.issueType != "epic" && b.assignee == "" && b.stage == None && LabelledFor(b.labels, stage) &&
      (stage == Test || stage == Review ==> HasPrLink(b.description) || exists c :: c in ThreadOf(h, id) && HasPrLink(c.text))))
  }

  /** The snapshot's beads an agent of this base name has in progress for the hub. */
  function Busy(h: Hub, name: string): set<Id> {
    set id | id in h.beads && BaseName(h.beads[id].assignee) == name && h.beads[id].status == InProgress && h.beads[id].stage != None
  }

  /** This tick's dispatches to an agent. */
  function Given(items: seq<Item>, agent: string): set<int> {
    set k | 0 <= k < |items| && items[k].agent == agent
  }

  /** s is smaller at the first place where they differ, or ends there. */
  ghost predicate TextBefore(s: string, t: string) {
    exists k :: 0 <= k <= |s| && k <= |t| && s[..k] == t[..k] && k < |t| && (k == |s| || s[k] < t[k])
  }

  function Rank(b: Bead): int { if b.priority.Some? then b.priority.value else 9_999 }

  /** x is taken before y: by priority, a bead without one last, and then by id. */
  ghost predicate TakenBefore(h: Hub, x: Id, y: Id) {
    x in h.beads && y in h.beads &&
    (Rank(h.beads[x]) < Rank(h.beads[y]) || (Rank(h.beads[x]) == Rank(h.beads[y]) && TextBefore(x, y)))
  }

  /** The bead as a dispatch leaves it: with the agent, or pending again if the agent's wake-up failed. */
  ghost predicate IsDispatched(cfg: Config, now: int, notify: Option<string -> bool>, was: Bead, b: Bead, stage: Stage) {
    stage in cfg.roster &&
    var agent := cfg.roster[stage];
    b == if notify.Some? && agent != "" && !notify.value(agent)
         then was.(assignee := cfg.actor, status := Open, stage := Some(stage), dispatchedAt := None, pending := Some(1))
         else was.(assignee := agent, status := InProgress, stage := Some(stage), dispatchedAt := Some(now - now % 1_000_000),
                   pending := if was.pending.Some? && was.pending.value != 0 then None else Some(0))
  }

  // ------------------------------------------------------------------ the work has it all

  lemma {:induction false} PendingListed(cfg: Config, snap: Hub, rows: seq<Id>, id: Id)
    requires forall x :: x in rows ==> x in snap.beads
    requires id in rows && IsPendingWork(cfg, snap.beads[id]) && snap.beads[id].stage.Some?
    ensures Work(id, snap.beads[id], snap.beads[id].stage.value) in PendingWork(cfg, snap, rows)
  {
    hide IsPendingWork;
    var n := |rows| - 1;
    assert rows == rows[..n] + [rows[n]];
    if rows[n] != id { PendingListed(cfg, snap, rows[..n], id); }
  }

  lemma {:induction false} WorkStays(cfg: Config, hub: Hub, work: seq<Work>, ready: seq<Id>, w: Work)
    requires w in work
    ensures w in WithCandidates(cfg, hub, work, ready)
  {
    hide IsCandidate, StageOfCandidate;
    if ready != [] { WorkStays(cfg, hub, work, ready[..|ready| - 1], w); }
  }

  /** A ready candidate is listed, as itself or because its id was there already. */
  lemma {:induction false} CandidateListed(cfg: Config, hub: Hub, work: seq<Work>, ready: seq<Id>, id: Id)
    requires id in ready && id in hub.beads && IsCandidate(cfg, hub.beads[id], ThreadOf(hub, id))
    ensures Listed(WithCandidates(cfg, hub, work, ready), id)
  {
    hide IsCandidate, StageOfCandidate;
    var n := |ready| - 1;
    assert ready == ready[..n] + [ready[n]];
    var prev := WithCandidates(cfg, hub, work, ready[..n]);
    if ready[n] != id { CandidateListed(cfg, hub, work, ready[..n], id); }
    if Listed(prev, id) {
      var w :| w in prev && w.id == id;
      assert w in WithCandidates(cfg, hub, work, ready);
    } else {
      CandidateHasStage(cfg, hub.beads[id], ThreadOf(hub, id));
      var w := Work(id, hub.beads[id], StageOfCandidate(hub.beads[id]).value);
      assert w in WithCandidates(cfg, hub, work, ready);
    }
  }

  lemma DueForms(cfg: Config, h: Hub, ready: seq<Id>, id: Id, stage: Stage)
    requires Due(cfg, h, ready, id, stage)
    ensures id in h.beads && stage in cfg.roster && var b := h.beads[id];
            AgentFor(cfg, Some(stage)) == Some(cfg.roster[stage]) &&
            if b.stage.Some? then b.stage == Some(stage) && IsPendingWork(cfg, b)
            else id in ready && IsCandidate(cfg, b, ThreadOf(h, id)) && StageOfCandidate(b) == Some(stage)
  {
  }

  /** A bead that made no move stands on the swept board as it did on the snapshot. */
  lemma StayedAsIs(cfg: Config, h: Hub, now: int, id: Id)
    requires HubOk(h) && id in h.beads && TickMove(cfg, now, h.beads[id], ThreadOf(h, id)).Stay?
    ensures var st := ThreePasses(cfg, now, h); st.hub.beads[id] == h.beads[id] && ThreadOf(st.hub, id) == ThreadOf(h, id) && id !in st.acted
  {
    hide TickMove, Moved, ThreePasses, Remarks;
    ThreePassesMeaning(cfg, now, h, id);
    NoRemarks(cfg, now);
    assert ThreadOf(h, id) + [] == ThreadOf(h, id);
  }

  lemma DueIsListed(cfg: Config, h: Hub, now: int, ready: seq<Id>, id: Id, stage: Stage) returns (w: Work)
    requires HubOk(h) && Due(cfg, h, ready, id, stage) && TickMove(cfg, now, h.beads[id], ThreadOf(h, id)).Stay?
    ensures w in WithCandidates(cfg, ThreePasses(cfg, now, h).hub, PendingWork(cfg, h, h.order), ready)
    ensures w == Work(id, h.beads[id], stage)
  {
    hide ThreePasses, IsCandidate, IsPendingWork, StageOfCandidate, TickMove, Due;
    var st := ThreePasses(cfg, now, h);
    var pending := PendingWork(cfg, h, h.order);
    DueForms(cfg, h, ready, id, stage);
    StayedAsIs(cfg, h, now, id);
    if h.beads[id].stage.Some? {
      PendingListed(cfg, h, h.order, id);
      w := Work(id, h.beads[id], stage);
      WorkStays(cfg, st.hub, pending, ready, w);
    } else {
      CandidateListed(cfg, st.hub, pending, ready, id);
      var all := WithCandidates(cfg, st.hub, pending, ready);
      w :| w in all && w.id == id;
      PendingWorkFacts(cfg, h, st.hub, h.order);
      CandidateFacts(cfg, h, st.hub, pending, ready);
      var k :| 0 <= k < |all| && all[k] == w;
      assert WorkOk(cfg, h, st.hub, all[k]);
    }
  }

  // ------------------------------------------------------------------- choosing in order

  ghost predicate FromEarlier(work: seq<Work>, i: int, id: Id) { exists j :: 0 <= j < i && j < |work| && work[j].id == id }

  /** Each piece of work is chosen in its turn, unless its agent is full by then, and then the agent gets nothing later. */
  lemma {:induction false} ChosenComplete(cfg: Config, snap: Hub, acted: set<Id>, work: seq<Work>, i: nat, agent: string)
    requires i < |work| && work[i].id !in acted && AgentFor(cfg, Some(work[i].stage)) == Some(agent)
    ensures var items := Chosen(cfg, snap, acted, work);
            Item(work[i].id, work[i].stage, agent, IsPending(work[i].bead)) in items ||
            (!HasRoom(cfg, snap, items, agent) && forall item :: item in items && item.agent == agent ==> FromEarlier(work, i, item.id))
  {
    hide HasRoom, IsPending;
    var n := |work| - 1;
    var prev, items := Chosen(cfg, snap, acted, work[..n]), Chosen(cfg, snap, acted, work);
    if i < n {
      ChosenComplete(cfg, snap, acted, work[..n], i, agent);
      if Item(work[i].id, work[i].stage, agent, IsPending(work[i].bead)) !in items {
        RoomFor(cfg, snap, acted, work, agent);
        forall item | item in items && item.agent == agent ensures FromEarlier(work, i, item.id) {
          assert item in prev;
          assert FromEarlier(work[..n], i, item.id);
        }
      }
    } else if HasRoom(cfg, snap, prev, agent) {
      assert items[|prev|] == Item(work[i].id, work[i].stage, agent, IsPending(work[i].bead));
    } else {
      assert items == prev;
      ChosenAreWork(cfg, snap, acted, work[..n]);
      forall item | item in items && item.agent == agent ensures FromEarlier(work, i, item.id) {
        assert FromEarlier(work[..n], n, item.id);
      }
    }
  }

  /** An agent that is full stays full and gets nothing more. */
  lemma RoomFor(cfg: Config, snap: Hub, acted: set<Id>, work: seq<Work>, agent: string)
    requires work != [] && !HasRoom(cfg, snap, Chosen(cfg, snap, acted, work[..|work| - 1]), agent)
    ensures var prev, items := Chosen(cfg, snap, acted, work[..|work| - 1]), Chosen(cfg, snap, acted, work);
            !HasRoom(cfg, snap, items, agent) && forall item :: item in items && item.agent == agent ==> item in prev
  {
  }

  lemma {:induction false} ChosenAreWork(cfg: Config, snap: Hub, acted: set<Id>, work: seq<Work>)
    ensures forall item :: item in Chosen(cfg, snap, acted, work) ==> FromEarlier(work, |work|, item.id)
  {
    hide HasRoom;
    if work != [] {
      var n := |work| - 1;
      ChosenAreWork(cfg, snap, acted, work[..n]);
      forall item | item in Chosen(cfg, snap, acted, work) ensures FromEarlier(work, |work|, item.id) {
        if item in Chosen(cfg, snap, acted, work[..n]) {
          assert FromEarlier(work[..n], n, item.id);
        } else {
          assert work[n].id == item.id;
        }
      }
    }
  }

  lemma {:induction false} GivenIsCounted(items: seq<Item>, agent: string)
    ensures StampedFor(items, agent) == |Given(items, agent)|
  {
    if items != [] {
      hide Given;
      GivenIsCounted(items[..|items| - 1], agent);
      GivenStep(items, agent);
    }
  }

  lemma GivenStep(items: seq<Item>, agent: string)
    requires items != []
    ensures var n := |items| - 1;
            n !in Given(items[..n], agent) && Given(items, agent) == Given(items[..n], agent) + (if items[n].agent == agent then {n} else {})
  {
  }

  lemma RoomIs(cfg: Config, h: Hub, items: seq<Item>, agent: string)
    ensures HasRoom(cfg, h, items, agent) <==> |Busy(h, BaseName(agent))| + |Given(items, agent)| < cfg.wip
  {
    hide BaseName;
    GivenIsCounted(items, agent);
    assert Busy(h, BaseName(agent)) == RunningFor(h, BaseName(agent));
  }

  // --------------------------------------------------------------------------- order

  lemma {:induction false} LexIsTextBefore(s: string, t: string)
    requires LexLeq(s, t) && s != t
    ensures TextBefore(s, t)
  {
    if s == "" {
      assert s[..0] == t[..0];
    } else if s[0] < t[0] {
      assert s[..0] == t[..0];
    } else {
      assert s == [s[0]] + s[1..] && t == [t[0]] + t[1..];
      LexIsTextBefore(s[1..], t[1..]);
      var k :| 0 <= k <= |s[1..]| && k <= |t[1..]| && s[1..][..k] == t[1..][..k] && k < |t[1..]| && (k == |s[1..]| || s[1..][k] < t[1..][k]);
      assert s[..k + 1] == [s[0]] + s[1..][..k] && t[..k + 1] == [t[0]] + t[1..][..k];
    }
  }

  lemma EarlierWork(h: Hub, work: seq<Work>, j: nat, i: nat)
    requires j < i < |work| && SortedWork(work) && DistinctWork(work)
    requires work[j].id in h.beads && work[i].id in h.beads
    requires work[j].bead == h.beads[work[j].id] && work[i].bead == h.beads[work[i].id]
    ensures TakenBefore(h, work[j].id, work[i].id)
  {
    hide LexLeq, TextBefore;
    assert Leq(work[j], work[i]);
    if Priority(work[j].bead) == Priority(work[i].bead) { LexIsTextBefore(work[j].id, work[i].id); }
  }

  // ------------------------------------------------------------------------ theorem

  /**
   * Dispatch is complete.  Where a wake-up route exists or none is asked for, a bead that is due and made no
   * move this tick is dispatched, unless its agent's running beads and this tick's dispatches to the agent
   * reach the cap; and then the agent gets nothing that comes later in the order of priority and id.
   */
  lemma DispatchComplete(cfg: Config, h: Hub, now: int, ready: seq<Id>, notify: Option<string -> bool>, id: Id, stage: Stage)
    requires HubOk(h) && Due(cfg, h, ready, id, stage) && TickMove(cfg, now, h.beads[id], ThreadOf(h, id)).Stay?
    requires cfg.autoNotify ==> notify.Some?
    ensures var items := Items(cfg, h, now, ready, notify); var agent := cfg.roster[stage];
            (id in Tick(cfg, h, now, ready, notify).beads &&
             IsDispatched(cfg, now, notify, h.beads[id], Tick(cfg, h, now, ready, notify).beads[id], stage)) ||
            (|Busy(h, BaseName(agent))| + |Given(items, agent)| >= cfg.wip &&
             forall item :: item in items && item.agent == agent ==> TakenBefore(h, item.id, id))
  {
    hide ThreePasses, TickMove, Due, WithCandidates, PendingWork, SortWork, Chosen, Items, IsDispatched, Tick, HasRoom, Busy, Given, TakenBefore, BaseName;
    DueForms(cfg, h, ready, id, stage);
    StayedAsIs(cfg, h, now, id);
    var agent := cfg.roster[stage];
    var sorted, i := DueIsSorted(cfg, h, now, ready, notify, id, stage);
    var items := Items(cfg, h, now, ready, notify);
    ChosenComplete(cfg, h, ThreePasses(cfg, now, h).acted, sorted, i, agent);
    var item := Item(id, stage, agent, IsPending(h.beads[id]));
    if item in items {
      ItemIsDispatched(cfg, h, now, ready, notify, item);
    } else {
      RoomIs(cfg, h, items, agent);
      forall x | x in items && x.agent == agent ensures TakenBefore(h, x.id, id) {
        assert FromEarlier(sorted, i, x.id);
        var j :| 0 <= j < i && j < |sorted| && sorted[j].id == x.id;
        ItemStayed(cfg, h, now, ready, notify, x);
        EarlierWork(h, sorted, j, i);
      }
    }
  }

  /** The sorted work of a tick that may dispatch, and the due bead's place in it. */
  lemma DueIsSorted(cfg: Config, h: Hub, now: int, ready: seq<Id>, notify: Option<string -> bool>, id: Id, stage: Stage)
    returns (sorted: seq<Work>, i: nat)
    requires HubOk(h) && Due(cfg, h, ready, id, stage) && TickMove(cfg, now, h.beads[id], ThreadOf(h, id)).Stay?
    requires cfg.autoNotify ==> notify.Some?
    ensures Items(cfg, h, now, ready, notify) == Chosen(cfg, h, ThreePasses(cfg, now, h).acted, sorted)
    ensures i < |sorted| && sorted[i] == Work(id, h.beads[id], stage)
    ensures SortedWork(sorted) && DistinctWork(sorted)
    ensures forall j :: 0 <= j < |sorted| && sorted[j].id !in ThreePasses(cfg, now, h).acted ==>
              sorted[j].id in h.beads && sorted[j].bead == h.beads[sorted[j].id]
  {
    hide ThreePasses, TickMove, Due, WithCandidates, PendingWork, SortWork, Chosen, IsCandidate, IsPendingWork, StageOfCandidate;
    var st := ThreePasses(cfg, now, h);
    var pending := PendingWork(cfg, h, h.order);
    var work := WithCandidates(cfg, st.hub, pending, ready);
    PendingWorkFacts(cfg, h, st.hub, h.order);
    CandidateFacts(cfg, h, st.hub, pending, ready);
    SortWorkFacts(work);
    WorkIsSorted(work);
    sorted := SortWork(work);
    var w := DueIsListed(cfg, h, now, ready, id, stage);
    i :| 0 <= i < |sorted| && sorted[i] == w;
    forall j | 0 <= j < |sorted| && sorted[j].id !in st.acted ensures sorted[j].id in h.beads && sorted[j].bead == h.beads[sorted[j].id] {
      assert sorted[j] in work;
      var k :| 0 <= k < |work| && work[k] == sorted[j];
      assert WorkOk(cfg, h, st.hub, work[k]);
      NotActedStayed(cfg, h, now, sorted[j].id);
    }
  }

  lemma NotActedStayed(cfg: Config, h: Hub, now: int, id: Id)
    requires HubOk(h) && id !in ThreePasses(cfg, now, h).acted && id in h.beads
    ensures ThreePasses(cfg, now, h).hub.beads[id] == h.beads[id]
  {
    hide TickMove, Moved, ThreePasses, Remarks;
    ThreePassesMeaning(cfg, now, h, id);
  }

  lemma ItemStayed(cfg: Config, h: Hub, now: int, ready: seq<Id>, notify: Option<string -> bool>, item: Item)
    requires HubOk(h) && item in Items(cfg, h, now, ready, notify)
    ensures item.id in h.beads && item.id !in ThreePasses(cfg, now, h).acted && item.wasPending == IsPending(h.beads[item.id])
    ensures TickMove(cfg, now, h.beads[item.id], ThreadOf(h, item.id)).Stay?
  {
    hide TickMove, Items, IsCandidate, IsPendingWork, StageOfCandidate, ThreePasses;
    ItemsFacts(cfg, h, now, ready, notify);
    assert ItemOk(cfg, now, h, item);
    StayedAsIs(cfg, h, now, item.id);
  }

  lemma ItemIsDispatched(cfg: Config, h: Hub, now: int, ready: seq<Id>, notify: Option<string -> bool>, item: Item)
    requires HubOk(h) && item in Items(cfg, h, now, ready, notify) && item.stage in cfg.roster && item.agent == cfg.roster[item.stage]
    ensures item.id in Tick(cfg, h, now, ready, notify).beads && item.id in h.beads
    ensures IsDispatched(cfg, now, notify, h.beads[item.id], Tick(cfg, h, now, ready, notify).beads[item.id], item.stage)
  {
    hide TickMove, Moved, Remarks, Items, Tick, ThreePasses, ItemOk, IsPending, DispatchedBead, RevertedBead, WakeupFails, IsDispatched, HasRoom;
    var items := Items(cfg, h, now, ready, notify);
    ItemStayed(cfg, h, now, ready, notify, item);
    ItemsFacts(cfg, h, now, ready, notify);
    OnlyItem(items, item);
    TickMeaning(cfg, h, now, ready, notify, item.id);
    StampedOrPending(cfg, now, notify, h.beads[item.id], item);
  }

  lemma StampedOrPending(cfg: Config, now: int, notify: Option<string -> bool>, b: Bead, item: Item)
    requires item.stage in cfg.roster && item.agent == cfg.roster[item.stage] && item.wasPending == IsPending(b)
    ensures var d := DispatchedBead(now, b, item.stage, item.agent, item.wasPending);
            IsDispatched(cfg, now, notify, b, if WakeupFails(notify, item.agent) then RevertedBead(cfg, d) else d, item.stage)
  {
  }

  lemma {:induction false} OnlyItem(items: seq<Item>, item: Item)
    requires DistinctItems(items) && item in items
    ensures FindItem(items, item.id) == Some(item)
  {
    var n := |items| - 1;
    if items[n] != item { OnlyItem(items[..n], item); }
  }

  // ------------------------------------------------------------------------ converse

  lemma {:induction false} CandidatesAreReady(cfg: Config, hub: Hub, work: seq<Work>, ready: seq<Id>, w: Work)
    requires w in WithCandidates(cfg, hub, work, ready)
    ensures w in work || w.id in ready
  {
    hide IsCandidate, StageOfCandidate;
    if ready != [] {
      var n := |ready| - 1;
      if w in WithCandidates(cfg, hub, work, ready[..n]) { CandidatesAreReady(cfg, hub, work, ready[..n], w); }
    }
  }

  lemma {:induction false} PendingIsPending(cfg: Config, snap: Hub, rows: seq<Id>, w: Work)
    requires (forall x :: x in rows ==> x in snap.beads) && w in PendingWork(cfg, snap, rows)
    ensures w.id in snap.beads && w.bead == snap.beads[w.id] && IsPendingWork(cfg, w.bead) && w.bead.stage == Some(w.stage)
  {
    var n := |rows| - 1;
    assert rows == rows[..n] + [rows[n]];
    if w in PendingWork(cfg, snap, rows[..n]) { PendingIsPending(cfg, snap, rows[..n], w); }
  }

  lemma FormsAreDue(cfg: Config, h: Hub, ready: seq<Id>, id: Id, stage: Stage)
    requires id in h.beads && var b := h.beads[id];
             (IsPendingWork(cfg, b) && b.stage == Some(stage)) ||
             (id in ready && IsCandidate(cfg, b, ThreadOf(h, id)) && StageOfCandidate(b) == Some(stage))
    ensures Due(cfg, h, ready, id, stage)
  {
  }

  /** Nothing else is dispatched: every dispatch is due to a bead that made no move, and no agent is given more than its cap leaves. */
  lemma DispatchSound(cfg: Config, h: Hub, now: int, ready: seq<Id>, notify: Option<string -> bool>, item: Item)
    requires HubOk(h) && item in Items(cfg, h, now, ready, notify)
    ensures Due(cfg, h, ready, item.id, item.stage) && TickMove(cfg, now, h.beads[item.id], ThreadOf(h, item.id)).Stay?
    ensures item.stage in cfg.roster && item.agent == cfg.roster[item.stage] && (cfg.autoNotify ==> notify.Some?)
    ensures |Busy(h, BaseName(item.agent))| + |Given(Items(cfg, h, now, ready, notify), item.agent)| <= cfg.wip
  {
    hide TickMove, ThreePasses, Due, WithCandidates, PendingWork, SortWork, Chosen, IsCandidate, IsPendingWork, StageOfCandidate, Busy, Given, BaseName, HasRoom;
    var st := ThreePasses(cfg, now, h);
    var pending := PendingWork(cfg, h, h.order);
    var work := WithCandidates(cfg, st.hub, pending, ready);
    PendingWorkFacts(cfg, h, st.hub, h.order);
    CandidateFacts(cfg, h, st.hub, pending, ready);
    SortWorkFacts(work);
    ChosenFacts(cfg, h, st.acted, SortWork(work));
    ItemStayed(cfg, h, now, ready, notify, item);
    StayedAsIs(cfg, h, now, item.id);
    var items := Items(cfg, h, now, ready, notify);
    var w := WorkOf(cfg, st.acted, SortWork(work), items, item);
    CandidatesAreReady(cfg, st.hub, pending, ready, w);
    if w in pending {
      PendingIsPending(cfg, h, h.order, w);
    } else {
      var j :| 0 <= j < |work| && work[j] == w;
      assert WorkOk(cfg, h, st.hub, work[j]);
    }
    FormsAreDue(cfg, h, ready, item.id, item.stage);
    GivenFits(cfg, h, items, item.agent);
  }

  lemma WorkOf(cfg: Config, acted: set<Id>, sorted: seq<Work>, items: seq<Item>, item: Item) returns (w: Work)
    requires item in items && forall k :: 0 <= k < |items| ==> FromWork(cfg, acted, sorted, items[k])
    ensures w in sorted && w.id == item.id && w.stage == item.stage
    ensures item.stage in cfg.roster && item.agent == cfg.roster[item.stage]
  {
    var k :| 0 <= k < |items| && items[k] == item;
    assert FromWork(cfg, acted, sorted, items[k]);
    var i :| 0 <= i < |sorted| && sorted[i].id == item.id && sorted[i].stage == item.stage;
    w := sorted[i];
  }

  /** With room before each of its dispatches, an agent ends within its cap. */
  lemma {:induction false} GivenFits(cfg: Config, h: Hub, items: seq<Item>, agent: string)
    requires forall k :: 0 <= k < |items| ==> HasRoom(cfg, h, items[..k], items[k].agent)
    requires exists k :: 0 <= k < |items| && items[k].agent == agent
    ensures |Busy(h, BaseName(agent))| + |Given(items, agent)| <= cfg.wip
  {
    hide Busy, Given, BaseName, HasRoom;
    var n := |items| - 1;
    RoomIs(cfg, h, items[..n], agent);
    GivenStep(items, agent);
    if items[n].agent != agent {
      forall k | 0 <= k < n ensures HasRoom(cfg, h, items[..n][..k], items[..n][k].agent) {
        assert items[..n][..k] == items[..k];
      }
      var k :| 0 <= k < |items| && items[k].agent == agent;
      assert items[..n][k].agent == agent;
      GivenFits(cfg, h, items[..n], agent);
    }
  }
}
