/** One tick as a function of the board: passes over a snapshot, then the dispatches and their wake-ups. */
module HubSweep {
  import opened A2aDoc
  import opened Text
  import opened HubBoard

  /** The listing names each bead once. */
  ghost predicate HubOk(h: Hub) {
    (forall id :: id in h.order <==> id in h.beads) && (forall i, j :: 0 <= i < j < |h.order| ==> h.order[i] != h.order[j])
  }

  // ------------------------------------------------------------------- three passes

  datatype Pass = Handoffs | Guidance | Grace

  function PassMove(pass: Pass, cfg: Config, now: int, b: Bead, thread: seq<Comment>): Move {
    match pass
    case Handoffs => HandoffPass(cfg, b, thread)
    case Guidance => GuidancePass(cfg, b, thread)
    case Grace => GracePass(cfg, now, b, thread)
  }

  /** The board under the sweep, and the beads it has acted on this tick. */
  datatype Sweeping = Sweeping(hub: Hub, acted: set<Id>)

  function PassOne(pass: Pass, cfg: Config, now: int, snap: Hub, st: Sweeping, id: Id): Sweeping
    requires id in snap.beads && id in st.hub.beads
  {
    if pass.Grace? && id in st.acted then st
    else
      var m := PassMove(pass, cfg, now, snap.beads[id], ThreadOf(st.hub, id));
      if m.Stay? then st else Sweeping(WithMove(cfg, now, st.hub, id, m), st.acted + {id})
  }

  /** A pass decides from the snapshot's rows, whatever the board has become meanwhile. */
  function Passed(pass: Pass, cfg: Config, now: int, snap: Hub, st: Sweeping, rows: seq<Id>): (r: Sweeping)
    requires forall id :: id in rows ==> id in snap.beads && id in st.hub.beads
    ensures r.hub.beads.Keys == st.hub.beads.Keys && r.hub.order == st.hub.order
  {
    if rows == [] then st
    else
      var n := |rows| - 1;
      assert rows[n] in rows && rows == rows[..n] + [rows[n]];
      PassOne(pass, cfg, now, snap, Passed(pass, cfg, now, snap, st, rows[..n]), rows[n])
  }

  function ThreePasses(cfg: Config, now: int, h: Hub): (r: Sweeping)
    requires forall id :: id in h.order ==> id in h.beads
    ensures r.hub.beads.Keys == h.beads.Keys && r.hub.order == h.order
  {
    var s1 := Passed(Handoffs, cfg, now, h, Sweeping(h, {}), h.order);
    var s2 := Passed(Guidance, cfg, now, h, s1, h.order);
    Passed(Grace, cfg, now, h, s2, h.order)
  }

  /** Dispatched work that is left alone but idle: the beads a wake-up also mentions. */
  predicate NeedsReping(cfg: Config, now: int, b: Bead, thread: seq<Comment>) {
    Dispatched(b) && !Overdue(cfg, now, b, thread) && now - LastSeen(b, thread) > cfg.reping
  }

  function Repings(cfg: Config, now: int, snap: Hub, st: Sweeping, rows: seq<Id>): seq<Id>
    requires forall id :: id in rows ==> id in snap.beads
  {
    if rows == [] then []
    else
      var n := |rows| - 1;
      assert rows[n] in rows && rows == rows[..n] + [rows[n]];
      Repings(cfg, now, snap, st, rows[..n]) +
      (if rows[n] !in st.acted && NeedsReping(cfg, now, snap.beads[rows[n]], ThreadOf(st.hub, rows[n])) then [rows[n]] else [])
  }

  // -------------------------------------------------------------------- work, in order

  datatype Work = Work(id: Id, bead: Bead, stage: Stage)

  predicate IsPendingWork(cfg: Config, b: Bead) {
    b.status.Open? && IsPending(b) && Routing(b.stage) && AgentFor(cfg, b.stage).Some?
  }

  function PendingWork(cfg: Config, snap: Hub, rows: seq<Id>): seq<Work>
    requires forall id :: id in rows ==> id in snap.beads
  {
    if rows == [] then []
    else
      var n := |rows| - 1;
      assert rows[n] in rows && rows == rows[..n] + [rows[n]];
      var b := snap.beads[rows[n]];
      PendingWork(cfg, snap, rows[..n]) + (if IsPendingWork(cfg, b) then [Work(rows[n], b, b.stage.value)] else [])
  }

  predicate Listed(work: seq<Work>, id: Id) { exists w :: w in work && w.id == id }

  /** Candidates are read from the board as it is now; one already listed is not listed again. */
  function WithCandidates(cfg: Config, hub: Hub, work: seq<Work>, ready: seq<Id>): seq<Work> {
    if ready == [] then work
    else
      var n := |ready| - 1;
      var prev := WithCandidates(cfg, hub, work, ready[..n]);
      var id := ready[n];
      if id in hub.beads && IsCandidate(cfg, hub.beads[id], ThreadOf(hub, id)) && !Listed(prev, id)
      then prev + [Work(id, hub.beads[id], StageOfCandidate(hub.beads[id]).value)]
      else prev
  }

  function Priority(b: Bead): int { if b.priority.Some? then b.priority.value else 9_999 }

  /** The sort key: priority first, then the id. */
  predicate Leq(a: Work, b: Work) {
    Priority(a.bead) < Priority(b.bead) || (Priority(a.bead) == Priority(b.bead) && LexLeq(a.id, b.id))
  }

  function InsertWork(work: seq<Work>, w: Work): seq<Work> {
    if work == [] then [w]
    else
      var n := |work| - 1;
      if Leq(work[n], w) then work + [w] else InsertWork(work[..n], w) + [work[n]]
  }

  function SortWork(work: seq<Work>): seq<Work> {
    if work == [] then [] else InsertWork(SortWork(work[..|work| - 1]), work[|work| - 1])
  }

  // ------------------------------------------------------------------------- dispatch

  /** One stamped dispatch. */
  datatype Item = Item(id: Id, stage: Stage, agent: string, wasPending: bool)

  predicate CountsFor(b: Bead, name: string) { BaseName(b.assignee) == name && b.status.InProgress? && b.stage.Some? }

  function RunningFor(h: Hub, name: string): set<Id> {
    set id | id in h.beads && CountsFor(h.beads[id], name)
  }

  function StampedFor(items: seq<Item>, agent: string): nat {
    if items == [] then 0
    else StampedFor(items[..|items| - 1], agent) + (if items[|items| - 1].agent == agent then 1 else 0)
  }

  predicate HasRoom(cfg: Config, snap: Hub, items: seq<Item>, agent: string) {
    |RunningFor(snap, BaseName(agent))| + StampedFor(items, agent) < cfg.wip
  }

  /** The running counts come from the snapshot, the stamps of this very tick are added. */
  function Chosen(cfg: Config, snap: Hub, acted: set<Id>, work: seq<Work>): seq<Item> {
    if work == [] then []
    else
      var n := |work| - 1;
      var items := Chosen(cfg, snap, acted, work[..n]);
      var w := work[n];
      var agent := AgentFor(cfg, Some(w.stage));
      if w.id !in acted && agent.Some? && HasRoom(cfg, snap, items, agent.value)
      then items + [Item(w.id, w.stage, agent.value, IsPending(w.bead))]
      else items
  }

  function WithDispatch(now: int, h: Hub, item: Item): Hub {
    if item.id !in h.beads then h
    else h.(beads := h.beads[item.id := DispatchedBead(now, h.beads[item.id], item.stage, item.agent, item.wasPending)])
  }

  function WithDispatches(now: int, h: Hub, items: seq<Item>): Hub {
    if items == [] then h else WithDispatch(now, WithDispatches(now, h, items[..|items| - 1]), items[|items| - 1])
  }

  /** Whether the wake-up of this agent reports a transport failure; without a route none is sent. */
  predicate WakeupFails(notify: Option<string -> bool>, agent: string) {
    notify.Some? && agent != "" && !notify.value(agent)
  }

  function WithReverts(cfg: Config, h: Hub, items: seq<Item>, notify: Option<string -> bool>): Hub {
    if items == [] then h
    else
      var n := |items| - 1;
      var prev := WithReverts(cfg, h, items[..n], notify);
      if WakeupFails(notify, items[n].agent) && items[n].id in prev.beads
      then prev.(beads := prev.beads[items[n].id := RevertedBead(cfg, prev.beads[items[n].id])])
      else prev
  }

  function Items(cfg: Config, h: Hub, now: int, ready: seq<Id>, notify: Option<string -> bool>): seq<Item>
    requires forall id :: id in h.order ==> id in h.beads
  {
    var st := ThreePasses(cfg, now, h);
    if cfg.autoNotify && notify.None? then []
    else Chosen(cfg, h, st.acted, SortWork(WithCandidates(cfg, st.hub, PendingWork(cfg, h, h.order), ready)))
  }

  /** The whole tick.  `ready` is what the board calls ready, `notify` answers whether a wake-up got through. */
  function Tick(cfg: Config, h: Hub, now: int, ready: seq<Id>, notify: Option<string -> bool>): Hub
    requires forall id :: id in h.order ==> id in h.beads
  {
    var items := Items(cfg, h, now, ready, notify);
    WithReverts(cfg, WithDispatches(now, ThreePasses(cfg, now, h).hub, items), items, notify)
  }

  // ------------------------------------------------------- what a tick means, bead by bead

  /** All a sweep holds about one bead. */
  datatype Cell = Cell(bead: Bead, thread: seq<Comment>, acted: bool)

  function CellOf(st: Sweeping, id: Id): Cell
    requires id in st.hub.beads
  {
    Cell(st.hub.beads[id], ThreadOf(st.hub, id), id in st.acted)
  }

  function CellStep(pass: Pass, cfg: Config, now: int, was: Bead, c: Cell): Cell {
    var m := PassMove(pass, cfg, now, was, c.thread);
    if (pass.Grace? && c.acted) || m.Stay? then c
    else Cell(Moved(cfg, now, c.bead, m), c.thread + Remarks(cfg, now, m), true)
  }

  lemma PassOneCells(pass: Pass, cfg: Config, now: int, snap: Hub, st: Sweeping, x: Id, id: Id)
    requires x in snap.beads && x in st.hub.beads && id in st.hub.beads
    ensures var r := PassOne(pass, cfg, now, snap, st, x);
            id in r.hub.beads && CellOf(r, id) == if id == x then CellStep(pass, cfg, now, snap.beads[x], CellOf(st, x)) else CellOf(st, id)
  {
    hide PassMove, Moved, Remarks;
  }

  /** One pass gives each bead its own move, decided from the snapshot's row alone. */
  lemma {:induction false} PassMeaning(pass: Pass, cfg: Config, now: int, snap: Hub, st: Sweeping, rows: seq<Id>, id: Id)
    requires forall x :: x in rows ==> x in snap.beads && x in st.hub.beads
    requires forall i, j :: 0 <= i < j < |rows| ==> rows[i] != rows[j]
    requires id in st.hub.beads && id in snap.beads
    ensures var r := Passed(pass, cfg, now, snap, st, rows);
            CellOf(r, id) == if id in rows then CellStep(pass, cfg, now, snap.beads[id], CellOf(st, id)) else CellOf(st, id)
  {
    hide PassOne, CellStep, CellOf;
    if rows != [] {
      var n := |rows| - 1;
      assert rows == rows[..n] + [rows[n]] && rows[n] in rows;
      PassMeaning(pass, cfg, now, snap, st, rows[..n], id);
      PassOneCells(pass, cfg, now, snap, Passed(pass, cfg, now, snap, st, rows[..n]), rows[n], id);
    }
  }

  /** After three passes every bead has made the one move of this tick, or none. */
  lemma ThreePassesMeaning(cfg: Config, now: int, h: Hub, id: Id)
    requires HubOk(h) && id in h.beads
    ensures var m := TickMove(cfg, now, h.beads[id], ThreadOf(h, id));
            CellOf(ThreePasses(cfg, now, h), id) ==
              Cell(if m.Stay? then h.beads[id] else Moved(cfg, now, h.beads[id], m), ThreadOf(h, id) + Remarks(cfg, now, m), !m.Stay?)
  {
    hide CellStep, TickMove, Moved, Remarks, Passed;
    var s0 := Sweeping(h, {});
    var s1 := Passed(Handoffs, cfg, now, h, s0, h.order);
    var s2 := Passed(Guidance, cfg, now, h, s1, h.order);
    PassMeaning(Handoffs, cfg, now, h, s0, h.order, id);
    PassMeaning(Guidance, cfg, now, h, s1, h.order, id);
    PassMeaning(Grace, cfg, now, h, s2, h.order, id);
    assert CellOf(s0, id) == Cell(h.beads[id], ThreadOf(h, id), false);
    ThreeSteps(cfg, now, h.beads[id], ThreadOf(h, id));
  }

  lemma ThreeSteps(cfg: Config, now: int, b: Bead, thread: seq<Comment>)
    ensures var m := TickMove(cfg, now, b, thread);
            CellStep(Grace, cfg, now, b, CellStep(Guidance, cfg, now, b, CellStep(Handoffs, cfg, now, b, Cell(b, thread, false)))) ==
              Cell(if m.Stay? then b else Moved(cfg, now, b, m), thread + Remarks(cfg, now, m), !m.Stay?)
  {
    hide HandoffPass, GuidancePass, GracePass, Moved, Remarks;
    MovesExclude(cfg, b, thread, CellStep(Handoffs, cfg, now, b, Cell(b, thread, false)).thread);
    NoRemarks(cfg, now);
    assert thread + [] == thread;
  }

  lemma NoRemarks(cfg: Config, now: int)
    ensures Remarks(cfg, now, Stay) == []
  {
  }

  /** No row is both dispatched and parked, whatever its thread has become. */
  lemma MovesExclude(cfg: Config, b: Bead, thread: seq<Comment>, later: seq<Comment>)
    ensures HandoffPass(cfg, b, thread).Stay? || GuidancePass(cfg, b, later).Stay?
  {
  }

  // ---------------------------------------------------------------- the work, as a list

  predicate DistinctWork(work: seq<Work>) {
    forall i, j :: 0 <= i < j < |work| ==> work[i].id != work[j].id
  }

  /** Why an item of work may be dispatched. */
  predicate WorkOk(cfg: Config, snap: Hub, hub: Hub, w: Work) {
    (w.id in snap.beads && w.bead == snap.beads[w.id] && IsPendingWork(cfg, w.bead) && w.bead.stage == Some(w.stage)) ||
    (w.id in hub.beads && w.bead == hub.beads[w.id] && IsCandidate(cfg, w.bead, ThreadOf(hub, w.id)) && StageOfCandidate(w.bead) == Some(w.stage))
  }

  predicate AllWorkOk(cfg: Config, snap: Hub, hub: Hub, work: seq<Work>) {
    forall i :: 0 <= i < |work| ==> WorkOk(cfg, snap, hub, work[i])
  }

  lemma {:induction false} PendingWorkFacts(cfg: Config, snap: Hub, hub: Hub, rows: seq<Id>)
    requires forall id :: id in rows ==> id in snap.beads
    requires forall i, j :: 0 <= i < j < |rows| ==> rows[i] != rows[j]
    ensures var work := PendingWork(cfg, snap, rows);
            DistinctWork(work) && AllWorkOk(cfg, snap, hub, work) && forall i :: 0 <= i < |work| ==> work[i].id in rows
  {
    hide IsPendingWork, IsCandidate, StageOfCandidate;
    if rows != [] {
      var n := |rows| - 1;
      assert rows == rows[..n] + [rows[n]] && rows[n] in rows;
      PendingWorkFacts(cfg, snap, hub, rows[..n]);
      if IsPendingWork(cfg, snap.beads[rows[n]]) { PendingHasStage(cfg, snap.beads[rows[n]]); }
    }
  }

  lemma PendingHasStage(cfg: Config, b: Bead)
    requires IsPendingWork(cfg, b)
    ensures b.stage.Some?
  {
  }

  lemma CandidateHasStage(cfg: Config, b: Bead, thread: seq<Comment>)
    requires IsCandidate(cfg, b, thread)
    ensures StageOfCandidate(b).Some?
  {
  }

  lemma {:induction false} CandidateFacts(cfg: Config, snap: Hub, hub: Hub, work: seq<Work>, ready: seq<Id>)
    requires DistinctWork(work) && AllWorkOk(cfg, snap, hub, work)
    ensures var all := WithCandidates(cfg, hub, work, ready); DistinctWork(all) && AllWorkOk(cfg, snap, hub, all)
  {
    hide IsPendingWork, IsCandidate, StageOfCandidate;
    if ready != [] {
      var n := |ready| - 1;
      CandidateFacts(cfg, snap, hub, work, ready[..n]);
      var id := ready[n];
      if id in hub.beads && IsCandidate(cfg, hub.beads[id], ThreadOf(hub, id)) { CandidateHasStage(cfg, hub.beads[id], ThreadOf(hub, id)); }
    }
  }

  lemma {:induction false} InsertWorkFacts(work: seq<Work>, w: Work)
    ensures var r := InsertWork(work, w);
            |r| == |work| + 1 && (forall x :: x in r <==> x in work || x == w) &&
            (DistinctWork(work) && !Listed(work, w.id) ==> DistinctWork(r))
  {
    hide Leq;
    if work != [] {
      var n := |work| - 1;
      assert work == work[..n] + [work[n]];
      if !Leq(work[n], w) {
        InsertWorkFacts(work[..n], w);
        var r := InsertWork(work[..n], w);
        if DistinctWork(work) && !Listed(work, w.id) {
          forall i | 0 <= i < |r| ensures r[i].id != work[n].id {
            assert r[i] in r;
            if r[i] != w { var k :| 0 <= k < n && work[k] == r[i]; }
          }
        }
      }
    }
  }

  /** Sorting permutes the work. */
  lemma {:induction false} SortWorkFacts(work: seq<Work>)
    ensures var r := SortWork(work); |r| == |work| && (forall x :: x in r <==> x in work) && (DistinctWork(work) ==> DistinctWork(r))
  {
    if work != [] {
      var n := |work| - 1;
      assert work == work[..n] + [work[n]];
      SortWorkFacts(work[..n]);
      InsertWorkFacts(SortWork(work[..n]), work[n]);
    }
  }

  predicate SortedWork(work: seq<Work>) {
    forall i, j :: 0 <= i < j < |work| ==> Leq(work[i], work[j])
  }

  lemma {:induction false} InsertSorted(work: seq<Work>, w: Work)
    requires SortedWork(work)
    ensures SortedWork(InsertWork(work, w))
  {
    if work != [] {
      var n := |work| - 1;
      if Leq(work[n], w) {
        forall i | 0 <= i < n ensures Leq(work[i], w) { LeqTransitive(work[i], work[n], w); }
      } else {
        InsertSorted(work[..n], w);
        InsertWorkFacts(work[..n], w);
        var r := InsertWork(work[..n], w);
        LexTotal(work[n].id, w.id);
        forall i | 0 <= i < |r| ensures Leq(r[i], work[n]) {
          assert r[i] in r;
          if r[i] != w { var k :| 0 <= k < n && work[k] == r[i]; }
        }
      }
    }
  }

  lemma LeqTransitive(a: Work, b: Work, c: Work)
    requires Leq(a, b) && Leq(b, c)
    ensures Leq(a, c)
  {
    if Priority(a.bead) == Priority(c.bead) { LexTransitive(a.id, b.id, c.id); }
  }

  /** Work is taken in order of priority, then of id. */
  lemma {:induction false} WorkIsSorted(work: seq<Work>)
    ensures SortedWork(SortWork(work))
  {
    if work != [] {
      WorkIsSorted(work[..|work| - 1]);
      InsertSorted(SortWork(work[..|work| - 1]), work[|work| - 1]);
    }
  }

  // -------------------------------------------------------------------- the stamped items

  predicate DistinctItems(items: seq<Item>) {
    forall i, j :: 0 <= i < j < |items| ==> items[i].id != items[j].id
  }

  predicate FromWork(cfg: Config, acted: set<Id>, work: seq<Work>, item: Item) {
    item.id !in acted && AgentFor(cfg, Some(item.stage)) == Some(item.agent) &&
    exists i :: 0 <= i < |work| && work[i].id == item.id && work[i].stage == item.stage && IsPending(work[i].bead) == item.wasPending
  }

  lemma {:induction false} ChosenFacts(cfg: Config, snap: Hub, acted: set<Id>, work: seq<Work>)
    requires DistinctWork(work)
    ensures var items := Chosen(cfg, snap, acted, work);
            DistinctItems(items) && (forall k :: 0 <= k < |items| ==> FromWork(cfg, acted, work, items[k])) &&
            (forall k :: 0 <= k < |items| ==> HasRoom(cfg, snap, items[..k], items[k].agent))
  {
    hide HasRoom;
    if work != [] {
      var n := |work| - 1;
      var prev := Chosen(cfg, snap, acted, work[..n]);
      var items := Chosen(cfg, snap, acted, work);
      ChosenFacts(cfg, snap, acted, work[..n]);
      forall k | 0 <= k < |items| ensures FromWork(cfg, acted, work, items[k]) && HasRoom(cfg, snap, items[..k], items[k].agent) {
        if k < |prev| {
          assert FromWork(cfg, acted, work[..n], prev[k]) && items[..k] == prev[..k];
        } else {
          assert items[..k] == prev && work[n].id == items[k].id;
        }
      }
      forall k | 0 <= k < |prev| ensures prev[k].id != work[n].id { assert FromWork(cfg, acted, work[..n], prev[k]); }
    }
  }

  function FindItem(items: seq<Item>, id: Id): (r: Option<Item>)
    ensures r.Some? ==> r.value in items && r.value.id == id
    ensures r.None? ==> forall i :: 0 <= i < |items| ==> items[i].id != id
  {
    if items == [] then None
    else if items[|items| - 1].id == id then Some(items[|items| - 1])
    else FindItem(items[..|items| - 1], id)
  }

  lemma {:induction false} DispatchesMeaning(now: int, h: Hub, items: seq<Item>, id: Id)
    requires DistinctItems(items) && id in h.beads
    ensures var g := WithDispatches(now, h, items); var item := FindItem(items, id);
            g.beads.Keys == h.beads.Keys && g.order == h.order && g.threads == h.threads &&
            g.beads[id] == if item.Some? then DispatchedBead(now, h.beads[id], item.value.stage, item.value.agent, item.value.wasPending) else h.beads[id]
  {
    hide DispatchedBead;
    if items != [] {
      DispatchesMeaning(now, h, items[..|items| - 1], id);
    }
  }

  lemma {:induction false} RevertsMeaning(cfg: Config, h: Hub, items: seq<Item>, notify: Option<string -> bool>, id: Id)
    requires DistinctItems(items) && id in h.beads
    ensures var g := WithReverts(cfg, h, items, notify); var item := FindItem(items, id);
            g.beads.Keys == h.beads.Keys && g.order == h.order && g.threads == h.threads &&
            g.beads[id] == if item.Some? && WakeupFails(notify, item.value.agent) then RevertedBead(cfg, h.beads[id]) else h.beads[id]
  {
    hide RevertedBead, WakeupFails;
    if items != [] {
      RevertsMeaning(cfg, h, items[..|items| - 1], notify, id);
    }
  }

  lemma ItemsFacts(cfg: Config, h: Hub, now: int, ready: seq<Id>, notify: Option<string -> bool>)
    requires HubOk(h)
    ensures var items := Items(cfg, h, now, ready, notify);
            DistinctItems(items) && (forall k :: 0 <= k < |items| ==> HasRoom(cfg, h, items[..k], items[k].agent))
    ensures forall item :: item in Items(cfg, h, now, ready, notify) ==> ItemOk(cfg, now, h, item)
  {
    hide ThreePasses, IsCandidate, IsPendingWork, StageOfCandidate, HasRoom, ItemOk;
    var st := ThreePasses(cfg, now, h);
    if cfg.autoNotify && notify.None? { return; }
    var pending := PendingWork(cfg, h, h.order);
    var work := WithCandidates(cfg, st.hub, pending, ready);
    PendingWorkFacts(cfg, h, st.hub, h.order);
    CandidateFacts(cfg, h, st.hub, pending, ready);
    SortWorkFacts(work);
    var sorted := SortWork(work);
    ChosenFacts(cfg, h, st.acted, sorted);
    var items := Chosen(cfg, h, st.acted, sorted);
    forall item | item in items ensures ItemOk(cfg, now, h, item) {
      var k :| 0 <= k < |items| && items[k] == item;
      assert FromWork(cfg, st.acted, sorted, item);
      var i :| 0 <= i < |sorted| && sorted[i].id == item.id && sorted[i].stage == item.stage && IsPending(sorted[i].bead) == item.wasPending;
      assert sorted[i] in work;
      var j :| 0 <= j < |work| && work[j] == sorted[i];
      ItemFromWork(cfg, now, h, work[j], item);
    }
  }

  /** A dispatch is due to a bead that made no move this tick: pending for its stage, or an eligible candidate. */
  predicate ItemOk(cfg: Config, now: int, h: Hub, item: Item) {
    item.id in h.beads &&
    var b := h.beads[item.id];
    TickMove(cfg, now, b, ThreadOf(h, item.id)).Stay? && AgentFor(cfg, Some(item.stage)) == Some(item.agent) &&
    item.wasPending == IsPending(b) &&
    ((IsPendingWork(cfg, b) && b.stage == Some(item.stage)) ||
     (IsCandidate(cfg, b, ThreadOf(h, item.id)) && StageOfCandidate(b) == Some(item.stage)))
  }

  lemma ItemFromWork(cfg: Config, now: int, h: Hub, w: Work, item: Item)
    requires HubOk(h) && WorkOk(cfg, h, ThreePasses(cfg, now, h).hub, w) && item.id !in ThreePasses(cfg, now, h).acted
    requires w.id == item.id && w.stage == item.stage && IsPending(w.bead) == item.wasPending && AgentFor(cfg, Some(item.stage)) == Some(item.agent)
    ensures ItemOk(cfg, now, h, item)
  {
    hide ThreePasses, IsCandidate, IsPendingWork, StageOfCandidate, TickMove, Moved;
    ThreePassesMeaning(cfg, now, h, w.id);
    NoRemarks(cfg, now);
    assert ThreadOf(h, w.id) + [] == ThreadOf(h, w.id);
  }

  /**
   * A tick, bead by bead: one move, or one dispatch that stands unless its wake-up failed, or nothing.
   */
  lemma TickMeaning(cfg: Config, h: Hub, now: int, ready: seq<Id>, notify: Option<string -> bool>, id: Id)
    requires HubOk(h) && id in h.beads
    ensures var g := Tick(cfg, h, now, ready, notify); var b := h.beads[id]; var m := TickMove(cfg, now, b, ThreadOf(h, id));
            var item := FindItem(Items(cfg, h, now, ready, notify), id);
            g.beads.Keys == h.beads.Keys && g.order == h.order && ThreadOf(g, id) == ThreadOf(h, id) + Remarks(cfg, now, m) &&
            (item.Some? ==> m.Stay? && ItemOk(cfg, now, h, item.value)) &&
            g.beads[id] ==
              if item.None? then (if m.Stay? then b else Moved(cfg, now, b, m))
              else
                var d := DispatchedBead(now, b, item.value.stage, item.value.agent, item.value.wasPending);
                if WakeupFails(notify, item.value.agent) then RevertedBead(cfg, d) else d
  {
    hide TickMove, Moved, Remarks, DispatchedBead, RevertedBead, ItemOk, Items, ThreePasses, WakeupFails;
    var items := Items(cfg, h, now, ready, notify);
    var st := ThreePasses(cfg, now, h);
    ItemsFacts(cfg, h, now, ready, notify);
    ThreePassesMeaning(cfg, now, h, id);
    DispatchesMeaning(now, st.hub, items, id);
    RevertsMeaning(cfg, WithDispatches(now, st.hub, items), items, notify, id);
    if FindItem(items, id).Some? { ItemStays(cfg, now, h, FindItem(items, id).value); }
  }

  lemma ItemStays(cfg: Config, now: int, h: Hub, item: Item)
    requires ItemOk(cfg, now, h, item)
    ensures TickMove(cfg, now, h.beads[item.id], ThreadOf(h, item.id)).Stay?
  {
  }
}
