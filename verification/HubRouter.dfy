/** The router process: passes that loop over the snapshot's rows and write the board in place. */
module HubRouter {
  import opened A2aDoc
  import opened HubBoard
  import opened HubSweep

  class Board {
    var order: seq<Id>
    var beads: map<Id, Bead>
    var threads: map<Id, seq<Comment>>

    ghost function State(): Hub
      reads this
    {
      Hub(order, beads, threads)
    }

    /** list --json: the rows as they are now. */
    method ListIssues() returns (rows: Hub)
      ensures rows == State()
    {
      rows := Hub(order, beads, threads);
    }

    method Comments(id: Id) returns (thread: seq<Comment>)
      ensures thread == ThreadOf(State(), id)
    {
      thread := if id in threads then threads[id] else [];
    }

    method Update(id: Id, b: Bead)
      modifies this`beads
      ensures beads == old(beads)[id := b]
    {
      beads := beads[id := b];
    }

    method Post(id: Id, c: Comment)
      modifies this`threads
      ensures threads == old(threads)[id := ThreadOf(old(State()), id) + [c]]
    {
      threads := threads[id := (if id in threads then threads[id] else []) + [c]];
    }
  }

  class Sweep {
    const board: Board
    const cfg: Config
    const notify: Option<string -> bool>
    var now: int
    var acted: set<Id>
    /** Agents and beads to mention again. */
    var reping: seq<Id>

    constructor (board: Board, cfg: Config, notify: Option<string -> bool>)
      ensures this.board == board && this.cfg == cfg && this.notify == notify
    {
      this.board, this.cfg, this.notify := board, cfg, notify;
      now, acted, reping := 0, {}, [];
    }

    ghost function State(): Sweeping
      reads this, board
    {
      Sweeping(board.State(), acted)
    }

    /** The rows every pass goes through. */
    ghost predicate Rows(snap: Hub)
      reads board
    {
      HubOk(snap) && board.beads.Keys == snap.beads.Keys
    }

    method CommentsSince(id: Id, since: int) returns (cs: seq<Comment>)
      ensures cs == Since(ThreadOf(board.State(), id), since)
    {
      var thread := board.Comments(id);
      cs := [];
      var i := 0;
      while i < |thread|
        invariant 0 <= i <= |thread| && cs == Since(thread[..i], since)
      {
        assert thread[..i + 1][..i] == thread[..i];
        if thread[i].at.Some? && thread[i].at.value > since { cs := InsertByTime(cs, thread[i]); }
        i := i + 1;
      }
      assert thread[..i] == thread;
    }

    /** The last handoff of the loop over an agent's comments. */
    method LatestHandoff(cs: seq<Comment>, assignee: string) returns (latest: Option<Comment>)
      ensures latest == LastHandoff(cs, assignee)
    {
      hide BaseName, HandoffVerb;
      latest := None;
      var i := 0;
      while i < |cs|
        invariant 0 <= i <= |cs| && latest == LastHandoff(cs[..i], assignee)
      {
        assert cs[..i + 1][..i] == cs[..i];
        if BaseName(cs[i].author) == assignee && HandoffVerb(cs[i].text).Some? { latest := Some(cs[i]); }
        i := i + 1;
      }
      assert cs[..i] == cs;
    }

    method LastActive(cs: seq<Comment>, assignee: string, start: int) returns (last: int)
      requires AllTimed(cs)
      ensures last == LastActivity(cs, assignee, start)
    {
      hide BaseName;
      last := start;
      var i := 0;
      while i < |cs|
        invariant 0 <= i <= |cs| && last == LastActivity(cs[..i], assignee, start)
      {
        assert cs[..i + 1][..i] == cs[..i];
        if BaseName(cs[i].author) == assignee { last := cs[i].at.value; }
        i := i + 1;
      }
      assert cs[..i] == cs;
    }

    // ------------------------------------------------------------------ board writes

    /** _park_owner. */
    method ParkOwner(id: Id, stage: Stage)
      requires id in board.beads
      modifies this`acted, board`beads, board`threads
      ensures State() == Sweeping(WithMove(cfg, now, old(board.State()), id, Park(stage)), old(acted) + {id})
    {
      var b := board.beads[id];
      board.Update(id, b.(assignee := cfg.owner, status := Blocked, blockedFrom := Some(stage), blockedAt := Some(Stamp(now)),
                          dispatchedAt := None, pending := None));
      board.Post(id, Comment(cfg.actor, "owner-blocked: parked with the owner", Some(now)));
      acted := acted + {id};
    }

    /** _resume_for_guidance: without an agent for the stage the bead stays with the owner. */
    method ResumeForGuidance(id: Id, stage: Stage)
      requires id in board.beads
      modifies this`acted, board`beads, board`threads
      ensures State() == if AgentFor(cfg, Some(stage)).None? then old(State())
                         else Sweeping(WithMove(cfg, now, old(board.State()), id, Resume(AgentFor(cfg, Some(stage)).value)), old(acted) + {id})
    {
      if stage !in cfg.roster { return; }
      var b := board.beads[id];
      board.Update(id, b.(assignee := cfg.roster[stage], status := Open, pending := Some(1), blockedFrom := None, blockedAt := None));
      acted := acted + {id};
    }

    /** _apply_handoff. */
    method ApplyHandoff(id: Id, stage: Stage, verb: string)
      requires id in board.beads
      modifies this`acted, board`beads, board`threads
      ensures State() == Sweeping(WithMove(cfg, now, old(board.State()), id, HandoffMove(cfg, stage, verb)), old(acted) + {id})
    {
      if !Allowed(stage, verb) {
        ParkOwner(id, stage);
        return;
      }
      acted := acted + {id};
      var target := Target(verb);
      var b := board.beads[id];
      if target == Some(Merge) {
        board.Update(id, b.(assignee := cfg.owner, status := Open, stage := Some(Merge), dispatchedAt := None, pending := None,
                            blockedFrom := None, blockedAt := None));
        board.Post(id, Comment(cfg.actor, "review accepted: handed to the owner for merge", Some(now)));
      } else if target.None? || target.value !in cfg.roster {
        ParkOwner(id, stage);
      } else {
        board.Update(id, b.(assignee := cfg.roster[target.value], status := Open, stage := target, pending := Some(1),
                            dispatchedAt := None, blockedFrom := None, blockedAt := None));
      }
    }

    // ------------------------------------------------------------------------ passes

    method PassHandoffs(snap: Hub)
      requires Rows(snap)
      modifies this`acted, board`beads, board`threads
      ensures Rows(snap) && State() == Passed(Handoffs, cfg, now, snap, old(State()), snap.order)
    {
      hide HandoffMove, Since, LastHandoff;
      ghost var st := State();
      var i := 0;
      while i < |snap.order|
        invariant 0 <= i <= |snap.order| && Rows(snap) && board.order == st.hub.order
        invariant State() == Passed(Handoffs, cfg, now, snap, st, snap.order[..i])
      {
        PassStep(Handoffs, cfg, now, snap, st, i);
        var id := snap.order[i];
        HandoffRow(snap, id);
        i := i + 1;
      }
      assert snap.order[..i] == snap.order;
    }

    method HandoffRow(snap: Hub, id: Id)
      requires id in snap.beads && id in board.beads
      modifies this`acted, board`beads, board`threads
      ensures State() == PassOne(Handoffs, cfg, now, snap, old(State()), id)
    {
      hide HandoffMove, Since, LastHandoff, BaseName, HandoffVerb, WithMove;
      var row := snap.beads[id];
      if !row.status.InProgress? || row.stage.None? || row.stage.value.Merge? || row.dispatchedAt.None? { return; }
      var assignee := BaseName(row.assignee);
      if assignee == "" || assignee == BaseName(cfg.owner) { return; }
      var cs := CommentsSince(id, row.dispatchedAt.value);
      var latest := LatestHandoff(cs, assignee);
      if latest.None? { return; }
      HandoffFacts(cfg, row, ThreadOf(board.State(), id));
      assert HandoffVerb(latest.value.text).Some?;
      NeverStay(cfg, row.stage.value, HandoffVerb(latest.value.text).value);
      ApplyHandoff(id, row.stage.value, HandoffVerb(latest.value.text).value);
    }

    method PassGuidance(snap: Hub)
      requires Rows(snap)
      modifies this`acted, board`beads, board`threads
      ensures Rows(snap) && State() == Passed(Guidance, cfg, now, snap, old(State()), snap.order)
    {
      ghost var st := State();
      var i := 0;
      while i < |snap.order|
        invariant 0 <= i <= |snap.order| && Rows(snap) && board.order == st.hub.order
        invariant State() == Passed(Guidance, cfg, now, snap, st, snap.order[..i])
      {
        PassStep(Guidance, cfg, now, snap, st, i);
        GuidanceRow(snap, snap.order[i]);
        i := i + 1;
      }
      assert snap.order[..i] == snap.order;
    }

    /** The loop over the comments ends at the first one of an owner account. */
    method GuidanceRow(snap: Hub, id: Id)
      requires id in snap.beads && id in board.beads
      modifies this`acted, board`beads, board`threads
      ensures State() == PassOne(Guidance, cfg, now, snap, old(State()), id)
    {
      hide Since, BaseName, IsGuidance;
      var row := snap.beads[id];
      if !row.status.Blocked? || row.blockedFrom.None? || row.blockedFrom.value.Merge? || row.blockedAt.None? { return; }
      var cs := CommentsSince(id, row.blockedAt.value);
      var i := 0;
      while i < |cs| && BaseName(cs[i].author) !in cfg.ownerAuthors
        invariant 0 <= i <= |cs| && FirstBy(cs, cfg.ownerAuthors) == FirstBy(cs[i..], cfg.ownerAuthors)
      {
        i := i + 1;
      }
      if i < |cs| && IsGuidance(cs[i].text) { ResumeForGuidance(id, row.blockedFrom.value); }
    }

    method PassGraceAndReping(snap: Hub)
      requires Rows(snap)
      modifies this`acted, this`reping, board`beads, board`threads
      ensures Rows(snap) && State() == Passed(Grace, cfg, now, snap, old(State()), snap.order)
      ensures reping == old(reping) + (if notify.Some? then Repings(cfg, now, snap, old(State()), snap.order) else [])
    {
      hide NeedsReping, PassOne, Passed, Repings, ThreadOf;
      ghost var st := State();
      NothingPassed(cfg, now, snap, st);
      var i := 0;
      while i < |snap.order|
        invariant 0 <= i <= |snap.order| && Rows(snap) && board.order == st.hub.order
        invariant State() == Passed(Grace, cfg, now, snap, st, snap.order[..i])
        invariant reping == old(reping) + (if notify.Some? then Repings(cfg, now, snap, st, snap.order[..i]) else [])
      {
        PassStep(Grace, cfg, now, snap, st, i);
        RepingStep(cfg, now, snap, st, i);
        GraceRow(snap, snap.order[i]);
        i := i + 1;
      }
      assert snap.order[..i] == snap.order;
    }

    method GraceRow(snap: Hub, id: Id)
      requires id in snap.beads && id in board.beads
      modifies this`acted, this`reping, board`beads, board`threads
      ensures State() == PassOne(Grace, cfg, now, snap, old(State()), id)
      ensures reping == old(reping) +
                (if id !in old(acted) && notify.Some? && NeedsReping(cfg, now, snap.beads[id], ThreadOf(old(board.State()), id)) then [id] else [])
    {
      hide Since, BaseName, LastActivity;
      var row := snap.beads[id];
      if !row.status.InProgress? || row.stage.None? || row.stage.value.Merge? || row.dispatchedAt.None? || id in acted { return; }
      var assignee := BaseName(row.assignee);
      var last := row.dispatchedAt.value;
      if assignee != "" {
        var cs := CommentsSince(id, row.dispatchedAt.value);
        last := LastActive(cs, assignee, last);
      }
      if now - row.dispatchedAt.value > cfg.silent || now - last > cfg.grace {
        ParkOwner(id, row.stage.value);
        return;
      }
      if notify.Some? && now - last > cfg.reping { reping := reping + [id]; }
    }

    // ---------------------------------------------------------------------- dispatch

    method Candidates(work: seq<Work>, ready: seq<Id>) returns (all: seq<Work>)
      ensures all == WithCandidates(cfg, board.State(), work, ready)
    {
      hide IsCandidate, StageOfCandidate;
      all := work;
      var i := 0;
      while i < |ready|
        invariant 0 <= i <= |ready| && all == WithCandidates(cfg, board.State(), work, ready[..i])
      {
        assert ready[..i + 1][..i] == ready[..i];
        var id := ready[i];
        if id in board.beads {
          var b := board.beads[id];
          var thread := board.Comments(id);
          if IsCandidate(cfg, b, thread) && !Listed(all, id) {
            CandidateHasStage(cfg, b, thread);
            all := all + [Work(id, b, StageOfCandidate(b).value)];
          }
        }
        i := i + 1;
      }
      assert ready[..i] == ready;
    }

    /** Owner-pending rows of the snapshot, then the candidates, by priority and id. */
    method Prioritized(snap: Hub, ready: seq<Id>) returns (work: seq<Work>)
      requires Rows(snap)
      ensures work == SortWork(WithCandidates(cfg, board.State(), PendingWork(cfg, snap, snap.order), ready))
    {
      work := [];
      var i := 0;
      while i < |snap.order|
        invariant 0 <= i <= |snap.order| && work == PendingWork(cfg, snap, snap.order[..i])
      {
        assert snap.order[..i + 1][..i] == snap.order[..i] && snap.order[i] in snap.order;
        var b := snap.beads[snap.order[i]];
        if b.status.Open? && IsPending(b) && b.stage.Some? && b.stage.value != Merge && b.stage.value in cfg.roster {
          work := work + [Work(snap.order[i], b, b.stage.value)];
        }
        i := i + 1;
      }
      assert snap.order[..i] == snap.order;
      var all := Candidates(work, ready);
      work := SortWork(all);
    }

    /** The stamping loop; the dictionary of stamped work is kept as one list. */
    method StampAll(snap: Hub, work: seq<Work>) returns (items: seq<Item>)
      requires Rows(snap) && DistinctWork(work) && forall i :: 0 <= i < |work| ==> work[i].id in board.beads
      modifies this`acted, board`beads
      ensures Rows(snap) && items == Chosen(cfg, snap, old(acted), work)
      ensures board.State() == WithDispatches(now, old(board.State()), items)
    {
      hide RunningFor, DispatchedBead, Chosen, WithDispatches, BaseName, IsPending;
      NothingStamped(cfg, snap, acted, now, board.State());
      ghost var was := acted;
      ghost var h := board.State();
      items := [];
      var i := 0;
      while i < |work|
        invariant 0 <= i <= |work| && board.beads.Keys == h.beads.Keys && items == Chosen(cfg, snap, was, work[..i])
        invariant board.State() == WithDispatches(now, h, items)
        invariant forall k :: i <= k < |work| ==> (work[k].id in acted <==> work[k].id in was)
      {
        ChosenStep(cfg, snap, was, work, i);
        var w := work[i];
        if w.id !in acted && w.stage in cfg.roster {
          var agent := cfg.roster[w.stage];
          var stamped := CountStamped(items, agent);
          if |RunningFor(snap, BaseName(agent))| + stamped < cfg.wip {
            var item := Item(w.id, w.stage, agent, IsPending(w.bead));
            board.Update(w.id, DispatchedBead(now, board.beads[w.id], w.stage, agent, IsPending(w.bead)));
            DispatchStep(now, h, items, item);
            items := items + [item];
            acted := acted + {w.id};
          }
        }
        i := i + 1;
      }
      assert work[..i] == work;
    }

    method CountStamped(items: seq<Item>, agent: string) returns (n: nat)
      ensures n == StampedFor(items, agent)
    {
      n := 0;
      var i := 0;
      while i < |items|
        invariant 0 <= i <= |items| && n == StampedFor(items[..i], agent)
      {
        assert items[..i + 1][..i] == items[..i];
        if items[i].agent == agent { n := n + 1; }
        i := i + 1;
      }
      assert items[..i] == items;
    }

    /** The agents one wake-up each goes to: of re-pinged work by base name, of dispatches by roster name. */
    method WakeupAgents(snap: Hub, items: seq<Item>) returns (agents: seq<string>)
      requires forall id :: id in reping ==> id in snap.beads
      ensures forall k :: 0 <= k < |items| && items[k].agent != "" ==> items[k].agent in agents
      ensures forall i, j :: 0 <= i < j < |agents| ==> agents[i] != agents[j]
    {
      hide BaseName;
      agents := [];
      var i := 0;
      while i < |reping|
        invariant 0 <= i <= |reping| && forall k, j :: 0 <= k < j < |agents| ==> agents[k] != agents[j]
      {
        assert reping[i] in reping;
        var a := BaseName(snap.beads[reping[i]].assignee);
        if a != "" && a !in agents { agents := agents + [a]; }
        i := i + 1;
      }
      i := 0;
      while i < |items|
        invariant 0 <= i <= |items| && forall k, j :: 0 <= k < j < |agents| ==> agents[k] != agents[j]
        invariant forall k :: 0 <= k < i && items[k].agent != "" ==> items[k].agent in agents
      {
        if items[i].agent != "" && items[i].agent !in agents { agents := agents + [items[i].agent]; }
        i := i + 1;
      }
    }

    /** What the wake-ups sent so far have left of one bead. */
    ghost predicate RevertedFor(h: Hub, items: seq<Item>, sent: seq<string>, id: Id)
      requires id in h.beads
      reads this, board
    {
      id in board.beads && var item := FindItem(items, id);
      board.beads[id] == if item.Some? && item.value.agent in sent && WakeupFails(notify, item.value.agent) then RevertedBead(cfg, h.beads[id]) else h.beads[id]
    }

    /** _send_wakeups: one call per agent; a failed call puts its dispatches back to pending. */
    method SendWakeups(snap: Hub, items: seq<Item>)
      requires DistinctItems(items) && (forall k :: 0 <= k < |items| ==> items[k].id in board.beads)
      requires forall id :: id in reping ==> id in snap.beads
      modifies board`beads
      ensures board.State() == WithReverts(cfg, old(board.State()), items, notify)
    {
      hide RevertedBead, WithReverts;
      ghost var h := board.State();
      var agents := WakeupAgents(snap, items);
      var i := 0;
      while i < |agents|
        invariant 0 <= i <= |agents| && board.beads.Keys == h.beads.Keys
        invariant forall id :: id in h.beads ==> RevertedFor(h, items, agents[..i], id)
      {
        assert agents[..i + 1] == agents[..i] + [agents[i]];
        if notify.Some? && agents[i] != "" && !notify.value(agents[i]) { RevertAgent(items, agents[i], h, agents[..i]); }
        else { forall id | id in h.beads ensures RevertedFor(h, items, agents[..i + 1], id) { assert RevertedFor(h, items, agents[..i], id); } }
        i := i + 1;
      }
      assert agents[..i] == agents;
      RevertsShape(cfg, h, items, notify);
      forall id | id in h.beads ensures board.beads[id] == WithReverts(cfg, h, items, notify).beads[id] {
        assert RevertedFor(h, items, agents, id);
        RevertsMeaning(cfg, h, items, notify, id);
      }
      assert board.beads == WithReverts(cfg, h, items, notify).beads;
    }

    /** The failing agent's dispatches, one update each. */
    method RevertAgent(items: seq<Item>, agent: string, ghost h: Hub, ghost sent: seq<string>)
      requires DistinctItems(items) && agent !in sent && WakeupFails(notify, agent) && board.beads.Keys == h.beads.Keys
      requires forall k :: 0 <= k < |items| ==> items[k].id in board.beads
      requires forall id :: id in h.beads ==> RevertedFor(h, items, sent, id)
      modifies board`beads
      ensures board.beads.Keys == h.beads.Keys && forall id :: id in h.beads ==> RevertedFor(h, items, sent + [agent], id)
    {
      hide RevertedBead, FindItem, WakeupFails;
      ghost var start := board.beads;
      var i := 0;
      NothingFound(agent);
      while i < |items|
        invariant 0 <= i <= |items| && board.beads.Keys == h.beads.Keys
        invariant forall id :: id in h.beads ==>
                    board.beads[id] == if IsFor(FindItem(items[..i], id), agent) then RevertedBead(cfg, start[id]) else start[id]
      {
        forall id ensures FindItem(items[..i + 1], id) == if items[i].id == id then Some(items[i]) else FindItem(items[..i], id) {
          FindStep(items, i, id);
        }
        FirstMeeting(items, i);
        if items[i].agent == agent { board.Update(items[i].id, RevertedBead(cfg, board.beads[items[i].id])); }
        i := i + 1;
      }
      assert items[..i] == items;
      forall id | id in h.beads ensures RevertedFor(h, items, sent + [agent], id) { assert old(RevertedFor(h, items, sent, id)); }
    }

    lemma NothingFound(agent: string)
      ensures forall id :: FindItem([], id) == None
    {
    }

    predicate IsFor(item: Option<Item>, agent: string) { item.Some? && item.value.agent == agent }

    /** _pass_dispatch. */
    method PassDispatch(snap: Hub, ready: seq<Id>)
      requires Rows(snap) && forall id :: id in reping ==> id in snap.beads
      modifies this`acted, board`beads
      ensures var was := old(board.State());
              var items := if cfg.autoNotify && notify.None? then []
                           else Chosen(cfg, snap, old(acted), SortWork(WithCandidates(cfg, was, PendingWork(cfg, snap, snap.order), ready)));
              board.State() == WithReverts(cfg, WithDispatches(now, was, items), items, notify)
    {
      hide SortWork, WithCandidates, PendingWork, Chosen, WorkOk;
      if cfg.autoNotify && notify.None? { return; }
      ghost var hub := board.State();
      ghost var all := WithCandidates(cfg, hub, PendingWork(cfg, snap, snap.order), ready);
      PendingWorkFacts(cfg, snap, hub, snap.order);
      CandidateFacts(cfg, snap, hub, PendingWork(cfg, snap, snap.order), ready);
      SortWorkFacts(all);
      var work := Prioritized(snap, ready);
      forall i | 0 <= i < |work| ensures work[i].id in board.beads {
        assert work[i] in all;
        WorkIsBead(cfg, snap, hub, all, work[i]);
      }
      ChosenFacts(cfg, snap, acted, work);
      ghost var before := acted;
      var items := StampAll(snap, work);
      forall k | 0 <= k < |items| ensures items[k].id in board.beads { assert FromWork(cfg, before, work, items[k]); }
      SendWakeups(snap, items);
    }

    /** tick. */
    method RunTick(at: int, ready: seq<Id>)
      requires HubOk(board.State())
      modifies this, board`beads, board`threads
      ensures board.State() == Tick(cfg, old(board.State()), at, ready, notify)
    {
      hide Passed, Chosen, WithDispatches, WithReverts, SortWork, WithCandidates, PendingWork, Repings;
      now, acted, reping := at, {}, [];
      var rows := board.ListIssues();
      PassHandoffs(rows);
      PassGuidance(rows);
      ghost var st := State();
      PassGraceAndReping(rows);
      RepingsAreRows(cfg, now, rows, st, rows.order);
      PassDispatch(rows, ready);
    }
  }

  lemma ChosenStep(cfg: Config, snap: Hub, acted: set<Id>, work: seq<Work>, i: nat)
    requires i < |work|
    ensures var items := Chosen(cfg, snap, acted, work[..i]); var w := work[i]; var agent := AgentFor(cfg, Some(w.stage));
            Chosen(cfg, snap, acted, work[..i + 1]) ==
              if w.id !in acted && agent.Some? && |RunningFor(snap, BaseName(agent.value))| + StampedFor(items, agent.value) < cfg.wip
              then items + [Item(w.id, w.stage, agent.value, IsPending(w.bead))] else items
  {
    assert work[..i + 1][..i] == work[..i];
  }

  lemma DispatchStep(now: int, h: Hub, items: seq<Item>, item: Item)
    ensures WithDispatches(now, h, items + [item]) == WithDispatch(now, WithDispatches(now, h, items), item)
  {
    assert (items + [item])[..|items|] == items;
  }

  lemma NothingStamped(cfg: Config, snap: Hub, acted: set<Id>, now: int, h: Hub)
    ensures Chosen(cfg, snap, acted, []) == [] && WithDispatches(now, h, []) == h
  {
  }

  lemma FindStep(items: seq<Item>, i: nat, id: Id)
    requires i < |items|
    ensures FindItem(items[..i + 1], id) == if items[i].id == id then Some(items[i]) else FindItem(items[..i], id)
  {
    assert items[..i + 1][..i] == items[..i];
  }

  lemma FirstMeeting(items: seq<Item>, i: nat)
    requires DistinctItems(items) && i < |items|
    ensures FindItem(items[..i], items[i].id).None?
  {
  }

  lemma NothingPassed(cfg: Config, now: int, snap: Hub, st: Sweeping)
    ensures Passed(Grace, cfg, now, snap, st, []) == st && Repings(cfg, now, snap, st, []) == []
  {
  }

  lemma RepingStep(cfg: Config, now: int, snap: Hub, st: Sweeping, i: nat)
    requires HubOk(snap) && st.hub.beads.Keys == snap.beads.Keys && i < |snap.order|
    ensures forall id :: id in snap.order[..i + 1] ==> id in snap.beads
    ensures forall id :: id in snap.order[..i] ==> id in snap.beads
    ensures var id := snap.order[i]; var r := Passed(Grace, cfg, now, snap, st, snap.order[..i]);
            id in snap.beads && ThreadOf(r.hub, id) == ThreadOf(st.hub, id) && (id in r.acted <==> id in st.acted) &&
            Repings(cfg, now, snap, st, snap.order[..i + 1]) == Repings(cfg, now, snap, st, snap.order[..i]) +
              (if id !in st.acted && NeedsReping(cfg, now, snap.beads[id], ThreadOf(st.hub, id)) then [id] else [])
  {
    hide NeedsReping, CellStep, ThreadOf, Passed;
    assert snap.order[i] in snap.order;
    PassMeaning(Grace, cfg, now, snap, st, snap.order[..i], snap.order[i]);
    assert snap.order[..i + 1][..i] == snap.order[..i];
  }

  lemma RevertsShape(cfg: Config, h: Hub, items: seq<Item>, notify: Option<string -> bool>)
    ensures var g := WithReverts(cfg, h, items, notify); g.beads.Keys == h.beads.Keys && g.order == h.order && g.threads == h.threads
  {
    if items != [] { RevertsShape(cfg, h, items[..|items| - 1], notify); }
  }

  lemma WorkIsBead(cfg: Config, snap: Hub, hub: Hub, all: seq<Work>, w: Work)
    requires AllWorkOk(cfg, snap, hub, all) && w in all && snap.beads.Keys == hub.beads.Keys
    ensures w.id in hub.beads
  {
    hide IsCandidate, IsPendingWork, StageOfCandidate;
    var i :| 0 <= i < |all| && all[i] == w;
    assert WorkOk(cfg, snap, hub, all[i]);
  }

  lemma {:induction false} RepingsAreRows(cfg: Config, now: int, snap: Hub, st: Sweeping, rows: seq<Id>)
    requires forall id :: id in rows ==> id in snap.beads
    ensures forall id :: id in Repings(cfg, now, snap, st, rows) ==> id in snap.beads
  {
    hide NeedsReping;
    if rows != [] {
      assert rows == rows[..|rows| - 1] + [rows[|rows| - 1]];
      RepingsAreRows(cfg, now, snap, st, rows[..|rows| - 1]);
    }
  }

  /** One more row of a pass. */
  lemma PassStep(pass: Pass, cfg: Config, now: int, snap: Hub, st: Sweeping, i: nat)
    requires HubOk(snap) && st.hub.beads.Keys == snap.beads.Keys && i < |snap.order|
    ensures (forall id :: id in snap.order ==> id in snap.beads) && snap.order[i] in snap.beads
    ensures forall id :: id in snap.order[..i] ==> id in snap.order
    ensures forall id :: id in snap.order[..i + 1] ==> id in snap.order
    ensures Passed(pass, cfg, now, snap, st, snap.order[..i + 1]) ==
            PassOne(pass, cfg, now, snap, Passed(pass, cfg, now, snap, st, snap.order[..i]), snap.order[i])
  {
    hide PassOne;
    assert snap.order[..i + 1][..i] == snap.order[..i];
    assert snap.order[i] in snap.order;
  }

  lemma NeverStay(cfg: Config, stage: Stage, verb: string)
    ensures !HandoffMove(cfg, stage, verb).Stay?
  {
  }
}
