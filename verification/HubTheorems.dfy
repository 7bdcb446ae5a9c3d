/** What the router keeps over whole runs besides the lifecycle: handoffs count once, the cap holds, guidance can be lost. */
module HubTheorems {
  import opened A2aDoc
  import opened HubBoard
  import opened HubSweep
  import opened HubRuns

  // ------------------------------------------------------------- handoffs count once

  /** Ticks at least a second apart, and no handoff that moves a bead dated later than the tick that counts it. */
  predicate Timely(cfg: Config, t: Trace, x: Step) {
    x.ATick? ==>
      (t.lastTick.Some? ==> x.now >= t.lastTick.value + SECOND) &&
      forall id :: id in t.hub.beads && HandoffUsed(cfg, t.hub, id).Some? && HandoffUsed(cfg, t.hub, id).value.at.Some? ==>
        HandoffUsed(cfg, t.hub, id).value.at.value <= x.now
  }

  ghost predicate TimelyRun(cfg: Config, t: Trace, xs: seq<Step>)
    requires HubOk(t.hub) && IsRun(cfg, t, xs)
    decreases |xs|
  {
    xs == [] || (Timely(cfg, t, xs[0]) && (StepShape(cfg, t, xs[0]); TimelyRun(cfg, Do(cfg, t, xs[0]), xs[1..])))
  }

  /** Handoff comments in strictly rising time: none of them twice. */
  predicate Rising(u: seq<Comment>) {
    AllTimed(u) && forall i, j :: 0 <= i < j < |u| ==> u[i].at.value < u[j].at.value
  }

  ghost predicate UsedOk(t: Trace, id: Id)
    requires id in t.hub.beads
  {
    var u := UsedBy(t, id);
    Rising(u) &&
    (u != [] ==> id in t.movedAt && t.lastTick.Some? && u[|u| - 1].at.value <= t.movedAt[id] <= t.lastTick.value &&
                 (Dispatched(t.hub.beads[id]) ==> t.hub.beads[id].dispatchedAt.value > t.movedAt[id]))
  }

  ghost predicate AllUsedOk(t: Trace) {
    forall id :: (id in t.hub.beads ==> UsedOk(t, id)) && (id !in t.hub.beads ==> UsedBy(t, id) == [])
  }

  lemma StampIsRecent(now: int)
    ensures now - SECOND < Stamp(now) <= now && now - Stamp(now) == now % SECOND
  {
  }

  /** What a tick does to the dispatch stamp of one bead. */
  lemma TickStamps(cfg: Config, t: Trace, x: Step, id: Id)
    requires Inv(t) && x.ATick? && id in t.hub.beads
    ensures id in Do(cfg, t, x).hub.beads
    ensures var b := t.hub.beads[id]; var d := Do(cfg, t, x).hub.beads[id];
            Dispatched(d) ==> HandoffUsed(cfg, t.hub, id).None? &&
                              (d.dispatchedAt == Some(Stamp(x.now)) || (Dispatched(b) && d.dispatchedAt == b.dispatchedAt))
  {
    hide TickMove, Moved, Remarks, DispatchedBead, RevertedBead, ItemOk, Items, Tick, Handoff, BeadOk, HandoffPass, UsedBy, WakeupFails;
    var b := t.hub.beads[id];
    var m := TickMove(cfg, x.now, b, ThreadOf(t.hub, id));
    assert BeadInv(t, id);
    TickMeaning(cfg, t.hub, x.now, x.ready, x.notify, id);
    var item := FindItem(Items(cfg, t.hub, x.now, x.ready, x.notify), id);
    if HandoffUsed(cfg, t.hub, id).Some? { HandoffMoves(cfg, x.now, b, ThreadOf(t.hub, id)); }
    if item.Some? {
      DispatchFields(cfg, x.now, b, item.value);
    } else if !m.Stay? {
      MoveKeepsBead(cfg, x.now, b, ThreadOf(t.hub, id));
    }
  }

  /** The comment a tick counts is later than the dispatch it answers, and not from the future. */
  lemma UsedFacts(cfg: Config, t: Trace, x: Step, id: Id)
    requires x.ATick? && Timely(cfg, t, x) && id in t.hub.beads && HandoffUsed(cfg, t.hub, id).Some?
    ensures var c := HandoffUsed(cfg, t.hub, id).value;
            Dispatched(t.hub.beads[id]) && c.at.Some? && t.hub.beads[id].dispatchedAt.value < c.at.value <= x.now
  {
    hide Handoff, BaseName, HandoffVerb;
    HandoffFacts(cfg, t.hub.beads[id], ThreadOf(t.hub, id));
  }

  lemma TickHistory(cfg: Config, t: Trace, x: Step, id: Id)
    requires HubOk(t.hub) && x.ATick? && id in t.hub.beads
    ensures var g := Do(cfg, t, x); var c := HandoffUsed(cfg, t.hub, id);
            g.lastTick == Some(x.now) && UsedBy(g, id) == (if c.Some? then UsedBy(t, id) + [c.value] else UsedBy(t, id)) &&
            (if c.Some? then id in g.movedAt && g.movedAt[id] == x.now
             else (id in g.movedAt <==> id in t.movedAt) && (id in t.movedAt ==> g.movedAt[id] == t.movedAt[id]))
  {
    hide Tick, Items, HandoffUsed;
    assert UsedBy(t, id) + [] == UsedBy(t, id);
  }

  lemma RisingMore(u: seq<Comment>, c: Comment)
    requires Rising(u) && c.at.Some? && (u != [] ==> u[|u| - 1].at.value < c.at.value)
    ensures Rising(u + [c])
  {
  }

  lemma TickKeepsUsed(cfg: Config, t: Trace, x: Step, id: Id)
    requires id in t.hub.beads && Inv(t) && UsedOk(t, id) && x.ATick? && Timely(cfg, t, x)
    ensures id in Do(cfg, t, x).hub.beads && UsedOk(Do(cfg, t, x), id)
  {
    hide Inv, HandoffUsed, Timely, Stamp, Do, UsedBy, Rising;
    InvShape(t);
    TickStamps(cfg, t, x, id);
    TickHistory(cfg, t, x, id);
    StampIsRecent(x.now);
    TickSpacing(cfg, t, x);
    if HandoffUsed(cfg, t.hub, id).Some? {
      UsedFacts(cfg, t, x, id);
      RisingMore(UsedBy(t, id), HandoffUsed(cfg, t.hub, id).value);
    }
  }

  lemma TickSpacing(cfg: Config, t: Trace, x: Step)
    requires x.ATick? && Timely(cfg, t, x)
    ensures t.lastTick.Some? ==> x.now >= t.lastTick.value + SECOND
  {
  }

  /** A counted handoff always moves its bead. */
  lemma HandoffMoves(cfg: Config, now: int, b: Bead, thread: seq<Comment>)
    requires Dispatched(b) && Handoff(cfg, b, thread).Some?
    ensures !TickMove(cfg, now, b, thread).Stay?
  {
    HandoffStages(cfg, b, thread);
  }

  lemma StepKeepsUsed(cfg: Config, t: Trace, x: Step)
    requires Inv(t) && AllUsedOk(t) && Enabled(t, x) && Timely(cfg, t, x)
    ensures AllUsedOk(Do(cfg, t, x))
  {
    InvShape(t);
    var g := Do(cfg, t, x);
    hide Tick, Items, HandoffUsed, Timely, UsedOk, Inv;
    if x.ATick? { TickShape(cfg, t, x); }
    forall id ensures (id in g.hub.beads ==> UsedOk(g, id)) && (id !in g.hub.beads ==> UsedBy(g, id) == []) {
      if x.ATick? {
        if id in t.hub.beads { TickKeepsUsed(cfg, t, x, id); }
      } else {
        EditKeepsUsed(cfg, t, x, id);
      }
    }
  }

  lemma EditKeepsUsed(cfg: Config, t: Trace, x: Step, id: Id)
    requires Inv(t) && AllUsedOk(t) && Enabled(t, x) && !x.ATick?
    ensures var g := Do(cfg, t, x); (id in g.hub.beads ==> UsedOk(g, id)) && (id !in g.hub.beads ==> UsedBy(g, id) == [])
  {
    hide Inv, Do, Enabled, Dispatched, BeadOk;
    InvShape(t);
    EditHistory(cfg, t, x, id);
  }

  /** An edit leaves the history alone and dispatches nothing. */
  lemma EditHistory(cfg: Config, t: Trace, x: Step, id: Id)
    requires HubOk(t.hub) && Enabled(t, x) && !x.ATick?
    ensures var g := Do(cfg, t, x);
            g.used == t.used && g.movedAt == t.movedAt && g.lastTick == t.lastTick &&
            (id in t.hub.beads ==> id in g.hub.beads) &&
            (id in t.hub.beads && Dispatched(g.hub.beads[id]) ==>
              Dispatched(t.hub.beads[id]) && g.hub.beads[id].dispatchedAt == t.hub.beads[id].dispatchedAt) &&
            (id in g.hub.beads && id !in t.hub.beads ==> !Dispatched(g.hub.beads[id]))
  {
  }

  lemma InvShape(t: Trace)
    requires Inv(t)
    ensures HubOk(t.hub)
  {
  }

  /** In a timely run the comments that moved a bead as handoffs rise strictly in time: none moves it twice. */
  lemma {:induction false} NoHandoffTwice(cfg: Config, t: Trace, xs: seq<Step>, id: Id)
    requires Inv(t) && AllUsedOk(t) && IsRun(cfg, t, xs) && TimelyRun(cfg, t, xs)
    ensures Rising(UsedBy(End(cfg, t, xs), id))
    ensures var u := UsedBy(End(cfg, t, xs), id); forall i, j :: 0 <= i < j < |u| ==> u[i] != u[j]
    decreases |xs|
  {
    hide Inv, Do, Timely, Enabled;
    InvShape(t);
    if xs != [] {
      StepKeeps(cfg, t, xs[0]);
      StepKeepsUsed(cfg, t, xs[0]);
      NoHandoffTwice(cfg, Do(cfg, t, xs[0]), xs[1..], id);
    }
  }

  // ------------------------------------------------------- the same handoff, once more

  /** The later part of a list of comments. */
  function Later(cs: seq<Comment>, t: int): (r: seq<Comment>)
    requires AllTimed(cs)
    ensures AllTimed(r)
  {
    if cs == [] then []
    else
      var n := |cs| - 1;
      Later(cs[..n], t) + (if cs[n].at.value > t then [cs[n]] else [])
  }

  lemma {:induction false} LaterMembers(cs: seq<Comment>, t: int)
    requires AllTimed(cs)
    ensures forall c :: c in Later(cs, t) ==> c in cs
    ensures NoLaterThan(cs, t) ==> Later(cs, t) == []
  {
    if cs != [] {
      var n := |cs| - 1;
      assert cs == cs[..n] + [cs[n]];
      LaterMembers(cs[..n], t);
    }
  }

  lemma {:induction false} LaterInsert(cs: seq<Comment>, c: Comment, t: int)
    requires AllTimed(cs) && ByTime(cs) && c.at.Some?
    ensures Later(InsertByTime(cs, c), t) == if c.at.value > t then InsertByTime(Later(cs, t), c) else Later(cs, t)
  {
    if cs != [] {
      var n := |cs| - 1;
      if cs[n].at.value <= c.at.value {
        assert (cs + [c])[..|cs|] == cs;
        if c.at.value > t { InsertLast(cs, c, t); }
      } else {
        LaterInsert(cs[..n], c, t);
        var r := InsertByTime(cs[..n], c);
        assert (r + [cs[n]])[..|r|] == r;
        if c.at.value > t { assert (Later(cs[..n], t) + [cs[n]])[..|Later(cs[..n], t)|] == Later(cs[..n], t); }
      }
    }
  }

  lemma InsertLast(cs: seq<Comment>, c: Comment, t: int)
    requires AllTimed(cs) && c.at.Some? && forall d :: d in cs ==> d.at.value <= c.at.value
    ensures InsertByTime(Later(cs, t), c) == Later(cs, t) + [c]
  {
    LaterMembers(cs, t);
    var r := Later(cs, t);
    if r != [] { assert r[|r| - 1] in r; }
  }

  /** Reading a thread from a later time on is dropping what lies between. */
  lemma {:induction false} SinceLater(thread: seq<Comment>, t: int, u: int)
    requires t <= u
    ensures Since(thread, u) == Later(Since(thread, t), u)
  {
    if thread != [] {
      var n := |thread| - 1;
      SinceLater(thread[..n], t, u);
      SinceFacts(thread[..n], t);
      if After(thread[n], t) { LaterInsert(Since(thread[..n], t), thread[n], u); }
    }
  }

  lemma {:induction false} LastIsMember(cs: seq<Comment>, author: string)
    ensures LastHandoff(cs, author).Some? ==> LastHandoff(cs, author).value in cs
  {
    hide IsHandoffBy;
    if cs != [] { LastIsMember(cs[..|cs| - 1], author); }
  }

  lemma {:induction false} LastLater(cs: seq<Comment>, t: int, author: string)
    requires AllTimed(cs) && ByTime(cs)
    ensures LastHandoff(cs, author).Some? ==> LastHandoff(cs, author).value.at.Some?
    ensures LastHandoff(Later(cs, t), author) ==
              var c := LastHandoff(cs, author); if c.Some? && c.value.at.value > t then c else None
  {
    hide IsHandoffBy, LastHandoff, Later;
    LastIsMember(cs, author);
    if cs == [] {
      NothingLater(t, author);
    } else {
      var n := |cs| - 1;
      LastLater(cs[..n], t, author);
      LastBack(cs[..n], cs[n], author);
      LaterBack(cs[..n], cs[n], t);
      assert cs == cs[..n] + [cs[n]];
      LastBack(Later(cs[..n], t), cs[n], author);
      if cs[n].at.value <= t { LaterMembers(cs, t); }
      NothingLater(t, author);
    }
  }

  lemma NothingLater(t: int, author: string)
    ensures Later([], t) == [] && LastHandoff([], author) == None
  {
  }

  lemma LastBack(cs: seq<Comment>, c: Comment, author: string)
    ensures LastHandoff(cs + [c], author) == if IsHandoffBy(c, author) then Some(c) else LastHandoff(cs, author)
  {
    hide IsHandoffBy;
    assert (cs + [c])[..|cs|] == cs;
  }

  lemma LaterBack(cs: seq<Comment>, c: Comment, t: int)
    requires AllTimed(cs) && c.at.Some?
    ensures Later(cs + [c], t) == if c.at.value > t then Later(cs, t) + [c] else Later(cs, t)
  {
    assert (cs + [c])[..|cs|] == cs;
  }

  lemma {:induction false} InsertQuiet(cs: seq<Comment>, c: Comment, author: string)
    requires AllTimed(cs) && c.at.Some? && !IsHandoffBy(c, author)
    ensures LastHandoff(InsertByTime(cs, c), author) == LastHandoff(cs, author)
  {
    hide IsHandoffBy;
    if cs == [] {
      assert [c][..0] == [];
    } else {
      var n := |cs| - 1;
      if cs[n].at.value <= c.at.value {
        assert (cs + [c])[..|cs|] == cs;
      } else {
        InsertQuiet(cs[..n], c, author);
        var r := InsertByTime(cs[..n], c);
        assert (r + [cs[n]])[..|r|] == r;
      }
    }
  }

  /** Comments that are no handoffs of the assignee since then do not change which one is the last. */
  lemma {:induction false} QuietComments(thread: seq<Comment>, more: seq<Comment>, since: int, author: string)
    requires forall c :: c in more && After(c, since) ==> !IsHandoffBy(c, author)
    ensures LastHandoff(Since(thread + more, since), author) == LastHandoff(Since(thread, since), author)
  {
    hide IsHandoffBy;
    if more == [] {
      assert thread + more == thread;
    } else {
      var n := |more| - 1;
      assert more[n] in more;
      assert (thread + more)[..|thread + more| - 1] == thread + more[..n];
      QuietComments(thread, more[..n], since, author);
      if After(more[n], since) { InsertQuiet(Since(thread + more[..n], since), more[n], author); }
    }
  }

  /**
   * What the spacing is for.  A bead was moved by the handoff c and is dispatched again at t2 to an agent
   * of the same name; whatever else is said since, as long as the agent hands nothing off, c counts once
   * more exactly if it is later than the truncated stamp.
   */
  lemma SameSecondCountsTwice(cfg: Config, b: Bead, thread: seq<Comment>, c: Comment, moved: Bead, t2: int,
                              stage: Stage, agent: string, wasPending: bool, more: seq<Comment>)
    requires Dispatched(b) && Handoff(cfg, b, thread) == Some(c) && stage != Merge
    requires BaseName(agent) == BaseName(b.assignee) && Stamp(t2) >= b.dispatchedAt.value
    requires forall d :: d in more && After(d, Stamp(t2)) ==> !IsHandoffBy(d, BaseName(agent))
    ensures var again := DispatchedBead(t2, moved, stage, agent, wasPending);
            Dispatched(again) && c.at.Some? && Handoff(cfg, again, thread + more) == if c.at.value > Stamp(t2) then Some(c) else None
  {
    hide BaseName, IsHandoffBy, Stamp;
    HandoffFacts(cfg, b, thread);
    QuietComments(thread, more, Stamp(t2), BaseName(agent));
    SinceLater(thread, b.dispatchedAt.value, Stamp(t2));
    SinceFacts(thread, b.dispatchedAt.value);
    LastLater(Since(thread, b.dispatchedAt.value), Stamp(t2), BaseName(agent));
  }

  /** One agent serving both dev and test, redispatched within the second of its own handoff: the bead is parked. */
  lemma SameSecondParks(cfg: Config, b: Bead, c: Comment, t1: int, t2: int, t3: int)
    requires Dispatched(b) && b.stage == Some(Dev) && After(c, b.dispatchedAt.value) && HandoffVerb(c.text) == Some("dev-done")
    requires Dev in cfg.roster && Test in cfg.roster && cfg.roster[Test] == cfg.roster[Dev] == b.assignee
    requires BaseName(c.author) == BaseName(b.assignee) != "" && BaseName(b.assignee) != BaseName(cfg.owner)
    ensures var moved := Moved(cfg, t1, b, TickMove(cfg, t1, b, [c]));
            IsPendingWork(cfg, moved) && moved.stage == Some(Test) &&
            var again := DispatchedBead(t2, moved, Test, cfg.roster[Test], true);
            (c.at.value > Stamp(t2) ==> TickMove(cfg, t3, again, [c]) == Park(Test)) &&
            (c.at.value <= Stamp(t2) ==> Handoff(cfg, again, [c]).None?)
  {
    hide HandoffVerb, BaseName, Overdue, Guided;
    SinceOne(c, b.dispatchedAt.value);
    SinceOne(c, Stamp(t2));
    LastOne(c, BaseName(b.assignee));
  }

  lemma SinceOne(c: Comment, since: int)
    ensures Since([c], since) == if After(c, since) then [c] else []
  {
    assert [c][..0] == [];
    assert Since([], since) == [];
  }

  lemma LastOne(c: Comment, author: string)
    ensures LastHandoff([], author) == None
    ensures IsHandoffBy(c, author) ==> LastHandoff([c], author) == Some(c)
  {
  }

  // -------------------------------------------------------------------- the WIP cap

  /** Two names the router cannot tell apart are one agent. */
  predicate DistinctAgents(cfg: Config) {
    forall s, u :: s in cfg.roster && u in cfg.roster && BaseName(cfg.roster[s]) == BaseName(cfg.roster[u]) ==> cfg.roster[s] == cfg.roster[u]
  }

  ghost predicate Capped(cfg: Config, h: Hub) {
    forall name :: |RunningFor(h, name)| <= cfg.wip
  }

  function NamedIds(items: seq<Item>, name: string): set<Id> {
    if items == [] then {}
    else NamedIds(items[..|items| - 1], name) + (if BaseName(items[|items| - 1].agent) == name then {items[|items| - 1].id} else {})
  }

  predicate FromRoster(cfg: Config, items: seq<Item>) {
    forall k :: 0 <= k < |items| ==> items[k].stage in cfg.roster && cfg.roster[items[k].stage] == items[k].agent
  }

  /** With distinct names, the ids stamped for a name are those stamped for its one agent. */
  lemma {:induction false} NamedAreStamped(cfg: Config, items: seq<Item>, agent: string, stage: Stage)
    requires DistinctAgents(cfg) && FromRoster(cfg, items) && stage in cfg.roster && cfg.roster[stage] == agent
    ensures |NamedIds(items, BaseName(agent))| <= StampedFor(items, agent)
  {
    hide BaseName;
    if items != [] {
      var n := |items| - 1;
      NamedAreStamped(cfg, items[..n], agent, stage);
      assert FromRoster(cfg, items[..n]);
      if BaseName(items[n].agent) == BaseName(agent) {
        assert items[n].agent == agent;
        UnionSize(NamedIds(items[..n], BaseName(agent)), {items[n].id});
      }
    }
  }

  lemma UnionSize<T>(a: set<T>, b: set<T>)
    ensures |a + b| <= |a| + |b|
  {
    assert a + b == a + (b - a);
    assert |b - a| <= |b| by { assert b == (b - a) + (b * a); }
  }

  /** Stamping stops at the cap, whatever the snapshot already counts. */
  lemma {:induction false} StampsFit(cfg: Config, h: Hub, items: seq<Item>, name: string)
    requires DistinctAgents(cfg) && FromRoster(cfg, items) && |RunningFor(h, name)| <= cfg.wip
    requires forall k :: 0 <= k < |items| ==> HasRoom(cfg, h, items[..k], items[k].agent)
    ensures |RunningFor(h, name)| + |NamedIds(items, name)| <= cfg.wip
  {
    hide BaseName, RunningFor, DistinctAgents;
    if items != [] {
      var n := |items| - 1;
      assert forall k :: 0 <= k < n ==> items[..n][..k] == items[..k];
      assert FromRoster(cfg, items[..n]);
      StampsFit(cfg, h, items[..n], name);
      if BaseName(items[n].agent) == name {
        assert HasRoom(cfg, h, items[..n], items[n].agent);
        NamedAreStamped(cfg, items[..n], items[n].agent, items[n].stage);
        UnionSize(NamedIds(items[..n], name), {items[n].id});
      }
    }
  }

  lemma {:induction false} NamedIdsOf(items: seq<Item>, item: Item)
    requires item in items
    ensures item.id in NamedIds(items, BaseName(item.agent))
  {
    hide BaseName;
    if items[|items| - 1] != item {
      assert items == items[..|items| - 1] + [items[|items| - 1]];
      NamedIdsOf(items[..|items| - 1], item);
    }
  }

  /** A bead that runs for a name after the tick ran for it before, or was stamped for it. */
  lemma RunningAfter(cfg: Config, h: Hub, now: int, ready: seq<Id>, notify: Option<string -> bool>, name: string, id: Id)
    requires HubOk(h) && id in RunningFor(Tick(cfg, h, now, ready, notify), name) && id in h.beads
    ensures id in RunningFor(h, name) || id in NamedIds(Items(cfg, h, now, ready, notify), name)
  {
    hide TickMove, Items, Tick, BaseName, ItemOk;
    var items := Items(cfg, h, now, ready, notify);
    TickMeaning(cfg, h, now, ready, notify, id);
    var item := FindItem(items, id);
    if item.Some? { NamedIdsOf(items, item.value); }
  }

  lemma TickKeepsCap(cfg: Config, h: Hub, now: int, ready: seq<Id>, notify: Option<string -> bool>, name: string)
    requires HubOk(h) && DistinctAgents(cfg) && |RunningFor(h, name)| <= cfg.wip
    ensures |RunningFor(Tick(cfg, h, now, ready, notify), name)| <= cfg.wip
  {
    hide Tick, Items, RunningFor, DistinctAgents, HasRoom, ItemOk;
    var items := Items(cfg, h, now, ready, notify);
    ItemsFacts(cfg, h, now, ready, notify);
    forall k | 0 <= k < |items| ensures items[k].stage in cfg.roster && cfg.roster[items[k].stage] == items[k].agent {
      assert items[k] in items;
      ItemAgent(cfg, now, h, items[k]);
    }
    StampsFit(cfg, h, items, name);
    var after := RunningFor(Tick(cfg, h, now, ready, notify), name);
    forall id | id in after ensures id in RunningFor(h, name) + NamedIds(items, name) {
      TickBeads(cfg, h, now, ready, notify);
      RunningIsBead(Tick(cfg, h, now, ready, notify), name, id);
      RunningAfter(cfg, h, now, ready, notify, name, id);
    }
    SubsetSize(after, RunningFor(h, name) + NamedIds(items, name));
    UnionSize(RunningFor(h, name), NamedIds(items, name));
  }

  lemma TickBeads(cfg: Config, h: Hub, now: int, ready: seq<Id>, notify: Option<string -> bool>)
    requires HubOk(h)
    ensures Tick(cfg, h, now, ready, notify).beads.Keys == h.beads.Keys
  {
    hide Items, ThreePasses;
    var items := Items(cfg, h, now, ready, notify);
    var st := ThreePasses(cfg, now, h);
    DispatchShape(now, st.hub, items);
    RevertShape(cfg, WithDispatches(now, st.hub, items), items, notify);
  }

  lemma RunningIsBead(h: Hub, name: string, id: Id)
    requires id in RunningFor(h, name)
    ensures id in h.beads
  {
  }

  lemma ItemAgent(cfg: Config, now: int, h: Hub, item: Item)
    requires ItemOk(cfg, now, h, item)
    ensures item.stage in cfg.roster && cfg.roster[item.stage] == item.agent
  {
  }

  lemma SubsetSize<T>(a: set<T>, b: set<T>)
    requires a <= b
    ensures |a| <= |b|
  {
    assert b == a + (b - a);
  }

  lemma StepKeepsCap(cfg: Config, t: Trace, x: Step)
    requires Inv(t) && DistinctAgents(cfg) && Enabled(t, x) && Capped(cfg, t.hub)
    ensures Capped(cfg, Do(cfg, t, x).hub)
  {
    hide DistinctAgents, Tick, Items, HandoffUsed;
    InvShape(t);
    var g := Do(cfg, t, x);
    forall name ensures |RunningFor(g.hub, name)| <= cfg.wip {
      if x.ATick? {
        TickKeepsCap(cfg, t.hub, x.now, x.ready, x.notify, name);
      } else {
        assert RunningFor(g.hub, name) == RunningFor(t.hub, name) by { EditsRunNothing(cfg, t, x, name); }
      }
    }
  }

  lemma EditsRunNothing(cfg: Config, t: Trace, x: Step, name: string)
    requires Inv(t) && Enabled(t, x) && !x.ATick?
    ensures RunningFor(Do(cfg, t, x).hub, name) == RunningFor(t.hub, name)
  {
    hide BaseName, BeadInv;
  }

  /** No agent ever holds more running hub beads than the cap, although counts are read at tick start. */
  lemma {:induction false} WipCap(cfg: Config, t: Trace, xs: seq<Step>)
    requires Inv(t) && DistinctAgents(cfg) && Capped(cfg, t.hub) && IsRun(cfg, t, xs)
    ensures Capped(cfg, End(cfg, t, xs).hub)
    decreases |xs|
  {
    hide Inv, Do, Enabled, DistinctAgents, Capped;
    InvShape(t);
    if xs != [] {
      StepKeeps(cfg, t, xs[0]);
      StepKeepsCap(cfg, t, xs[0]);
      WipCap(cfg, Do(cfg, t, xs[0]), xs[1..]);
    }
  }

  /** What distinct names are for: with one slot left, two spellings of a name get one each, and the name is over the cap. */
  lemma SharedNameBreaksCap(cfg: Config, snap: Hub, v: Work, w: Work)
    requires v.stage in cfg.roster && w.stage in cfg.roster && v.id != w.id
    requires var a, b := cfg.roster[v.stage], cfg.roster[w.stage];
             a != b && BaseName(a) == BaseName(b) && |RunningFor(snap, BaseName(a))| + 1 == cfg.wip &&
             v.id !in RunningFor(snap, BaseName(a)) && w.id !in RunningFor(snap, BaseName(a))
    ensures var items := Chosen(cfg, snap, {}, [v, w]); var name := BaseName(cfg.roster[v.stage]);
            NamedIds(items, name) == {v.id, w.id} && |RunningFor(snap, name) + NamedIds(items, name)| == cfg.wip + 1
  {
    hide BaseName, RunningFor;
    assert [v, w][..1] == [v] && [v][..0] == [];
    assert Chosen(cfg, snap, {}, []) == [];
    var i := Item(v.id, v.stage, cfg.roster[v.stage], IsPending(v.bead));
    var j := Item(w.id, w.stage, cfg.roster[w.stage], IsPending(w.bead));
    assert Chosen(cfg, snap, {}, [v]) == [i];
    assert [i][..0] == [];
    assert StampedFor([i], cfg.roster[w.stage]) == 0;
    assert Chosen(cfg, snap, {}, [v, w]) == [i] + [j] == [i, j];
    assert [i, j][..1] == [i];
    var name := BaseName(cfg.roster[v.stage]);
    assert NamedIds([], name) == {} && NamedIds([i], name) == {v.id};
    TwoMore(RunningFor(snap, name), v.id, w.id);
  }

  lemma TwoMore<T>(a: set<T>, x: T, y: T)
    requires x !in a && y !in a && x != y
    ensures |a + {x, y}| == |a| + 2
  {
    assert a + {x, y} == a + {x} + {y};
  }

  // ------------------------------------------------------------------ wake-ups, guidance

  /** Each dispatch of a tick stands if its wake-up got through, and waits as pending for its stage if not. */
  lemma FailedWakeupPends(cfg: Config, t: Trace, now: int, ready: seq<Id>, notify: Option<string -> bool>, item: Item)
    requires Inv(t) && item in Items(cfg, t.hub, now, ready, notify)
    ensures var g := Tick(cfg, t.hub, now, ready, notify);
            item.id in g.beads && var b := g.beads[item.id];
            b.stage == Some(item.stage) &&
            (WakeupFails(notify, item.agent) ==> Waiting(b) && b.assignee == cfg.actor) &&
            (!WakeupFails(notify, item.agent) ==> AtWork(b) && b.assignee == item.agent && b.dispatchedAt == Some(Stamp(now)))
  {
    hide TickMove, Moved, Remarks, Items, Tick, BeadOk, DispatchedBead, RevertedBead, ItemOk, WakeupFails, Waiting, AtWork, Inv;
    InvShape(t);
    var items := Items(cfg, t.hub, now, ready, notify);
    ItemsFacts(cfg, t.hub, now, ready, notify);
    TickBeads(cfg, t.hub, now, ready, notify);
    ItemIsBead(cfg, now, t.hub, item);
    TickMeaning(cfg, t.hub, now, ready, notify, item.id);
    FoundItem(items, item);
    InvBead(t, item.id);
    ItemStates(cfg, now, t.hub, item);
  }

  lemma {:induction false} FoundItem(items: seq<Item>, item: Item)
    requires DistinctItems(items) && item in items
    ensures FindItem(items, item.id) == Some(item)
  {
    var n := |items| - 1;
    if items[n] != item {
      assert items == items[..n] + [items[n]];
      FoundItem(items[..n], item);
    }
  }

  lemma InvBead(t: Trace, id: Id)
    requires Inv(t) && id in t.hub.beads
    ensures BeadOk(t.hub.beads[id])
  {
    assert BeadInv(t, id);
  }

  lemma ItemIsBead(cfg: Config, now: int, h: Hub, item: Item)
    requires ItemOk(cfg, now, h, item)
    ensures item.id in h.beads
  {
  }

  lemma ItemStates(cfg: Config, now: int, h: Hub, item: Item)
    requires ItemOk(cfg, now, h, item) && BeadOk(h.beads[item.id])
    ensures var d := DispatchedBead(now, h.beads[item.id], item.stage, item.agent, item.wasPending);
            AtWork(d) && d.stage == Some(item.stage) && d.assignee == item.agent && d.dispatchedAt == Some(Stamp(now)) &&
            Waiting(RevertedBead(cfg, d)) && RevertedBead(cfg, d).stage == Some(item.stage) && RevertedBead(cfg, d).assignee == cfg.actor
  {
    hide TickMove, HasPrEvidence;
  }

  // ----------------------------------------------------------------------- re-pings

  /** The board the grace pass works on, with what the first two passes acted on. */
  function BeforeGrace(cfg: Config, now: int, h: Hub): Sweeping
    requires forall id :: id in h.order ==> id in h.beads
  {
    Passed(Guidance, cfg, now, h, Passed(Handoffs, cfg, now, h, Sweeping(h, {}), h.order), h.order)
  }

  /** No bead is re-pinged while the re-ping window is as long as the grace window or as the silence limit. */
  lemma {:induction false} NeverRepinged(cfg: Config, now: int, snap: Hub, st: Sweeping, rows: seq<Id>)
    requires (cfg.grace <= cfg.reping || cfg.silent <= cfg.reping) && forall id :: id in rows ==> id in snap.beads
    ensures Repings(cfg, now, snap, st, rows) == []
  {
    hide LastSeen;
    if rows != [] {
      var n := |rows| - 1;
      assert rows == rows[..n] + [rows[n]] && rows[n] in rows;
      NeverRepinged(cfg, now, snap, st, rows[..n]);
      if Dispatched(snap.beads[rows[n]]) { SeenAfterDispatch(snap.beads[rows[n]], ThreadOf(st.hub, rows[n])); }
    }
  }

  function OneBead(b: Bead): Hub { Hub(["bead"], map["bead" := b], map[]) }

  const IDLE := Bead("task", {}, "", None, InProgress, "agent", Some(Dev), Some(0), None, None, None)

  /** A silent bead, seen at the end of the shorter of the two other windows. */
  lemma IdleIsRepinged(cfg: Config)
    requires cfg.reping < cfg.grace && cfg.reping < cfg.silent
    ensures var h := OneBead(IDLE); var now := if cfg.grace < cfg.silent then cfg.grace else cfg.silent;
            HubOk(h) && Repings(cfg, now, h, BeforeGrace(cfg, now, h), h.order) == ["bead"]
  {
    hide BaseName;
    var h := OneBead(IDLE);
    var now := if cfg.grace < cfg.silent then cfg.grace else cfg.silent;
    assert h.order[..0] == [] && h.order == [] + ["bead"];
    var s0 := Sweeping(h, {});
    assert Passed(Handoffs, cfg, now, h, s0, []) == s0 && Passed(Handoffs, cfg, now, h, s0, h.order) == s0;
    assert Passed(Guidance, cfg, now, h, s0, []) == s0 && Passed(Guidance, cfg, now, h, s0, h.order) == s0;
    assert BeforeGrace(cfg, now, h) == s0;
    assert NeedsReping(cfg, now, IDLE, []);
    assert Repings(cfg, now, h, s0, []) == [];
  }

  /** Some bead of some board is re-pinged at some time if and only if the re-ping window is the shortest of the three. */
  lemma RepingsExactly(cfg: Config)
    ensures cfg.reping < cfg.grace && cfg.reping < cfg.silent <==>
              exists h: Hub, now: int :: HubOk(h) && Repings(cfg, now, h, BeforeGrace(cfg, now, h), h.order) != []
  {
    hide Repings, BeforeGrace;
    if cfg.reping < cfg.grace && cfg.reping < cfg.silent {
      IdleIsRepinged(cfg);
    } else {
      forall h: Hub, now: int | HubOk(h) ensures Repings(cfg, now, h, BeforeGrace(cfg, now, h), h.order) == [] {
        NeverRepinged(cfg, now, h, BeforeGrace(cfg, now, h), h.order);
      }
    }
  }

  // ------------------------------------------------------------------- the pipeline

  /** The stages a handoff may lead to, and from where. */
  predicate PipelineStep(from: Option<Stage>, verb: Option<string>, to: Option<Stage>) {
    (from == Some(Dev) && verb == Some("dev-done") && to == Some(Test)) ||
    (from == Some(Test) && verb == Some("test-pass") && to == Some(Review)) ||
    (from == Some(Test) && verb == Some("test-fail") && to == Some(Dev)) ||
    (from == Some(Review) && verb == Some("changes-requested") && to == Some(Dev)) ||
    (from == Some(Review) && verb == Some("review-accepted") && to == Some(Merge))
  }

  /** The assignee handed the bead over after its dispatch. */
  ghost predicate HandedOn(b: Bead, thread: seq<Comment>, to: Option<Stage>) {
    Dispatched(b) && exists c :: c in thread && After(c, b.dispatchedAt.value) && BaseName(c.author) == BaseName(b.assignee) &&
                                 PipelineStep(b.stage, HandoffVerb(c.text), to)
  }

  /** Unassigned open work with the right label; test and review need merge evidence, an owner call never enters. */
  predicate TakenIn(b: Bead, thread: seq<Comment>, to: Option<Stage>) {
    b.stage.None? && b.status.Open? && b.assignee == "" && b.issueType != "epic" && "owner-call" !in b.labels &&
    ((to == Some(Review) && "role:reviewer" in b.labels && HasPrEvidence(b, thread)) ||
     (to == Some(Test) && "role:tester" in b.labels && "role:reviewer" !in b.labels && HasPrEvidence(b, thread)) ||
     (to == Some(Dev) && "role:builder" in b.labels && "role:reviewer" !in b.labels && "role:tester" !in b.labels))
  }

  lemma HandoffLeadsOn(cfg: Config, b: Bead, thread: seq<Comment>)
    requires Dispatched(b) && Handoff(cfg, b, thread).Some?
    ensures var m := HandoffPass(cfg, b, thread);
            (m.Advance? ==> HandedOn(b, thread, Some(m.to))) && (m.Accept? ==> HandedOn(b, thread, Some(Merge)))
  {
    hide Handoff, HandoffVerb, BaseName;
    HandoffFacts(cfg, b, thread);
    HandoffHasVerb(cfg, b, thread);
    var c := Handoff(cfg, b, thread).value;
    var m := HandoffPass(cfg, b, thread);
    if m.Advance? { assert PipelineStep(b.stage, HandoffVerb(c.text), Some(m.to)); }
    if m.Accept? { assert PipelineStep(b.stage, HandoffVerb(c.text), Some(Merge)); }
  }

  lemma MoveLeadsOn(cfg: Config, now: int, b: Bead, thread: seq<Comment>)
    ensures var m := TickMove(cfg, now, b, thread); var to := Moved(cfg, now, b, m).stage;
            !m.Stay? && to != b.stage ==> HandedOn(b, thread, to)
  {
    hide Handoff, HandoffVerb, BaseName, HandoffMove, Guided, Overdue, HandedOn;
    if Dispatched(b) && Handoff(cfg, b, thread).Some? { HandoffLeadsOn(cfg, b, thread); }
  }

  /** A bead's stage changes only along the pipeline, by a handoff of its assignee, or when it is taken in. */
  lemma StagesFollowPipeline(cfg: Config, h: Hub, now: int, ready: seq<Id>, notify: Option<string -> bool>, id: Id)
    requires HubOk(h) && id in h.beads
    ensures var b := h.beads[id]; var thread := ThreadOf(h, id); var g := Tick(cfg, h, now, ready, notify);
            id in g.beads && (g.beads[id].stage == b.stage || HandedOn(b, thread, g.beads[id].stage) || TakenIn(b, thread, g.beads[id].stage))
  {
    hide TickMove, Moved, Remarks, Items, Tick, HandedOn, HasPrEvidence, WakeupFails;
    TickMeaning(cfg, h, now, ready, notify, id);
    MoveLeadsOn(cfg, now, h.beads[id], ThreadOf(h, id));
  }

  /**
   * Where a handoff leaves its bead at the end of the tick.  A verb its stage does not know, or a target
   * without an agent, parks it with the owner in the stage it was in; an accepted review makes it the
   * owner's, for merge; any other waits, in the next stage, for that stage's agent.
   */
  lemma HandoffOutcome(cfg: Config, h: Hub, now: int, ready: seq<Id>, notify: Option<string -> bool>, id: Id)
    requires HubOk(h) && id in h.beads && BeadOk(h.beads[id]) && HandoffUsed(cfg, h, id).Some?
    ensures var b := h.beads[id]; var verb := HandoffVerb(HandoffUsed(cfg, h, id).value.text);
            var g := Tick(cfg, h, now, ready, notify);
            verb.Some? && b.stage.Some? && id in g.beads &&
            var d := g.beads[id];
            if !Allowed(b.stage.value, verb.value) || (Target(verb.value) != Some(Merge) && AgentFor(cfg, Target(verb.value)).None?)
            then WithOwner(d) && d.stage == b.stage && d.assignee == cfg.owner && d.blockedAt == Some(Stamp(now))
            else d.stage == Target(verb.value) &&
                 (if d.stage == Some(Merge) then HandedOver(d) && d.assignee == cfg.owner
                  else Waiting(d) && Some(d.assignee) == AgentFor(cfg, d.stage))
  {
    hide Tick, Items, Handoff, HandoffVerb, WakeupFails, Remarks, DispatchedBead, RevertedBead, ItemOk;
    var b := h.beads[id];
    TickMeaning(cfg, h, now, ready, notify, id);
    HandoffMoves(cfg, now, b, ThreadOf(h, id));
    HandoffHasVerb(cfg, b, ThreadOf(h, id));
    HandoffStages(cfg, b, ThreadOf(h, id));
  }

  /** A dispatched bead's last sign of life is never before its dispatch. */
  lemma {:induction false} ActivityAfter(cs: seq<Comment>, author: string, start: int)
    requires AllTimed(cs) && forall i :: 0 <= i < |cs| ==> cs[i].at.value > start
    ensures LastActivity(cs, author, start) >= start
  {
    hide BaseName;
    if cs != [] && BaseName(cs[|cs| - 1].author) != author { ActivityAfter(cs[..|cs| - 1], author, start); }
  }

  lemma SeenAfterDispatch(b: Bead, thread: seq<Comment>)
    requires Dispatched(b)
    ensures LastSeen(b, thread) >= b.dispatchedAt.value
  {
    hide BaseName;
    var cs := Since(thread, b.dispatchedAt.value);
    SinceFacts(thread, b.dispatchedAt.value);
    forall i | 0 <= i < |cs| ensures cs[i].at.value > b.dispatchedAt.value { assert cs[i] in cs; }
    ActivityAfter(cs, BaseName(b.assignee), b.dispatchedAt.value);
  }

  /**
   * After a tick no dispatched bead is older than the silence limit or idle beyond the grace window, unless
   * this very tick dispatched it and a window is shorter than what the stamp cuts off.
   */
  lemma NothingStale(cfg: Config, h: Hub, now: int, ready: seq<Id>, notify: Option<string -> bool>, id: Id)
    requires HubOk(h) && id in h.beads && BeadOk(h.beads[id])
    ensures var g := Tick(cfg, h, now, ready, notify);
            id in g.beads && var d := g.beads[id]; (Dispatched(d) ==>
              (now - d.dispatchedAt.value <= cfg.silent && now - LastSeen(d, ThreadOf(g, id)) <= cfg.grace) ||
              (d.dispatchedAt == Some(Stamp(now)) && (cfg.silent < now % SECOND || cfg.grace < now % SECOND)))
  {
    hide Moved, Remarks, Items, Tick, LastSeen, WakeupFails, HandoffPass, GuidancePass, DispatchedBead, RevertedBead, ItemOk, BeadOk, Stamp;
    var b := h.beads[id];
    var thread := ThreadOf(h, id);
    TickMeaning(cfg, h, now, ready, notify, id);
    var g := Tick(cfg, h, now, ready, notify);
    var item := FindItem(Items(cfg, h, now, ready, notify), id);
    NoRemarks(cfg, now);
    assert thread + [] == thread;
    if item.Some? {
      DispatchFields(cfg, now, b, item.value);
      StampIsRecent(now);
      if Dispatched(g.beads[id]) { SeenAfterDispatch(g.beads[id], ThreadOf(g, id)); }
    } else if !TickMove(cfg, now, b, thread).Stay? {
      MoveKeepsBead(cfg, now, b, thread);
    }
  }

  // ------------------------------------------------------------------- guidance, lost

  /** The first word of an owner account since the park was not guidance. */
  predicate GuidanceLost(cfg: Config, b: Bead, thread: seq<Comment>, first: Comment) {
    Parked(b) && FirstBy(Since(thread, b.blockedAt.value), cfg.ownerAuthors) == Some(first) && first.at.Some? && !IsGuidance(first.text)
  }

  /** Where an insertion by time lands. */
  lemma {:induction false} InsertPlace(cs: seq<Comment>, c: Comment) returns (j: nat)
    requires c.at.Some? && AllTimed(cs) && ByTime(cs)
    ensures j <= |cs| && InsertByTime(cs, c) == cs[..j] + [c] + cs[j..]
    ensures (forall k :: 0 <= k < j ==> cs[k].at.value <= c.at.value) && forall k :: j <= k < |cs| ==> cs[k].at.value > c.at.value
  {
    j := |cs|;
    if cs != [] && cs[|cs| - 1].at.value > c.at.value {
      j := InsertPlace(cs[..|cs| - 1], c);
      assert cs[..|cs| - 1][..j] == cs[..j];
      assert cs[..|cs| - 1][j..] + [cs[|cs| - 1]] == cs[j..];
    }
  }

  lemma {:induction false} FirstByPlace(cs: seq<Comment>, authors: set<string>) returns (i: nat)
    requires FirstBy(cs, authors).Some?
    ensures i < |cs| && cs[i] == FirstBy(cs, authors).value && BaseName(cs[i].author) in authors
    ensures forall k :: 0 <= k < i ==> BaseName(cs[k].author) !in authors
  {
    hide BaseName;
    i := 0;
    if BaseName(cs[0].author) !in authors {
      var j := FirstByPlace(cs[1..], authors);
      i := j + 1;
    }
  }

  lemma {:induction false} FirstByIs(cs: seq<Comment>, authors: set<string>, i: nat)
    requires i < |cs| && BaseName(cs[i].author) in authors && forall k :: 0 <= k < i ==> BaseName(cs[k].author) !in authors
    ensures FirstBy(cs, authors) == Some(cs[i])
  {
    hide BaseName;
    if i > 0 { FirstByIs(cs[1..], authors, i - 1); }
  }

  /** A comment that is not earlier never becomes the owner's first. */
  lemma FirstStays(thread: seq<Comment>, since: int, authors: set<string>, d: Comment)
    requires var c := FirstBy(Since(thread, since), authors); c.Some? && c.value.at.Some? && (d.at.Some? ==> d.at.value >= c.value.at.value)
    ensures FirstBy(Since(thread + [d], since), authors) == FirstBy(Since(thread, since), authors)
  {
    hide BaseName;
    assert (thread + [d])[..|thread|] == thread;
    var cs := Since(thread, since);
    if After(d, since) {
      SinceFacts(thread, since);
      var i := FirstByPlace(cs, authors);
      var j := InsertPlace(cs, d);
      var r := InsertByTime(cs, d);
      assert forall k :: 0 <= k < j ==> r[k] == cs[k];
      FirstByIs(r, authors, i);
    }
  }

  /** A parked bead whose stage has an agent is resumed exactly when the owner's first word since the park is guidance. */
  lemma GuidanceExactly(cfg: Config, now: int, b: Bead, thread: seq<Comment>)
    requires Parked(b) && AgentFor(cfg, b.blockedFrom).Some?
    ensures TickMove(cfg, now, b, thread).Resume? <==>
              var first := FirstBy(Since(thread, b.blockedAt.value), cfg.ownerAuthors); first.Some? && IsGuidance(first.value.text)
  {
    hide IsGuidance, Since;
  }

  lemma {:induction false} FirstByNone(cs: seq<Comment>, authors: set<string>)
    ensures FirstBy(cs, authors).None? <==> forall k :: 0 <= k < |cs| ==> BaseName(cs[k].author) !in authors
  {
    hide BaseName;
    if cs != [] {
      FirstByNone(cs[1..], authors);
      forall k | 0 <= k < |cs| && FirstBy(cs, authors).None? ensures BaseName(cs[k].author) !in authors {
        if k > 0 { assert cs[k] == cs[1..][k - 1]; }
      }
      forall k | 0 <= k < |cs[1..]| && (forall m :: 0 <= m < |cs| ==> BaseName(cs[m].author) !in authors)
        ensures BaseName(cs[1..][k].author) !in authors
      {
        assert cs[1..][k] == cs[k + 1];
      }
    }
  }

  /** The owner's next comment becomes the first one exactly if there was none or it is dated before it. */
  lemma FirstWith(thread: seq<Comment>, since: int, authors: set<string>, d: Comment)
    requires After(d, since) && BaseName(d.author) in authors
    ensures var c := FirstBy(Since(thread, since), authors);
            (c.Some? ==> c.value.at.Some?) &&
            FirstBy(Since(thread + [d], since), authors) == if c.Some? && c.value.at.value <= d.at.value then c else Some(d)
  {
    hide BaseName;
    assert (thread + [d])[..|thread|] == thread;
    var cs := Since(thread, since);
    SinceFacts(thread, since);
    FirstByNone(cs, authors);
    var j := InsertPlace(cs, d);
    var r := InsertByTime(cs, d);
    assert forall k :: 0 <= k < j ==> r[k] == cs[k];
    assert r[j] == d;
    if FirstBy(cs, authors).Some? {
      var i := FirstByPlace(cs, authors);
      if cs[i].at.value <= d.at.value { FirstByIs(r, authors, i); } else { FirstByIs(r, authors, j); }
    } else {
      FirstByIs(r, authors, j);
    }
  }

  /** Chatter, then guidance: where the owner had been silent since the park, only guidance dated before the chatter resumes. */
  lemma ChatterThenGuidance(cfg: Config, now: int, b: Bead, thread: seq<Comment>, chat: Comment, guide: Comment)
    requires Parked(b) && AgentFor(cfg, b.blockedFrom).Some? && FirstBy(Since(thread, b.blockedAt.value), cfg.ownerAuthors).None?
    requires After(chat, b.blockedAt.value) && BaseName(chat.author) in cfg.ownerAuthors && !IsGuidance(chat.text)
    requires After(guide, b.blockedAt.value) && BaseName(guide.author) in cfg.ownerAuthors && IsGuidance(guide.text)
    ensures TickMove(cfg, now, b, thread + [guide]).Resume?
    ensures TickMove(cfg, now, b, thread + [chat] + [guide]).Resume? <==> guide.at.value < chat.at.value
  {
    hide IsGuidance, Since, BaseName;
    FirstWith(thread, b.blockedAt.value, cfg.ownerAuthors, guide);
    FirstWith(thread, b.blockedAt.value, cfg.ownerAuthors, chat);
    FirstWith(thread + [chat], b.blockedAt.value, cfg.ownerAuthors, guide);
    GuidanceExactly(cfg, now, b, thread + [guide]);
    GuidanceExactly(cfg, now, b, thread + [chat] + [guide]);
  }

  lemma LostStays(cfg: Config, t: Trace, x: Step, id: Id, first: Comment)
    requires Inv(t) && Enabled(t, x) && id in t.hub.beads && GuidanceLost(cfg, t.hub.beads[id], ThreadOf(t.hub, id), first)
    requires x.AComment? && x.id == id ==> (x.comment.at.Some? ==> x.comment.at.value >= first.at.value)
    ensures var g := Do(cfg, t, x); id in g.hub.beads && GuidanceLost(cfg, g.hub.beads[id], ThreadOf(g.hub, id), first)
    ensures Do(cfg, t, x).hub.beads[id].blockedFrom == t.hub.beads[id].blockedFrom
  {
    var b := t.hub.beads[id];
    if x.ATick? {
      LostTick(cfg, t, x, id, first);
    } else if x.AComment? && x.id == id {
      hide IsGuidance;
      FirstStays(ThreadOf(t.hub, id), b.blockedAt.value, cfg.ownerAuthors, x.comment);
    } else {
      hide IsGuidance;
    }
  }

  lemma LostTick(cfg: Config, t: Trace, x: Step, id: Id, first: Comment)
    requires Inv(t) && x.ATick? && id in t.hub.beads && GuidanceLost(cfg, t.hub.beads[id], ThreadOf(t.hub, id), first)
    ensures var g := Do(cfg, t, x); id in g.hub.beads && g.hub.beads[id] == t.hub.beads[id] && ThreadOf(g.hub, id) == ThreadOf(t.hub, id)
  {
    hide Tick, Items, HandoffUsed, TickMove, IsGuidance, Since, Moved, Remarks;
    InvShape(t);
    TickMeaning(cfg, t.hub, x.now, x.ready, x.notify, id);
    var thread := ThreadOf(t.hub, id);
    LostMoves(cfg, x.now, t.hub.beads[id], thread, first);
    NoRemarks(cfg, x.now);
    assert thread + [] == thread;
  }

  lemma LostMoves(cfg: Config, now: int, b: Bead, thread: seq<Comment>, first: Comment)
    requires GuidanceLost(cfg, b, thread, first)
    ensures TickMove(cfg, now, b, thread) == Stay && !IsPendingWork(cfg, b) && !IsCandidate(cfg, b, thread)
  {
    hide IsGuidance, HasPrEvidence;
  }

  /**
   * Guidance can be lost for good: once an owner account's first comment since the park is not guidance,
   * no later comment of anyone brings the bead back, at any tick.
   */
  lemma {:induction false} GuidanceNeverComes(cfg: Config, t: Trace, xs: seq<Step>, id: Id, first: Comment)
    requires Inv(t) && IsRun(cfg, t, xs) && id in t.hub.beads && GuidanceLost(cfg, t.hub.beads[id], ThreadOf(t.hub, id), first)
    requires forall x :: x in xs && x.AComment? && x.id == id && x.comment.at.Some? ==> x.comment.at.value >= first.at.value
    ensures id in End(cfg, t, xs).hub.beads
    ensures End(cfg, t, xs).hub.beads[id].status.Blocked? && End(cfg, t, xs).hub.beads[id].blockedFrom == t.hub.beads[id].blockedFrom
    decreases |xs|
  {
    hide Inv, Do, Enabled, Since, IsGuidance;
    InvShape(t);
    if xs != [] {
      assert xs[0] in xs;
      StepKeeps(cfg, t, xs[0]);
      LostStays(cfg, t, xs[0], id, first);
      GuidanceNeverComes(cfg, Do(cfg, t, xs[0]), xs[1..], id, first);
    }
  }
}
