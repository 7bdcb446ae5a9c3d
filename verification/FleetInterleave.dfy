/**
 * A call of the registrar that writes several bundles takes time, and devices go on between two of its writes.
 * Each such interleaving is a run in which the call is one action: what the devices did before their own write
 * comes before it, what they did after it comes after.
 */
module FleetInterleave {
  import opened A2aDoc
  import opened Fleet
  import opened FleetInvariant
  import opened FleetSteps
  import opened FleetSafety
  import opened FleetTheorems

  // ------------------------------------------------------------------ device steps commute

  /** A step of one device: it reads its own volume and the number of its stored bundles, and writes its volume or its report. */
  predicate DeviceStep(x: Action) {
    x.AFetch? || x.AWriteA2a? || x.AWriteEnv? || x.AWriteSnapshot? || x.AAdopt? || x.AReboot? || x.AReport?
  }

  predicate DeviceRun(xs: seq<Action>) { forall x :: x in xs ==> DeviceStep(x) }

  predicate StepsOf(xs: seq<Action>, ds: set<Agent>) { forall x :: x in xs ==> DeviceStep(x) && x.agent in ds }

  /** Where the step is possible, given the device's volume and the number of its stored bundles. */
  predicate CanDevice(x: Action, v: Device, n: nat)
    requires DeviceStep(x)
  {
    match x
    case AFetch(_) => n > 0 && v.fetched == 0
    case AWriteA2a(_) => v.fetched != 0
    case AWriteEnv(_) => v.fetched != 0
    case AWriteSnapshot(_) => v.fetched != 0 && v.a2aAt == v.fetched && v.envAt == v.fetched
    case AAdopt(_) => v.fetched != 0 && v.snapAt == v.fetched
    case AReboot(_) => true
    case AReport(_, version) => version <= v.localAt
    case _ => false
  }

  function NextDevice(x: Action, v: Device, n: nat): Device
    requires DeviceStep(x)
  {
    match x
    case AFetch(_) => v.(fetched := n)
    case AWriteA2a(_) => v.(a2aAt := v.fetched)
    case AWriteEnv(_) => v.(envAt := v.fetched)
    case AWriteSnapshot(_) => v.(snapAt := v.fetched)
    case AAdopt(_) => v.(localAt := v.fetched, fetched := 0)
    case AReboot(_) => v.(localAt := v.snapAt, fetched := 0)
    case _ => v
  }

  function NextReports(x: Action, reports: map<Agent, nat>): map<Agent, nat> {
    if x.AReport? then reports[x.agent := x.version] else reports
  }

  lemma StepForm(f: Fleet, x: Action)
    requires DeviceStep(x)
    ensures Enabled(f, x) <==> x.agent in f.devices && CanDevice(x, f.devices[x.agent], Versions(f, x.agent))
    ensures Enabled(f, x) ==>
              Do(f, x) == f.(devices := f.devices[x.agent := NextDevice(x, f.devices[x.agent], Versions(f, x.agent))], reports := NextReports(x, f.reports))
  {
    if x.AReport? && x.agent in f.devices { assert f.devices[x.agent := f.devices[x.agent]] == f.devices; }
  }

  /** Steps of two different devices commute. */
  lemma Swap(f: Fleet, x: Action, y: Action)
    requires DeviceStep(x) && DeviceStep(y) && x.agent != y.agent && Enabled(f, x) && Enabled(Do(f, x), y)
    ensures Enabled(f, y) && Enabled(Do(f, y), x) && Do(Do(f, x), y) == Do(Do(f, y), x)
  {
    hide Do, Enabled, CanDevice, NextDevice, DeviceStep;
    StepForm(f, x);
    StepForm(Do(f, x), y);
    StepForm(f, y);
    StepForm(Do(f, y), x);
    var g, h := Do(Do(f, x), y), Do(Do(f, y), x);
    assert g.devices == h.devices && g.reports == h.reports;
  }

  /** And with bundles stored for other devices. */
  lemma SwapStore(f: Fleet, x: Action, jobs: map<Agent, Bundle>)
    requires DeviceStep(x) && x.agent !in jobs
    ensures Enabled(Store(f, jobs), x) <==> Enabled(f, x)
    ensures Enabled(f, x) ==> Do(Store(f, jobs), x) == Store(Do(f, x), jobs)
  {
    hide Do, Enabled, CanDevice, NextDevice, Store;
    StepForm(f, x);
    StepForm(Store(f, jobs), x);
    StoredOthers(f, jobs, x.agent);
    if Enabled(f, x) { StoreAround(f, Do(f, x).devices, Do(f, x).reports, jobs); }
  }

  lemma StoredOthers(f: Fleet, jobs: map<Agent, Bundle>, d: Agent)
    requires d !in jobs
    ensures Versions(Store(f, jobs), d) == Versions(f, d) && Store(f, jobs).devices == f.devices && Store(f, jobs).reports == f.reports
  {
  }

  lemma StoreAround(f: Fleet, devices: map<Agent, Device>, reports: map<Agent, nat>, jobs: map<Agent, Bundle>)
    ensures Store(f.(devices := devices, reports := reports), jobs) == Store(f, jobs).(devices := devices, reports := reports)
  {
  }

  /** A step that comes after a run of other devices' steps may come before it. */
  lemma {:induction false} SwapRun(f: Fleet, xs: seq<Action>, x: Action)
    requires IsRun(f, xs) && DeviceRun(xs) && DeviceStep(x) && (forall y :: y in xs ==> y.agent != x.agent) && Enabled(After(f, xs), x)
    ensures Enabled(f, x) && IsRun(Do(f, x), xs) && After(Do(f, x), xs) == Do(After(f, xs), x)
    decreases |xs|
  {
    hide Do, Enabled;
    if xs != [] {
      assert xs[0] in xs;
      SwapRun(Do(f, xs[0]), xs[1..], x);
      Swap(f, xs[0], x);
    }
  }

  lemma {:induction false} StoreRun(f: Fleet, xs: seq<Action>, jobs: map<Agent, Bundle>)
    requires IsRun(f, xs) && DeviceRun(xs) && forall y :: y in xs ==> y.agent !in jobs
    ensures IsRun(Store(f, jobs), xs) && After(Store(f, jobs), xs) == Store(After(f, xs), jobs)
    decreases |xs|
  {
    hide Do, Enabled, Store;
    if xs != [] {
      assert xs[0] in xs;
      SwapStore(f, xs[0], jobs);
      StoreRun(Do(f, xs[0]), xs[1..], jobs);
    }
  }

  function Around(f: Fleet, live: map<Alias, Key>, issued: map<Key, Alias>, rows: seq<Row>): Fleet {
    f.(live := live, issued := issued, rows := rows)
  }

  /** Devices see neither the gateway nor the registry. */
  lemma {:induction false} BlindRun(f: Fleet, xs: seq<Action>, live: map<Alias, Key>, issued: map<Key, Alias>, rows: seq<Row>)
    requires IsRun(f, xs) && DeviceRun(xs)
    ensures IsRun(Around(f, live, issued, rows), xs) && After(Around(f, live, issued, rows), xs) == Around(After(f, xs), live, issued, rows)
    ensures var g := After(f, xs); g == f.(devices := g.devices, reports := g.reports)
    decreases |xs|
  {
    hide Do, Enabled, Around;
    if xs != [] {
      assert xs[0] in xs;
      BlindStep(f, xs[0], live, issued, rows);
      BlindRun(Do(f, xs[0]), xs[1..], live, issued, rows);
    }
  }

  lemma BlindStep(f: Fleet, x: Action, live: map<Alias, Key>, issued: map<Key, Alias>, rows: seq<Row>)
    requires DeviceStep(x) && Enabled(f, x)
    ensures Enabled(Around(f, live, issued, rows), x) && Do(Around(f, live, issued, rows), x) == Around(Do(f, x), live, issued, rows)
    ensures var g := Do(f, x); g == f.(devices := g.devices, reports := g.reports)
  {
    hide Do, Enabled, CanDevice, NextDevice, DeviceStep;
    StepForm(f, x);
    StepForm(Around(f, live, issued, rows), x);
  }

  // ---------------------------------------------------------------- writes one by one

  /** Between two writes of a call any device may do something. */
  datatype Micro = Write(p: Agent) | Device(x: Action)

  function Written(ms: seq<Micro>): set<Agent> {
    if ms == [] then {}
    else Written(ms[..|ms| - 1]) + (if ms[|ms| - 1].Write? then {ms[|ms| - 1].p} else {})
  }

  function MicroStep(f: Fleet, jobs: map<Agent, Bundle>, m: Micro): Fleet {
    match m
    case Write(p) => if p in jobs then Store(f, map[p := jobs[p]]) else f
    case Device(x) => if Enabled(f, x) then Do(f, x) else f
  }

  function MicroEnd(f: Fleet, jobs: map<Agent, Bundle>, ms: seq<Micro>): Fleet {
    if ms == [] then f else MicroStep(MicroEnd(f, jobs, ms[..|ms| - 1]), jobs, ms[|ms| - 1])
  }

  /** Every write is one of the call's, made once, and every device step possible where it happens. */
  predicate IsMicroRun(f: Fleet, jobs: map<Agent, Bundle>, ms: seq<Micro>) {
    ms == [] ||
    (var n := |ms| - 1;
     IsMicroRun(f, jobs, ms[..n]) &&
     match ms[n]
     case Write(p) => p in jobs && p !in Written(ms[..n])
     case Device(x) => DeviceStep(x) && Enabled(MicroEnd(f, jobs, ms[..n]), x))
  }

  lemma StoreTwice(f: Fleet, jobs: map<Agent, Bundle>, done: set<Agent>, p: Agent)
    requires p in jobs && p !in done
    ensures Store(Store(f, Restrict(jobs, done)), map[p := jobs[p]]) == Store(f, Restrict(jobs, done + {p}))
  {
    var g, h := Store(Store(f, Restrict(jobs, done)), map[p := jobs[p]]), Store(f, Restrict(jobs, done + {p}));
    assert g.history.Keys == h.history.Keys;
    forall d | d in g.history ensures g.history[d] == h.history[d] {
    }
    assert g.history == h.history;
  }

  /** The writes at once, with what the devices did sorted around them. */
  lemma {:induction false} WritesAtOnce(f: Fleet, jobs: map<Agent, Bundle>, ms: seq<Micro>) returns (pre: seq<Action>, post: seq<Action>)
    requires IsMicroRun(f, jobs, ms)
    ensures IsRun(f, pre) && DeviceRun(pre) && StepsOf(post, Written(ms)) && Written(ms) <= jobs.Keys
    ensures var g := Store(After(f, pre), Restrict(jobs, Written(ms))); IsRun(g, post) && After(g, post) == MicroEnd(f, jobs, ms)
  {
    hide Do, Enabled, Store, IsRun, After;
    if ms == [] {
      pre, post := [], [];
      NothingRun(f);
      StoreNothing(f, jobs);
    } else {
      var n := |ms| - 1;
      pre, post := WritesAtOnce(f, jobs, ms[..n]);
      var done := Written(ms[..n]);
      var g := Store(After(f, pre), Restrict(jobs, done));
      NothingRun(g);
      match ms[n]
      case Write(p) =>
        StoreTwice(After(f, pre), jobs, done, p);
        StoreRun(g, post, map[p := jobs[p]]);
      case Device(x) =>
        assert done + {} == done;
        if x.agent in done {
          OneMoreStep(g, post, x);
          post := post + [x];
        } else {
          SwapRun(g, post, x);
          SwapStore(After(f, pre), x, Restrict(jobs, done));
          OneMoreStep(f, pre, x);
          pre := pre + [x];
        }
    }
  }

  lemma NothingRun(f: Fleet)
    ensures IsRun(f, []) && After(f, []) == f
  {
  }

  lemma StoreNothing(f: Fleet, jobs: map<Agent, Bundle>)
    ensures Store(f, Restrict(jobs, {})) == f
  {
    assert Store(f, Restrict(jobs, {})).history == f.history;
  }

  /** The same where the call minted or deleted at the gateway before its first write. */
  lemma CallAtOnce(f: Fleet, live: map<Alias, Key>, issued: map<Key, Alias>, jobs: map<Agent, Bundle>, ms: seq<Micro>)
      returns (pre: seq<Action>, post: seq<Action>)
    requires IsMicroRun(f.(live := live, issued := issued), jobs, ms)
    ensures IsRun(f, pre) && DeviceRun(pre) && DeviceRun(post) && Written(ms) <= jobs.Keys
    ensures var g := After(f, pre);
            g == f.(devices := g.devices, reports := g.reports) &&
            var h := Store(g.(live := live, issued := issued), Restrict(jobs, Written(ms)));
            IsRun(h, post) && After(h, post) == MicroEnd(f.(live := live, issued := issued), jobs, ms)
  {
    hide IsRun, After, Store;
    var m := f.(live := live, issued := issued);
    pre, post := WritesAtOnce(m, jobs, ms);
    BlindRun(m, pre, f.live, f.issued, f.rows);
    assert Around(m, f.live, f.issued, f.rows) == f;
    var g, k := After(f, pre), After(m, pre);
    assert k == g.(live := live, issued := issued);
  }

  /** Two states that differ in devices and reports only. */
  predicate SameCentre(f: Fleet, g: Fleet) { g == f.(devices := g.devices, reports := g.reports) }

  lemma SameOverlaps(f: Fleet, g: Fleet, a: Agent, k: Key)
    requires SameCentre(f, g)
    ensures OverlapJobs(g, a, k, CurrentIdentity(g, a)) == OverlapJobs(f, a, k, CurrentIdentity(f, a))
  {
    assert forall p :: Known(f, p) == Known(g, p);
    assert forall p :: Known(f, p) ==> Last(f, p) == Last(g, p);
    assert forall p :: IsReferencing(f, a, p) == IsReferencing(g, a, p);
    assert forall p :: Known(f, p) ==> OverlapDoc(g, p, a, k, CurrentIdentity(f, a)) == OverlapDoc(f, p, a, k, CurrentIdentity(f, a));
  }

  lemma {:induction false} SameReferencing(f: Fleet, g: Fleet, a: Agent, order: seq<Agent>)
    requires SameCentre(f, g)
    ensures ReferencingList(g, a, order) == ReferencingList(f, a, order)
  {
    if order != [] {
      var n := |order| - 1;
      SameReferencing(f, g, a, order[..n]);
      assert IsReferencing(f, a, order[n]) == IsReferencing(g, a, order[n]);
    }
  }

  lemma SameIdentityRowOf(f: Fleet, g: Fleet, a: Agent, k: Key)
    requires SameCentre(f, g) && CanStartIdentity(f, a, k)
    ensures CanStartIdentity(g, a, k) && NextSuffix(g, A2aIdentity, a) == NextSuffix(f, A2aIdentity, a) && IdentityRow(g, a, k) == IdentityRow(f, a, k)
  {
    hide ReferencingList, IsReferencing;
    SameReferencing(f, g, a, f.order);
    var peers := ReferencingList(f, a, f.order);
    assert forall p :: Versions(f, p) == Versions(g, p);
    assert Ledger(g, peers) == Ledger(f, peers);
  }

  lemma ThreeParts(f: Fleet, pre: seq<Action>, x: Action, post: seq<Action>)
    requires IsRun(f, pre) && Enabled(After(f, pre), x) && IsRun(Do(After(f, pre), x), post)
    ensures IsRun(f, pre + [x] + post) && After(f, pre + [x] + post) == After(Do(After(f, pre), x), post)
  {
    hide IsRun, After, Enabled, Do;
    OneMoreStep(f, pre, x);
    RunConcat(f, pre + [x], post);
  }

  // ------------------------------------------------------------------------ a start

  /**
   * A start, delivery by delivery.  However far it has got, the state is that of a run with one start that
   * stopped there, so whatever holds in every state of every run holds between any two deliveries.
   */
  lemma StartMidway(f: Fleet, a: Agent, k: Key, ms: seq<Micro>) returns (pre: seq<Action>, post: seq<Action>)
    requires CanStartIdentity(f, a, k)
    requires IsMicroRun(Mint(f, MeshRotation(a, NextSuffix(f, A2aIdentity, a).value), k), OverlapJobs(f, a, k, CurrentIdentity(f, a)), ms)
    ensures DeviceRun(pre) && DeviceRun(post)
    ensures var m := Mint(f, MeshRotation(a, NextSuffix(f, A2aIdentity, a).value), k);
            var xs := pre + [AStartIdentityLost(a, k, Written(ms))] + post;
            IsRun(f, xs) && After(f, xs) == MicroEnd(m, OverlapJobs(f, a, k, CurrentIdentity(f, a)), ms)
  {
    hide IsRun, After, Store, NextSuffix, CanStartIdentity, OverlapJobs, MicroEnd, IsMicroRun;
    CanSuffix(f, a, k);
    var alias := MeshRotation(a, NextSuffix(f, A2aIdentity, a).value);
    pre, post := CallAtOnce(f, f.live[alias := k], f.issued[k := alias], OverlapJobs(f, a, k, CurrentIdentity(f, a)), ms);
    var g := After(f, pre);
    SameIdentityRowOf(f, g, a, k);
    SameOverlaps(f, g, a, k);
    ThreeParts(f, pre, AStartIdentityLost(a, k, Written(ms)), post);
  }

  /** And once every peer is written and the row inserted, it is a run with the start in one piece. */
  lemma StartInterleaved(f: Fleet, a: Agent, k: Key, ms: seq<Micro>) returns (pre: seq<Action>, post: seq<Action>)
    requires CanStartIdentity(f, a, k)
    requires IsMicroRun(Mint(f, MeshRotation(a, NextSuffix(f, A2aIdentity, a).value), k), OverlapJobs(f, a, k, CurrentIdentity(f, a)), ms)
    requires Written(ms) == OverlapJobs(f, a, k, CurrentIdentity(f, a)).Keys
    ensures DeviceRun(pre) && DeviceRun(post)
    ensures var m := MicroEnd(Mint(f, MeshRotation(a, NextSuffix(f, A2aIdentity, a).value), k), OverlapJobs(f, a, k, CurrentIdentity(f, a)), ms);
            var xs := pre + [AStartIdentity(a, k)] + post;
            IsRun(f, xs) && After(f, xs) == m.(rows := m.rows + [IdentityRow(f, a, k)])
  {
    hide IsRun, After, Store, NextSuffix, CanStartIdentity, OverlapJobs, MicroEnd, IsMicroRun, IdentityRow;
    CanSuffix(f, a, k);
    var alias := MeshRotation(a, NextSuffix(f, A2aIdentity, a).value);
    var jobs := OverlapJobs(f, a, k, CurrentIdentity(f, a));
    pre, post := CallAtOnce(f, f.live[alias := k], f.issued[k := alias], jobs, ms);
    var g := After(f, pre);
    SameIdentityRowOf(f, g, a, k);
    SameOverlaps(f, g, a, k);
    assert Restrict(jobs, Written(ms)) == jobs;
    var h := Store(Mint(g, alias, k), jobs);
    StoreFields(Mint(g, alias, k), jobs);
    BlindRun(h, post, h.live, h.issued, h.rows + [IdentityRow(f, a, k)]);
    ThreeParts(f, pre, AStartIdentity(a, k), post);
  }

  // ------------------------------------------------------------- revocation and cleanup

  lemma SameCleanups(f: Fleet, g: Fleet, i: nat)
    requires SameCentre(f, g) && i < |f.rows|
    ensures CleanupJobs(g, f.rows[i].peers, f.rows[i].agent) == CleanupJobs(f, f.rows[i].peers, f.rows[i].agent)
    ensures Revoke(g, i) == g.(live := Revoke(f, i).live) && Revoke(f, i) == f.(live := Revoke(f, i).live)
  {
    hide CleanupJobs;
    SameHistoryJobs(f, g, f.rows[i].peers, f.rows[i].agent);
  }

  lemma CleanupMidway(f: Fleet, i: nat, ms: seq<Micro>) returns (pre: seq<Action>, post: seq<Action>)
    requires CanRevoke(f, i) && IsMicroRun(Revoke(f, i), CleanupJobs(f, f.rows[i].peers, f.rows[i].agent), ms)
    ensures DeviceRun(pre) && DeviceRun(post)
    ensures var xs := pre + [ACleanupLost(i, Written(ms))] + post;
            IsRun(f, xs) && After(f, xs) == MicroEnd(Revoke(f, i), CleanupJobs(f, f.rows[i].peers, f.rows[i].agent), ms)
  {
    hide IsRun, After, Store, CleanupJobs, Revoke, MicroEnd, IsMicroRun;
    SameCleanups(f, f, i);
    pre, post := CallAtOnce(f, Revoke(f, i).live, f.issued, CleanupJobs(f, f.rows[i].peers, f.rows[i].agent), ms);
    SameCleanups(f, After(f, pre), i);
    ThreeParts(f, pre, ACleanupLost(i, Written(ms)), post);
  }

  /** The last stage of an identity rotation: the delete, every cleanup, and the update that closes the row. */
  lemma CompleteInterleaved(f: Fleet, i: nat, ms: seq<Micro>) returns (pre: seq<Action>, post: seq<Action>)
    requires CanRevoke(f, i) && f.rows[i].kind.A2aIdentity?
    requires IsMicroRun(Revoke(f, i), CleanupJobs(f, f.rows[i].peers, f.rows[i].agent), ms)
    requires Written(ms) == CleanupJobs(f, f.rows[i].peers, f.rows[i].agent).Keys
    ensures DeviceRun(pre) && DeviceRun(post)
    ensures var m := MicroEnd(Revoke(f, i), CleanupJobs(f, f.rows[i].peers, f.rows[i].agent), ms);
            var xs := pre + [AComplete(i)] + post;
            IsRun(f, xs) && |m.rows| == |f.rows| &&
            After(f, xs) == SetRow(m, i, f.rows[i].(status := Completed, oldToken := "", newToken := "", failed := false))
  {
    hide IsRun, After, Store, CleanupJobs, Revoke, MicroEnd, IsMicroRun;
    SameCleanups(f, f, i);
    var jobs := CleanupJobs(f, f.rows[i].peers, f.rows[i].agent);
    pre, post := CallAtOnce(f, Revoke(f, i).live, f.issued, jobs, ms);
    var g := After(f, pre);
    SameCleanups(f, g, i);
    assert Restrict(jobs, Written(ms)) == jobs;
    var h := Store(Revoke(g, i), jobs);
    StoreFields(Revoke(g, i), jobs);
    var closed := f.rows[i].(status := Completed, oldToken := "", newToken := "", failed := false);
    BlindRun(h, post, h.live, h.issued, h.rows[i := closed]);
    ThreeParts(f, pre, AComplete(i), post);
  }

  // --------------------------------------------------------------- flip, enroll, resync

  /** The flip: devices may act between the target's bundle and the row's update. */
  lemma FlipInterleaved(f: Fleet, i: nat, post: seq<Action>)
    requires CanFlip(f, i) && DeviceRun(post) && IsRun(FlipBundle(f, i), post)
    ensures var m := After(FlipBundle(f, i), post);
            |m.rows| == |f.rows| && IsRun(f, [AFlip(i)] + post) &&
            After(f, [AFlip(i)] + post) == SetRow(m, i, f.rows[i].(status := AwaitingTarget, newVersion := Versions(f, f.rows[i].agent) + 1))
  {
    hide IsRun, After, FlipBundle;
    FlipBundleFields(f, i);
    var g := FlipBundle(f, i);
    BlindRun(g, post, g.live, g.issued, Flip(f, i).rows);
    OneStep(f, AFlip(i));
    RunConcat(f, [AFlip(i)], post);
  }

  lemma SameTokens(f: Fleet, g: Fleet, x: Agent)
    requires SameCentre(f, g)
    ensures forall p :: Known(f, p) == Known(g, p) && (Known(f, p) ==> Last(f, p) == Last(g, p))
    ensures forall p :: CurrentIdentity(f, p) == CurrentIdentity(g, p) && TokenFor(f, p) == TokenFor(g, p) && OverlapFor(f, p) == OverlapFor(g, p)
    ensures MeshPeers(f, x) == MeshPeers(g, x)
  {
  }

  lemma SameEnroll(f: Fleet, g: Fleet, x: Agent, url: string, k: Key)
    requires SameCentre(f, g) && Known(f, x)
    ensures EnrollJobs(g, x, url, k) == EnrollJobs(f, x, url, k) && EnrollMints(g, x) == EnrollMints(f, x)
    ensures Enabled(f, AEnroll(x, url, k, {})) ==> forall r :: Enabled(g, AEnroll(x, url, k, r))
  {
    hide PeerDoc, EnrolledDoc, TokenFor, OverlapFor, CurrentIdentity;
    SameTokens(f, g, x);
    SameEnrolledDoc(f, g, x, EnrollKey(f, x, k), url);
    forall p | Known(f, p) ensures PeerDoc(g, p, x, EnrollKey(f, x, k)) == PeerDoc(f, p, x, EnrollKey(f, x, k)) { SamePeerDoc(f, g, p, x, EnrollKey(f, x, k)); }
    assert EnrollJobs(g, x, url, k).Keys == EnrollJobs(f, x, url, k).Keys;
  }

  lemma SamePeerDoc(f: Fleet, g: Fleet, p: Agent, x: Agent, k: Key)
    requires SameCentre(f, g) && Known(f, p)
    ensures PeerDoc(g, p, x, k) == PeerDoc(f, p, x, k)
  {
  }

  lemma SameEnrolledDoc(f: Fleet, g: Fleet, x: Agent, k: Key, url: string)
    requires SameCentre(f, g) && Known(f, x) && MeshPeers(f, x) == MeshPeers(g, x)
    ensures EnrolledDoc(g, x, k, url) == EnrolledDoc(f, x, k, url)
  {
    hide MeshPeers, Render, TokenFor, OverlapFor;
    SameTokens(f, g, x);
    SamePeerList(f, g, x, f.order);
    var peers := MeshPeers(f, x);
    assert (map c | c in peers :: TokenFor(f, c)) == (map c | c in peers :: TokenFor(g, c));
    assert (map c | c in peers && OverlapFor(f, c) != "" :: OverlapFor(f, c)) == (map c | c in peers && OverlapFor(g, c) != "" :: OverlapFor(g, c));
  }

  lemma {:induction false} SamePeerList(f: Fleet, g: Fleet, x: Agent, order: seq<Agent>)
    requires MeshPeers(f, x) == MeshPeers(g, x)
    ensures MeshPeerList(g, x, order) == MeshPeerList(f, x, order)
  {
    hide MeshPeers;
    if order != [] { SamePeerList(f, g, x, order[..|order| - 1]); }
  }

  /** An enroll, merge by merge. */
  lemma EnrollInterleaved(f: Fleet, x: Agent, url: string, k: Key, ms: seq<Micro>) returns (pre: seq<Action>, post: seq<Action>)
    requires Enabled(f, AEnroll(x, url, k, {}))
    requires IsMicroRun(if EnrollMints(f, x) then Mint(f, MeshBase(x), k) else f, EnrollJobs(f, x, url, k), ms)
    ensures DeviceRun(pre) && DeviceRun(post)
    ensures var xs := pre + [AEnroll(x, url, k, Written(ms))] + post;
            IsRun(f, xs) && After(f, xs) == MicroEnd(if EnrollMints(f, x) then Mint(f, MeshBase(x), k) else f, EnrollJobs(f, x, url, k), ms)
  {
    hide IsRun, After, Store, EnrollJobs, MicroEnd, IsMicroRun, EnrollMints;
    var m := if EnrollMints(f, x) then Mint(f, MeshBase(x), k) else f;
    assert m == f.(live := m.live, issued := m.issued);
    pre, post := CallAtOnce(f, m.live, m.issued, EnrollJobs(f, x, url, k), ms);
    SameEnroll(f, After(f, pre), x, url, k);
    ThreeParts(f, pre, AEnroll(x, url, k, Written(ms)), post);
  }

  lemma SameMembers(f: Fleet, g: Fleet)
    requires SameCentre(f, g)
    ensures forall d :: Enrolled(f, d) == Enrolled(g, d) && (Enrolled(f, d) ==> Known(f, d) && Known(g, d) && Last(f, d) == Last(g, d))
    ensures Identities(f) == Identities(g)
  {
    SameTokens(f, g, "");
    assert forall d :: Enrolled(f, d) == Enrolled(g, d);
  }

  lemma SameResync(f: Fleet, g: Fleet, keys: map<Agent, string>)
    requires SameCentre(f, g)
    ensures ResyncJobs(g, f.strict, keys) == ResyncJobs(f, f.strict, keys)
  {
    hide ResyncDoc, Identities, Enrolled;
    SameMembers(f, g);
    EnrolledHasDoc(f);
  }

  lemma EnrolledHasDoc(f: Fleet)
    ensures forall d :: Enrolled(f, d) ==> d in f.history && Known(f, d) && Last(f, d).a2a.Some?
  {
  }

  lemma SameStay(f: Fleet, g: Fleet, keys: map<Agent, string>, reach: set<Agent>)
    requires SameCentre(f, g) && KeysStay(f, keys, reach)
    ensures KeysStay(g, keys, reach)
  {
    hide Enrolled, References, TrustedPeers;
    SameMembers(f, g);
    EnrolledHasDoc(f);
    forall d, i | d in g.history && d in reach && Enrolled(g, d) && 0 <= i < |g.rows|
      ensures g.strict && g.rows[i].kind.A2aIdentity? && g.rows[i].agent != d ==> Stays(g, d, keys, g.rows[i].agent)
    {
      assert g.strict && g.rows[i].kind.A2aIdentity? && g.rows[i].agent != d ==> Stays(f, d, keys, f.rows[i].agent);
    }
  }

  /** A resync, bundle by bundle. */
  lemma ResyncInterleaved(f: Fleet, keys: map<Agent, string>, ms: seq<Micro>) returns (pre: seq<Action>, post: seq<Action>)
    requires IsMicroRun(f, ResyncJobs(f, f.strict, keys), ms) && KeysStay(f, keys, Written(ms))
    ensures DeviceRun(pre) && DeviceRun(post)
    ensures var xs := pre + [AResync(keys, Written(ms))] + post;
            IsRun(f, xs) && After(f, xs) == MicroEnd(f, ResyncJobs(f, f.strict, keys), ms)
  {
    hide IsRun, After, Store, ResyncJobs, MicroEnd, IsMicroRun, KeysStay;
    assert f.(live := f.live, issued := f.issued) == f;
    pre, post := CallAtOnce(f, f.live, f.issued, ResyncJobs(f, f.strict, keys), ms);
    var g := After(f, pre);
    assert g.(live := f.live, issued := f.issued) == g;
    SameResync(f, g, keys);
    SameStay(f, g, keys, Written(ms));
    ThreeParts(f, pre, AResync(keys, Written(ms)), post);
  }
}
