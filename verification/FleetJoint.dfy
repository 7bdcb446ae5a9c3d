/**
 * One device's process, the delivery plane and the whole fleet in one run: the fleet's actions store bundles
 * through the two merges of a rotation, the process fetches and applies them, and what lies on its volume is
 * what the fleet's theorems speak of.
 */
module FleetJoint {
  import opened A2aDoc
  import opened Text
  import opened Bundles
  import opened EnvFile
  import opened IdentityStore
  import opened BundleView
  import Delivery
  import opened Registrant
  import opened FleetDevice
  import Fleet
  import FleetInvariant
  import FleetSteps
  import FleetSafety
  import FleetTheorems

  /** One device's system beside the fleet it belongs to. */
  datatype Joint = Joint(s: System, f: Fleet.Fleet)

  /** An event of the device's own, one of the plane that stores nothing for it, or an action of the fleet. */
  datatype Step = Own(event: Event) | Plane(e: Delivery.Event) | Act(action: Fleet.Action)

  /** Rendered documents parse to what was rendered. */
  ghost predicate GoodCodec(c: Codec) { forall doc :: c.parse(c.render(doc)) == Some(doc) }

  /** A key that fits on a line of an env file as it is. */
  predicate PlainKey(k: Key) { NoLineEnd(k) && Strip(k) == k }

  predicate MintsModelKey(x: Fleet.Action) { x.AStartModel? || x.AStartModelLost? || x.AProvision? }

  /** The device's own steps are not for anybody else to take. */
  predicate OfDevice(x: Fleet.Action, d: Agent) {
    (x.AFetch? || x.AWriteA2a? || x.AWriteEnv? || x.AWriteSnapshot? || x.AAdopt? || x.AReboot?) && x.agent == d
  }

  ghost predicate CanStep(j: Joint, st: Step) {
    match st
    case Own(x) => Enabled(j.s, x) && !x.Registrar? && (x.LoseMarker? ==> CleanLoss(j.s))
    case Plane(e) => Enabled(j.s, Registrar(e)) && !Delivery.IsRotation(j.s.plane, e, j.s.d)
    case Act(x) => Fleet.Enabled(j.f, x) && !OfDevice(x, j.s.d) && (MintsModelKey(x) ==> PlainKey(x.minted))
  }

  /** The merge that stores a next bundle: one of the rotation's two, by what it changes. */
  function Merging(c: Codec, b: IdentityBundle, next: Fleet.Bundle): Input {
    if next.modelKey == View(c, b).modelKey && next.a2a.Some? then ReplaceOne(b.files, A2A_FILE, c.render(next.a2a.value))
    else ReplaceOne(b.files, ENV_FILE, UpdatedEnv(EnvText(c, b.files), BundleView.GATEWAY_API_KEY, next.modelKey))
  }

  /** The rotation of this device that a fleet action brings with it, if it stores a bundle for it. */
  function Rotation(c: Codec, j: Joint, g: Fleet.Fleet): Option<Delivery.Event> {
    if j.s.hist != [] && Fleet.Versions(g, j.s.d) > Fleet.Versions(j.f, j.s.d)
    then Some(Delivery.Rotate(j.s.d, Merging(c, j.s.hist[|j.s.hist| - 1], Fleet.Last(g, j.s.d)))) else None
  }

  function Rotated(s: System, e: Option<Delivery.Event>): System {
    if e.Some? && Enabled(s, Registrar(e.value)) then Do(s, Registrar(e.value)) else s
  }

  /** The actions a step makes the fleet take. */
  function FleetActs(j: Joint, st: Step): seq<Fleet.Action> {
    match st
    case Own(x) => if Enabled(j.s, x) && j.s.d in j.f.devices then ActsOf(j.s, x, j.f.devices[j.s.d]) else []
    case Plane(_) => []
    case Act(x) => [x]
  }

  function Perform(f: Fleet.Fleet, xs: seq<Fleet.Action>): Fleet.Fleet
    decreases |xs|
  {
    if xs == [] then f else if Fleet.Enabled(f, xs[0]) then Perform(Fleet.Do(f, xs[0]), xs[1..]) else f
  }

  function StepOn(c: Codec, j: Joint, st: Step): Joint {
    var g := Perform(j.f, FleetActs(j, st));
    match st
    case Own(x) => Joint(if Enabled(j.s, x) then Do(j.s, x) else j.s, g)
    case Plane(e) => Joint(Rotated(j.s, Some(e)), g)
    case Act(_) => Joint(Rotated(j.s, Rotation(c, j, g)), g)
  }

  ghost predicate IsJointRun(c: Codec, j: Joint, sts: seq<Step>)
    decreases |sts|
  {
    sts == [] || (CanStep(j, sts[0]) && IsJointRun(c, StepOn(c, j, sts[0]), sts[1..]))
  }

  function End(c: Codec, j: Joint, sts: seq<Step>): Joint
    decreases |sts|
  {
    if sts == [] then j else End(c, StepOn(c, j, sts[0]), sts[1..])
  }

  /** Everything the fleet does along the run, in order. */
  function AllActs(c: Codec, j: Joint, sts: seq<Step>): seq<Fleet.Action>
    decreases |sts|
  {
    if sts == [] then [] else FleetActs(j, sts[0]) + AllActs(c, StepOn(c, j, sts[0]), sts[1..])
  }

  ghost predicate JointOk(c: Codec, j: Joint) {
    ProcessOk(j.s) && Matches(j.s, j.f, b => View(c, b)) && FleetInvariant.Inv(j.f)
  }

  // ---------------------------------------------------------- what an action does to one device

  /** A next bundle differs in its document, or in a model key minted for it. */
  predicate Derived(was: Fleet.Bundle, b: Fleet.Bundle, x: Fleet.Action) {
    (b.modelKey == was.modelKey && b.a2a.Some?) || (b.a2a == was.a2a && MintsModelKey(x) && b.modelKey == x.minted)
  }

  /** At most one bundle more, derived from the last. */
  predicate GrowsBy(f: Fleet.Fleet, g: Fleet.Fleet, d: Agent, x: Fleet.Action) {
    Fleet.Known(f, d) && Fleet.Known(g, d) &&
    (g.history[d] == f.history[d] || (g.history[d] == f.history[d] + [Fleet.Last(g, d)] && Derived(Fleet.Last(f, d), Fleet.Last(g, d), x)))
  }

  lemma StoreGrows(f: Fleet.Fleet, m: Fleet.Fleet, g: Fleet.Fleet, jobs: map<Agent, Fleet.Bundle>, d: Agent, x: Fleet.Action)
    requires m.history == f.history && g.history == Fleet.Store(m, jobs).history && Fleet.Known(f, d)
    requires d in jobs ==> Derived(Fleet.Last(f, d), jobs[d], x)
    ensures GrowsBy(f, g, d, x)
  {
  }

  lemma RegistrarGrows(f: Fleet.Fleet, x: Fleet.Action, d: Agent)
    requires Fleet.Enabled(f, x) && Fleet.Known(f, d) && d in f.devices
    requires x.AEnroll? || x.AStartIdentity? || x.AStartIdentityLost? || MintsModelKey(x)
    ensures GrowsBy(f, Fleet.Do(f, x), d, x) && Fleet.Do(f, x).devices == f.devices
  {
    hide Fleet.NextSuffix, Fleet.EnrolledDoc, Fleet.PeerDoc, Fleet.OverlapDoc, Fleet.MeshPeers, Fleet.IsReferencing, Fleet.IdentityRow, Fleet.ModelRow, GrowsBy, Fleet.Store;
    match x
    case AEnroll(a, url, k, reach) =>
      var m := if Fleet.EnrollMints(f, a) then Fleet.Mint(f, Fleet.MeshBase(a), k) else f;
      FleetSafety.StoreFields(m, Fleet.Restrict(Fleet.EnrollJobs(f, a, url, k), reach));
      StoreGrows(f, m, Fleet.Do(f, x), Fleet.Restrict(Fleet.EnrollJobs(f, a, url, k), reach), d, x);
    case AStartIdentity(a, k) =>
      var m := Fleet.Mint(f, Fleet.MeshRotation(a, Fleet.NextSuffix(f, Fleet.A2aIdentity, a).value), k);
      FleetSafety.StoreFields(m, Fleet.OverlapJobs(f, a, k, Fleet.CurrentIdentity(f, a)));
      StoreGrows(f, m, Fleet.Do(f, x), Fleet.OverlapJobs(f, a, k, Fleet.CurrentIdentity(f, a)), d, x);
    case AStartIdentityLost(a, k, reach) =>
      var m := Fleet.Mint(f, Fleet.MeshRotation(a, Fleet.NextSuffix(f, Fleet.A2aIdentity, a).value), k);
      FleetSafety.StoreFields(m, Fleet.Restrict(Fleet.OverlapJobs(f, a, k, Fleet.CurrentIdentity(f, a)), reach));
      StoreGrows(f, m, Fleet.Do(f, x), Fleet.Restrict(Fleet.OverlapJobs(f, a, k, Fleet.CurrentIdentity(f, a)), reach), d, x);
    case AStartModel(a, k) =>
      var m := Fleet.Mint(f, Fleet.ModelRotation(a, Fleet.NextSuffix(f, Fleet.ModelKey, a).value), k);
      FleetSafety.StoreFields(m, map[a := Fleet.Last(f, a).(modelKey := k)]);
      StoreGrows(f, m, Fleet.Do(f, x), map[a := Fleet.Last(f, a).(modelKey := k)], d, x);
    case AStartModelLost(a, k, reach) =>
      var m := Fleet.Mint(f, Fleet.ModelRotation(a, Fleet.NextSuffix(f, Fleet.ModelKey, a).value), k);
      FleetSafety.StoreFields(m, Fleet.Restrict(map[a := Fleet.Last(f, a).(modelKey := k)], reach));
      StoreGrows(f, m, Fleet.Do(f, x), Fleet.Restrict(map[a := Fleet.Last(f, a).(modelKey := k)], reach), d, x);
    case AProvision(a, k) =>
      var m := Fleet.Mint(f, Fleet.ModelBase(a), k);
      FleetSafety.StoreFields(m, map[a := Fleet.Last(f, a).(modelKey := k)]);
      StoreGrows(f, m, Fleet.Do(f, x), map[a := Fleet.Last(f, a).(modelKey := k)], d, x);
  }

  lemma SweepGrows(f: Fleet.Fleet, x: Fleet.Action, d: Agent)
    requires Fleet.Enabled(f, x) && Fleet.Known(f, d) && d in f.devices
    requires x.AFlip? || x.AFlipLost? || x.AConfirm? || x.ACleanupLost? || x.AComplete? || x.ANoteFailure? || x.AResync?
    ensures GrowsBy(f, Fleet.Do(f, x), d, x) && Fleet.Do(f, x).devices == f.devices
  {
    hide Render, Fleet.ResyncDoc, Fleet.Identities, Fleet.Revoke, GrowsBy, Fleet.Store, Fleet.KeysStay;
    match x
    case AFlip(i) => FlipGrows(f, i, d, x);
    case AFlipLost(i) => FlipGrows(f, i, d, x);
    case AConfirm(_) => SameGrows(f, Fleet.Do(f, x), d, x);
    case ANoteFailure(_) => SameGrows(f, Fleet.Do(f, x), d, x);
    case ACleanupLost(i, reach) =>
      FleetSteps.RevokeSameBundles(f, i);
      var jobs := Fleet.Restrict(Fleet.CleanupJobs(f, f.rows[i].peers, f.rows[i].agent), reach);
      FleetSafety.StoreFields(Fleet.Revoke(f, i), jobs);
      StoreGrows(f, Fleet.Revoke(f, i), Fleet.Do(f, x), jobs, d, x);
    case AComplete(i) =>
      FleetSteps.RevokeSameBundles(f, i);
      var jobs := Fleet.CleanupJobs(f, f.rows[i].peers, f.rows[i].agent);
      FleetSafety.StoreFields(Fleet.Revoke(f, i), jobs);
      if f.rows[i].kind.A2aIdentity? { StoreGrows(f, Fleet.Revoke(f, i), Fleet.Do(f, x), jobs, d, x); } else { SameGrows(f, Fleet.Do(f, x), d, x); }
    case AResync(keys, reach) =>
      var jobs := Fleet.Restrict(Fleet.ResyncJobs(f, f.strict, keys), reach);
      FleetSafety.StoreFields(f, jobs);
      StoreGrows(f, f, Fleet.Do(f, x), jobs, d, x);
  }

  lemma FlipGrows(f: Fleet.Fleet, i: nat, d: Agent, x: Fleet.Action)
    requires i < |f.rows| && Fleet.Known(f, f.rows[i].agent) && Fleet.Known(f, d)
    ensures GrowsBy(f, Fleet.FlipBundle(f, i), d, x) && Fleet.FlipBundle(f, i).devices == f.devices
    ensures forall g: Fleet.Fleet :: g.history == Fleet.FlipBundle(f, i).history ==> GrowsBy(f, g, d, x)
  {
    hide Render;
    var a := f.rows[i].agent;
    StoreGrows(f, f, Fleet.FlipBundle(f, i),
               map[a := Fleet.WithDoc(Fleet.Last(f, a), Render(Fleet.Last(f, a).a2a, NO_UPDATES.(identityKey := Some(f.rows[i].newToken))))], d, x);
  }

  lemma SameGrows(f: Fleet.Fleet, g: Fleet.Fleet, d: Agent, x: Fleet.Action)
    requires g.history == f.history && Fleet.Known(f, d)
    ensures GrowsBy(f, g, d, x)
  {
  }

  lemma DeviceGrows(f: Fleet.Fleet, x: Fleet.Action, d: Agent)
    requires Fleet.Enabled(f, x) && Fleet.Known(f, d) && d in f.devices && !OfDevice(x, d)
    requires x.ACreate? || x.AFetch? || x.AWriteA2a? || x.AWriteEnv? || x.AWriteSnapshot? || x.AAdopt? || x.AReboot? || x.AReport?
    ensures GrowsBy(f, Fleet.Do(f, x), d, x) && d in Fleet.Do(f, x).devices && Fleet.Do(f, x).devices[d] == f.devices[d]
  {
    hide Fleet.Create, Fleet.CanCreate;
    if x.ACreate? { FleetSafety.CreateFields(f, x.agent, x.bundle, x.active); }
  }

  /** What somebody else's action may do to a device: store one bundle for it, and nothing to its volume. */
  lemma ActionOnDevice(f: Fleet.Fleet, x: Fleet.Action, d: Agent)
    requires Fleet.Enabled(f, x) && Fleet.Known(f, d) && d in f.devices && !OfDevice(x, d)
    ensures GrowsBy(f, Fleet.Do(f, x), d, x) && d in Fleet.Do(f, x).devices && Fleet.Do(f, x).devices[d] == f.devices[d]
  {
    hide Fleet.Do, Fleet.Enabled, GrowsBy;
    if x.AEnroll? || x.AStartIdentity? || x.AStartIdentityLost? || MintsModelKey(x) {
      RegistrarGrows(f, x, d);
    } else if x.AFlip? || x.AFlipLost? || x.AConfirm? || x.ACleanupLost? || x.AComplete? || x.ANoteFailure? || x.AResync? {
      SweepGrows(f, x, d);
    } else {
      DeviceGrows(f, x, d);
    }
  }

  // --------------------------------------------------------------- the merge that stores it

  lemma CredentialPaths()
    ensures SafePath(A2A_FILE) && SafePath(ENV_FILE) && A2A_FILE != ENV_FILE
    ensures A2A_FILE != BUNDLE_FILE && ENV_FILE != BUNDLE_FILE && A2A_FILE != READY_MARKER && ENV_FILE != READY_MARKER
  {
    assert forall i :: 0 <= i < |A2A_FILE| - 1 ==> !(A2A_FILE[i] == '.' && A2A_FILE[i + 1] == '.');
    assert forall i :: 0 <= i < |ENV_FILE| - 1 ==> !(ENV_FILE[i] == '.' && ENV_FILE[i + 1] == '.');
    forall i, j | 0 <= i <= j <= |A2A_FILE| ensures A2A_FILE[i..j] != ".." {
      if j == i + 2 { assert A2A_FILE[i..j][0] == A2A_FILE[i] && A2A_FILE[i..j][1] == A2A_FILE[i + 1]; }
    }
    forall i, j | 0 <= i <= j <= |ENV_FILE| ensures ENV_FILE[i..j] != ".." {
      if j == i + 2 { assert ENV_FILE[i..j][0] == ENV_FILE[i] && ENV_FILE[i..j][1] == ENV_FILE[i + 1]; }
    }
    assert |A2A_FILE| != |ENV_FILE|;
  }

  /** Replacing a file of a good bundle by its path gives a good bundle. */
  lemma ReplaceIsOk(b: IdentityBundle, path: string, content: string)
    requires BundleOk(b) && Distinct(b.files) && Clean(b) && SafePath(path) && path != BUNDLE_FILE && path != READY_MARKER
    ensures var r := NextBundle(Some(b), ReplaceOne(b.files, path, content));
            r.Ok? && r.value.version == b.version + 1 && Distinct(r.value.files) && Clean(r.value) &&
            forall q :: Find(b.files, q).Some? ==> Find(r.value.files, q).Some?
  {
    hide SafePath, PutAll, Kept, Find, Newest, Others;
    var f := File(path, content, false);
    var input := ReplaceOne(b.files, path, content);
    KeptIsOthers(b.files, b.files, path);
    assert input.keep == ReplaceOne(b.files, path, "").keep;
    assert Kept(b.files, input.keep) + AsFiles(input.updates) + [] == Others(b.files, path) + [f];
    OthersFind(b.files, path);
    OthersDistinct(b.files, path, f);
    assert NextFiles(Some(b), input) == Others(b.files, path) + [f];
    OtherFilesStay(b, path, content);
    forall q | Find(b.files, q).Some? ensures Find(NextBundle(Some(b), input).value.files, q).Some? { FirstIsLast(b.files, q); }
  }

  lemma MergingIsOk(c: Codec, b: IdentityBundle, next: Fleet.Bundle)
    requires BundleOk(b) && Distinct(b.files) && Clean(b)
    ensures var r := NextBundle(Some(b), Merging(c, b, next));
            r.Ok? && r.value.version == b.version + 1 && Distinct(r.value.files) && Clean(r.value) &&
            forall q :: Find(b.files, q).Some? ==> Find(r.value.files, q).Some?
  {
    hide NextBundle, SafePath, ReplaceOne, BundleOk, Distinct, Clean, UpdatedEnv;
    CredentialPaths();
    if next.modelKey == View(c, b).modelKey && next.a2a.Some? {
      ReplaceIsOk(b, A2A_FILE, c.render(next.a2a.value));
    } else {
      ReplaceIsOk(b, ENV_FILE, UpdatedEnv(EnvText(c, b.files), BundleView.GATEWAY_API_KEY, next.modelKey));
    }
  }

  /** What it stores is seen as the bundle the fleet stores. */
  lemma MergingViews(c: Codec, b: IdentityBundle, next: Fleet.Bundle, x: Fleet.Action)
    requires GoodCodec(c) && BundleOk(b) && Distinct(b.files) && Clean(b) && Derived(View(c, b), next, x) && (MintsModelKey(x) ==> PlainKey(x.minted))
    ensures NextBundle(Some(b), Merging(c, b, next)).Ok? && View(c, NextBundle(Some(b), Merging(c, b, next)).value) == next
  {
    hide NextBundle, ReplaceOne, BundleOk, Distinct, Clean, UpdatedEnv, View, EnvText;
    MergingIsOk(c, b, next);
    if next.modelKey == View(c, b).modelKey && next.a2a.Some? {
      DocReplaced(c, b, next.a2a.value);
    } else {
      ModelKeyReplaced(c, b, next.modelKey);
    }
  }

  lemma SteadyMore(hist: seq<IdentityBundle>, b: IdentityBundle)
    requires hist != [] && Steady(hist) && Distinct(b.files)
    requires forall q :: Find(hist[|hist| - 1].files, q).Some? ==> Find(b.files, q).Some?
    ensures Steady(hist + [b])
  {
    var more := hist + [b];
    forall path, i, j | NeverDrops(hist, path) && 0 <= i <= j < |more| && Find(more[i].files, path).Some?
      ensures Find(more[j].files, path).Some?
    {
      if j == |hist| && i < j { assert Find(hist[|hist| - 1].files, path).Some?; }
    }
  }

  // ------------------------------------------------------------------------- one step

  lemma {:induction false} Performed(f: Fleet.Fleet, xs: seq<Fleet.Action>)
    requires Fleet.IsRun(f, xs)
    ensures Perform(f, xs) == Fleet.After(f, xs)
    decreases |xs|
  {
    hide Fleet.Do, Fleet.Enabled;
    if xs != [] { Performed(Fleet.Do(f, xs[0]), xs[1..]); }
  }

  /** What is stored for the device is what the plane has. */
  lemma PlaneHas(c: Codec, j: Joint)
    requires JointOk(c, j)
    ensures Fleet.Known(j.f, j.s.d) && j.s.d in j.f.devices && j.s.hist != [] && |j.s.hist| == Fleet.Versions(j.f, j.s.d)
    ensures var b := j.s.hist[|j.s.hist| - 1];
            Delivery.Current(j.s.plane, j.s.d) == Some(b) && BundleOk(b) && Clean(b) && Distinct(b.files) && Steady(j.s.hist) &&
            View(c, b) == Fleet.Last(j.f, j.s.d)
  {
    hide CrashSafe, NoNewer, BundleOk, Clean, View, Delivery.PlaneOk, DeviceMatches, JobOk;
    FleetSteps.InvDevice(j.f, j.s.d);
  }

  lemma MatchesSame(s: System, f: Fleet.Fleet, g: Fleet.Fleet, view: IdentityBundle -> Fleet.Bundle)
    requires Matches(s, f, view) && s.d in g.history && s.d in g.devices && g.history[s.d] == f.history[s.d] && g.devices[s.d] == f.devices[s.d]
    ensures Matches(s, g, view)
  {
    hide DeviceMatches;
  }

  /** An action of the fleet, and the rotation it brings with it. */
  lemma ActKeeps(c: Codec, j: Joint, x: Fleet.Action)
    requires GoodCodec(c) && JointOk(c, j) && CanStep(j, Act(x))
    ensures var g := Fleet.Do(j.f, x); var s := Rotated(j.s, Rotation(c, j, g));
            ProcessOk(s) && s.d == j.s.d && Matches(s, g, b => View(c, b))
  {
    hide ProcessOk, Matches, Fleet.Do, Fleet.Enabled, NextBundle, Merging, View, Derived, BundleOk, Clean, Distinct, Steady, Delivery.Bootstrapped;
    var s, f, d := j.s, j.f, j.s.d;
    var g := Fleet.Do(f, x);
    PlaneHas(c, j);
    ActionOnDevice(f, x, d);
    if Rotation(c, j, g).None? {
      MatchesSame(s, f, g, b => View(c, b));
    } else {
      var e := Rotation(c, j, g).value;
      var b := s.hist[|s.hist| - 1];
      MergingIsOk(c, b, Fleet.Last(g, d));
      MergingViews(c, b, Fleet.Last(g, d), x);
      var nb := NextBundle(Some(b), Merging(c, b, Fleet.Last(g, d))).value;
      assert Delivery.IsRotation(s.plane, e, d) && Enabled(s, Registrar(e));
      HistAfter(s, e, nb);
      SteadyMore(s.hist, nb);
      RegistrarKeepsProcess(s, e);
      RotationMatches(s, e, f, b => View(c, b));
      var h := Fleet.Store(f, map[d := View(c, nb)]);
      StoredHere(f, d, View(c, nb));
      SameDevice(s, Registrar(e));
      MatchesSame(Do(s, Registrar(e)), h, g, b => View(c, b));
    }
  }

  lemma HistAfter(s: System, e: Delivery.Event, nb: IdentityBundle)
    requires Delivery.IsRotation(s.plane, e, s.d) && NextBundle(Delivery.Current(s.plane, s.d), e.input).value == nb && Enabled(s, Registrar(e))
    ensures Do(s, Registrar(e)).hist == s.hist + [nb]
  {
    hide NextBundle;
  }

  lemma StoredHere(f: Fleet.Fleet, d: Agent, b: Fleet.Bundle)
    requires Fleet.Known(f, d)
    ensures var h := Fleet.Store(f, map[d := b]); d in h.history && h.history[d] == f.history[d] + [b] && h.devices == f.devices
  {
  }

  lemma StepKeeps(c: Codec, j: Joint, st: Step)
    requires GoodCodec(c) && JointOk(c, j) && CanStep(j, st)
    ensures var g := StepOn(c, j, st);
            JointOk(c, g) && g.s.d == j.s.d && Fleet.IsRun(j.f, FleetActs(j, st)) && g.f == Fleet.After(j.f, FleetActs(j, st))
  {
    hide ProcessOk, Matches, FleetInvariant.Inv, Fleet.Do, Fleet.Enabled, Fleet.IsRun, Fleet.After, CleanLoss, Perform, Rotation;
    match st {
      case Own(x) =>
        var xs := EventIsRun(j.s, x, j.f, b => View(c, b));
        PlaneHas(c, j);
        Performed(j.f, xs);
        FleetSteps.RunKeeps(j.f, xs);
        SameDevice(j.s, x);
      case Plane(e) =>
        EmptyRun(j.f);
        Performed(j.f, []);
        OtherRegistrarEvent(j.s, e, j.f, b => View(c, b));
        PlaneHas(c, j);
        RegistrarKeepsProcess(j.s, e);
        SameDevice(j.s, Registrar(e));
      case Act(x) =>
        FleetSteps.OneStep(j.f, x);
        Performed(j.f, [x]);
        FleetSteps.RunKeeps(j.f, [x]);
        ActKeeps(c, j, x);
    }
  }

  /**
   * The composed run: the fleet goes through exactly the actions its registrar took and those the device's
   * events amount to, in order, each enabled where it happens, with all its rows and its gateway; and at the
   * end the device's volume and process are where the fleet has them.
   */
  lemma {:induction false} JointRun(c: Codec, j: Joint, sts: seq<Step>)
    requires GoodCodec(c) && JointOk(c, j) && IsJointRun(c, j, sts)
    ensures var g := End(c, j, sts);
            JointOk(c, g) && g.s.d == j.s.d && Fleet.IsRun(j.f, AllActs(c, j, sts)) && g.f == Fleet.After(j.f, AllActs(c, j, sts))
    decreases |sts|
  {
    hide JointOk, CanStep, StepOn, FleetActs, GoodCodec, Fleet.Do, Fleet.Enabled;
    if sts == [] {
      EmptyRun(j.f);
    } else {
      StepKeeps(c, j, sts[0]);
      JointRun(c, StepOn(c, j, sts[0]), sts[1..]);
      FleetSteps.RunConcat(j.f, FleetActs(j, sts[0]), AllActs(c, StepOn(c, j, sts[0]), sts[1..]));
    }
  }

  // ----------------------------------------------------------------------- end to end

  /** The document on the volume. */
  function ReadDoc(c: Codec, disk: Disk): Option<A2a> {
    if A2A_FILE in disk && disk[A2A_FILE].Payload? then c.parse(disk[A2A_FILE].content) else None
  }

  lemma VolumeIsOnDisk(c: Codec, j: Joint)
    requires JointOk(c, j)
    ensures ReadDoc(c, j.s.disk) == if FleetSafety.OnDisk(j.f, j.s.d).Some? then FleetSafety.OnDisk(j.f, j.s.d).value.a2a else None
  {
    hide ProcessOk, FleetInvariant.Inv;
    FleetSteps.InvDevice(j.f, j.s.d);
  }

  /**
   * From rotation to volume.  Once device p is served in agent a's rotation, then after any joint run, with
   * its crashes, fetches and rotations, the document that lies on p's volume takes the key a's disk
   * presents, and the gateway holds that key.
   */
  lemma VolumeTakes(c: Codec, j: Joint, sts: seq<Step>, a: Agent)
    requires GoodCodec(c) && JointOk(c, j) && IsJointRun(c, j, sts) && FleetSafety.Served(j.f, a, j.s.d)
    ensures var g := End(c, j, sts); var shown := FleetSafety.OnDisk(g.f, a);
            shown.Some? ==>
              ReadDoc(c, g.s.disk).Some? && Fleet.KeyIsLive(g.f, Fleet.IdentityOf(shown.value)) &&
              FleetSafety.Takes(g.f, Fleet.Bundle(ReadDoc(c, g.s.disk), ""), a, Fleet.IdentityOf(shown.value))
  {
    hide FleetInvariant.Inv, FleetSafety.Served, IsJointRun, End, AllActs, GoodCodec, Fleet.IsRun, Fleet.After, ReadDoc, ProcessOk, Matches;
    JointRun(c, j, sts);
    var g := End(c, j, sts);
    FleetTheorems.NoFailedSends(j.f, AllActs(c, j, sts), a, j.s.d);
    VolumeIsOnDisk(c, g);
  }
}
