/** The delivery plane: stored bundles and slots, changed by rotations, re-arms and bootstraps in any order. */
module Delivery {
  import opened A2aDoc
  import opened Slots
  import opened Bundles

  type Uuid = string

  /** An identity_blobs row: the bundle and the version column beside it. */
  datatype Blob = Blob(bundle: IdentityBundle, version: nat)

  /**
   * `devices` are the known rows.  `delivered` (the version last handed out) and `consumes` (successful
   * consumes) are history: no operation reads them.
   */
  datatype Plane = Plane(
    devices: set<Uuid>, blobs: map<Uuid, Blob>, slots: map<Uuid, Slot>,
    delivered: map<Uuid, nat>, consumes: map<Uuid, nat>)

  function Count(m: map<Uuid, nat>, d: Uuid): nat { if d in m then m[d] else 0 }

  function Current(s: Plane, d: Uuid): Option<IdentityBundle> {
    if d in s.blobs then Some(s.blobs[d].bundle) else None
  }

  function VersionOf(s: Plane, d: Uuid): nat { if d in s.blobs then s.blobs[d].version else 0 }

  // -------------------------------------------------------------------- transactions

  function WithSlot(s: Plane, d: Uuid): Plane {
    if d in s.slots then s else s.(slots := s.slots[d := NEW_SLOT])
  }

  function ArmedFor(s: Plane, d: Uuid): Plane {
    s.(slots := s.slots[d := if d in s.slots then ArmSlot(s.slots[d]) else NEW_SLOT])
  }

  /** rotateBundle: bundle write and arming land together or not at all. */
  function Rotated(s: Plane, d: Uuid, input: Input): Plane {
    var next := NextBundle(Current(s, d), input);
    if next.Err? then s
    else ArmedFor(s.(blobs := s.blobs[d := Blob(next.value, next.value.version)]), d)
  }

  function Rearmed(s: Plane, d: Uuid): Plane {
    if d in s.slots || d in s.devices then ArmedFor(s, d) else s
  }

  datatype Reply =
    | Delivered(bundle: IdentityBundle, version: nat, at: int)
    | TooEarly(retryAfter: nat)
    | NoBundle

  function Consumed(s: Plane, d: Uuid, slot: Slot): Plane {
    s.(slots := s.slots[d := slot], consumes := s.consumes[d := Count(s.consumes, d) + 1])
  }

  /** /v1/bootstrap after authentication: the consume commits even when there is no bundle to deliver. */
  function Bootstrapped(s: Plane, d: Uuid, now: int): (Plane, Reply) {
    var e := WithSlot(s, d);
    var slot := ConsumeSlot(e.slots[d], now);
    if slot.None? then
      var r := RetryAfterSeconds(ReadSlot(e.slots[d]), now);
      (e, TooEarly(if r.Some? then r.value else 1))
    else
      var c := Consumed(e, d, slot.value);
      if d !in c.blobs then (c, NoBundle)
      else (c.(delivered := c.delivered[d := c.blobs[d].version]), Delivered(c.blobs[d].bundle, c.blobs[d].version, now))
  }

  // ---------------------------------------------------------------------------- runs

  datatype Event = Rotate(d: Uuid, input: Input) | Rearm(d: Uuid) | Bootstrap(d: Uuid, now: int)

  function Step(s: Plane, e: Event): Plane {
    match e
    case Rotate(d, input) => Rotated(s, d, input)
    case Rearm(d) => Rearmed(s, d)
    case Bootstrap(d, now) => Bootstrapped(s, d, now).0
  }

  function Run(s: Plane, es: seq<Event>): Plane {
    if es == [] then s else Step(Run(s, es[..|es| - 1]), es[|es| - 1])
  }

  const EMPTY_PLANE := Plane({}, map[], map[], map[], map[])

  /** A bundle not yet handed out waits behind an armed slot; slots count their consumes. */
  ghost predicate DeviceOk(s: Plane, d: Uuid) {
    (d in s.slots ==> SlotOk(s.slots[d])) &&
    Count(s.consumes, d) == (if d in s.slots then s.slots[d].count else 0) &&
    (d in s.blobs ==> s.blobs[d].version == s.blobs[d].bundle.version && BundleOk(s.blobs[d].bundle) && d in s.slots) &&
    Count(s.delivered, d) <= VersionOf(s, d) &&
    (d in s.blobs && Count(s.delivered, d) != VersionOf(s, d) ==> s.slots[d].armed)
  }

  ghost predicate PlaneOk(s: Plane) {
    forall d :: DeviceOk(s, d)
  }

  lemma RotateKeepsPlane(s: Plane, d: Uuid, input: Input, other: Uuid)
    requires DeviceOk(s, d) && DeviceOk(s, other)
    ensures DeviceOk(Rotated(s, d, input), other)
  {
    NextIsNumbered(Current(s, d), input);
    hide NextBundle, BundleOk;
  }

  lemma NextIsNumbered(current: Option<IdentityBundle>, input: Input)
    ensures NextBundle(current, input).Ok? ==> NextBundle(current, input).value.version == NextVersion(current) && BundleOk(NextBundle(current, input).value)
  {
  }

  lemma BootstrapKeepsPlane(s: Plane, d: Uuid, now: int, other: Uuid)
    requires DeviceOk(s, d) && DeviceOk(s, other)
    ensures DeviceOk(Bootstrapped(s, d, now).0, other)
  {
    if d in s.slots { SlotsStayOk(s.slots[d], now); }
    SlotsStayOk(NEW_SLOT, now);
  }

  lemma StepKeepsPlane(s: Plane, e: Event)
    requires PlaneOk(s)
    ensures PlaneOk(Step(s, e))
  {
    hide Rotated, Bootstrapped;
    forall d ensures DeviceOk(Step(s, e), d) {
      match e
      case Rotate(x, input) => RotateKeepsPlane(s, x, input, d);
      case Rearm(x) => assert DeviceOk(s, d) && DeviceOk(s, x);
      case Bootstrap(x, now) => BootstrapKeepsPlane(s, x, now, d);
    }
  }

  predicate IsRotation(s: Plane, e: Event, d: Uuid) {
    e.Rotate? && e.d == d && NextBundle(Current(s, d), e.input).Ok?
  }

  /** How many rotations of d took effect. */
  function Rotations(s: Plane, es: seq<Event>, d: Uuid): nat {
    if es == [] then 0
    else
      var n := |es| - 1;
      Rotations(s, es[..n], d) + (if IsRotation(Run(s, es[..n]), es[n], d) then 1 else 0)
  }

  /**
   * No bundle version is lost.  Whatever the interleaving, a stored version that is not the one last
   * delivered finds its slot armed; versions rise by exactly one per effective rotation and by nothing
   * else; and delivery_count is the number of successful consumes.
   */
  lemma {:induction false} NoVersionLost(s: Plane, es: seq<Event>)
    requires PlaneOk(s)
    ensures PlaneOk(Run(s, es))
    ensures forall d :: VersionOf(Run(s, es), d) == VersionOf(s, d) + Rotations(s, es, d)
    ensures forall d :: d in Run(s, es).blobs && Count(Run(s, es).delivered, d) != VersionOf(Run(s, es), d) ==>
              d in Run(s, es).slots && Run(s, es).slots[d].armed
    ensures forall d :: d in Run(s, es).slots ==> Run(s, es).slots[d].count == Count(Run(s, es).consumes, d)
  {
    if es != [] {
      var n := |es| - 1;
      var r := Run(s, es[..n]);
      NoVersionLost(s, es[..n]);
      StepKeepsPlane(r, es[n]);
      forall d ensures VersionOf(Run(s, es), d) == VersionOf(s, d) + Rotations(s, es, d) { VersionStep(r, es[n], d); }
    }
    var g := Run(s, es);
    forall d | d in g.slots || d in g.blobs
      ensures (d in g.slots ==> g.slots[d].count == Count(g.consumes, d)) &&
              (d in g.blobs && Count(g.delivered, d) != VersionOf(g, d) ==> d in g.slots && g.slots[d].armed)
    {
      assert DeviceOk(g, d);
    }
  }

  lemma VersionStep(s: Plane, e: Event, d: Uuid)
    requires PlaneOk(s)
    ensures VersionOf(Step(s, e), d) == VersionOf(s, d) + (if IsRotation(s, e, d) then 1 else 0)
  {
    assert DeviceOk(s, d);
    if e.Rotate? { NextIsNumbered(Current(s, e.d), e.input); }
    hide NextBundle;
  }

  /** The consume of a bootstrap that finds no bundle is counted although nothing is delivered. */
  lemma CountIsNotDeliveries(d: Uuid, now: int)
    ensures var g := Run(EMPTY_PLANE, [Bootstrap(d, now)]);
            PlaneOk(g) && Bootstrapped(EMPTY_PLANE, d, now).1.NoBundle? && g.slots[d].count == 1 && d !in g.delivered
  {
    assert [Bootstrap(d, now)][..0] == [];
    NoVersionLost(EMPTY_PLANE, [Bootstrap(d, now)]);
  }

  // -------------------------------------------------------------------- one delivery

  /** How long a delivery to d keeps its slot spent: an hour for a slot made on the way. */
  function WindowOf(s: Plane, d: Uuid): int { if d in s.slots then s.slots[d].rearmAfter else 3_600_000 }

  /** Nobody rotates or re-arms d, and whoever else bootstraps it comes before the window ends. */
  ghost predicate LeavesSpent(es: seq<Event>, d: Uuid, until: int) {
    forall e :: e in es && e.d == d ==> e.Bootstrap? && e.now < until
  }

  /** The slot was consumed at this time and not touched since. */
  ghost predicate SpentAt(s: Plane, d: Uuid, t: int, window: int) {
    d in s.slots && !s.slots[d].armed && s.slots[d].deliveredAt == Some(t) && s.slots[d].rearmAfter == window
  }

  lemma {:induction false} StaysSpent(s: Plane, d: Uuid, t: int, window: int, es: seq<Event>)
    requires SpentAt(s, d, t, window) && LeavesSpent(es, d, t + window)
    ensures SpentAt(Run(s, es), d, t, window)
  {
    hide Run, Step, SpentAt;
    RunUnfold(s, es);
    if es != [] {
      var n := |es| - 1;
      assert es == es[..n] + [es[n]] && es[n] in es;
      StaysSpent(s, d, t, window, es[..n]);
      SpentStep(Run(s, es[..n]), es[n], d, t, window);
    }
  }

  lemma SpentStep(s: Plane, e: Event, d: Uuid, t: int, window: int)
    requires SpentAt(s, d, t, window) && (e.d == d ==> e.Bootstrap? && e.now < t + window)
    ensures SpentAt(Step(s, e), d, t, window)
  {
    hide NextBundle;
  }

  /**
   * A successful call spends the slot: however many calls follow, and whatever happens to other devices, the
   * next one is refused exactly if it comes before the window has passed.
   */
  lemma DeliveredOnce(s: Plane, d: Uuid, t: int, es: seq<Event>, later: int)
    requires !Bootstrapped(s, d, t).1.TooEarly? && LeavesSpent(es, d, t + WindowOf(s, d))
    ensures Bootstrapped(Run(Bootstrapped(s, d, t).0, es), d, later).1.TooEarly? <==> later < t + WindowOf(s, d)
  {
    hide Run;
    var p := Bootstrapped(s, d, t).0;
    SpentUntilRearmed(if d in s.slots then s.slots[d] else NEW_SLOT, t);
    assert SpentAt(p, d, t, WindowOf(s, d));
    StaysSpent(p, d, t, WindowOf(s, d), es);
  }

  /** A rotation that takes effect, or a re-arm of a known device, opens the slot at once; a re-arm of an unknown one does nothing. */
  lemma ArmingDelivers(s: Plane, e: Event, now: int)
    requires IsRotation(s, e, e.d) || (e.Rearm? && (e.d in s.devices || e.d in s.slots))
    ensures var g := Step(s, e); var r := Bootstrapped(g, e.d, now).1;
            (if e.d in g.blobs then r == Delivered(g.blobs[e.d].bundle, g.blobs[e.d].version, now) else r == NoBundle) &&
            e.d in g.slots && g.slots[e.d].armed &&
            forall x :: x != e.d ==>
              (x in g.slots <==> x in s.slots) && (x in s.slots ==> g.slots[x] == s.slots[x]) &&
              (x in g.blobs <==> x in s.blobs) && (x in s.blobs ==> g.blobs[x] == s.blobs[x])
  {
    hide NextBundle;
  }

  lemma UnknownIsNotArmed(s: Plane, d: Uuid)
    requires d !in s.devices && d !in s.slots
    ensures Step(s, Rearm(d)) == s
  {
  }

  // ----------------------------------------------------------------- bounded retry

  const MAX_ATTEMPTS := 5

  /**
   * bootstrapWithRetry from one attempt on.  `others(k)` is what anyone else does between attempt k and
   * the next, `slack(k)` how much longer than asked the device slept.
   */
  function Retried(s: Plane, d: Uuid, t: int, attempt: nat, slack: nat -> nat, others: nat -> seq<Event>)
    : (r: (Plane, Option<IdentityBundle>, nat))
    requires 1 <= attempt <= MAX_ATTEMPTS
    ensures attempt <= r.2 <= MAX_ATTEMPTS
    decreases MAX_ATTEMPTS - attempt
  {
    var (p, reply) := Bootstrapped(s, d, t);
    match reply
    case Delivered(b, _, _) => (p, Some(b), attempt)
    case NoBundle => (p, None, attempt)
    case TooEarly(r) =>
      if attempt == MAX_ATTEMPTS then (p, None, attempt)
      else Retried(Run(p, others(attempt)), d, t + 1000 * (if r < 1 then 1 else r) + slack(attempt), attempt + 1, slack, others)
  }

  lemma RetryUnfold(s: Plane, d: Uuid, t: int, attempt: nat, slack: nat -> nat, others: nat -> seq<Event>)
    requires 1 <= attempt <= MAX_ATTEMPTS
    ensures var (p, reply) := Bootstrapped(s, d, t);
            Retried(s, d, t, attempt, slack, others) ==
              if reply.Delivered? then (p, Some(reply.bundle), attempt)
              else if reply.NoBundle? || attempt == MAX_ATTEMPTS then (p, None, attempt)
              else Retried(Run(p, others(attempt)), d, t + 1000 * (if reply.retryAfter < 1 then 1 else reply.retryAfter) + slack(attempt),
                           attempt + 1, slack, others)
  {
    hide Bootstrapped, Run;
    var (p, reply) := Bootstrapped(s, d, t);
    match reply {
      case Delivered(_, _, _) =>
      case NoBundle =>
      case TooEarly(_) =>
    }
  }

  /** A device without its bundle found none stored, or was refused five times in a row. */
  lemma {:induction false} GivesUpAfterFive(s: Plane, d: Uuid, t: int, attempt: nat, slack: nat -> nat, others: nat -> seq<Event>)
    requires 1 <= attempt <= MAX_ATTEMPTS
    ensures var (p, bundle, attempts) := Retried(s, d, t, attempt, slack, others);
            attempts <= 5 && (bundle.None? ==> attempts == 5 || d !in p.blobs) && (bundle.Some? ==> d in p.blobs && bundle == Some(p.blobs[d].bundle))
    decreases MAX_ATTEMPTS - attempt
  {
    hide Run, Retried;
    RetryUnfold(s, d, t, attempt, slack, others);
    var (p, reply) := Bootstrapped(s, d, t);
    if reply.TooEarly? && attempt < MAX_ATTEMPTS {
      GivesUpAfterFive(Run(p, others(attempt)), d, t + 1000 * (if reply.retryAfter < 1 then 1 else reply.retryAfter) + slack(attempt),
                       attempt + 1, slack, others);
    }
  }

  /** Nobody else bootstraps this device. */
  ghost predicate Uncontended(others: nat -> seq<Event>, d: Uuid) {
    forall k: nat, e :: e in others(k) ==> !(e.Bootstrap? && e.d == d)
  }

  lemma {:induction false} OthersOnlyArm(s: Plane, es: seq<Event>, d: Uuid)
    requires PlaneOk(s) && d in s.blobs && forall e :: e in es ==> !(e.Bootstrap? && e.d == d)
    ensures var g := Run(s, es);
            PlaneOk(g) && d in g.blobs && d in s.slots && d in g.slots && (g.slots[d] == s.slots[d] || g.slots[d] == ArmSlot(s.slots[d]))
  {
    hide Run, Step;
    assert DeviceOk(s, d);
    RunUnfold(s, es);
    if es != [] {
      var n := |es| - 1;
      OthersOnlyArm(s, es[..n], d);
      assert es[n] in es;
      StepKeepsPlane(Run(s, es[..n]), es[n]);
      StepOnlyArms(Run(s, es[..n]), es[n], d);
    }
  }

  lemma RunUnfold(s: Plane, es: seq<Event>)
    ensures Run(s, es) == if es == [] then s else Step(Run(s, es[..|es| - 1]), es[|es| - 1])
  {
  }

  lemma StepOnlyArms(s: Plane, e: Event, d: Uuid)
    requires d in s.blobs && d in s.slots && !(e.Bootstrap? && e.d == d)
    ensures var g := Step(s, e); d in g.blobs && d in g.slots && (g.slots[d] == s.slots[d] || g.slots[d] == ArmSlot(s.slots[d]))
  {
    hide NextBundle;
  }

  /** One attempt against an available slot delivers the stored bundle. */
  lemma AvailableDelivers(s: Plane, d: Uuid, t: int)
    requires PlaneOk(s) && d in s.blobs && d in s.slots && ConsumeSlot(s.slots[d], t).Some?
    ensures var (p, reply) := Bootstrapped(s, d, t);
            PlaneOk(p) && reply == Delivered(s.blobs[d].bundle, s.blobs[d].version, t) &&
            p.blobs == s.blobs && Count(p.delivered, d) == VersionOf(p, d)
  {
    StepKeepsPlane(s, Bootstrap(d, t));
  }

  /** A device alone on its slot has its bundle, the current one, by the second attempt. */
  lemma SecondAttemptDelivers(s: Plane, d: Uuid, t: int, slack: nat -> nat, others: nat -> seq<Event>)
    requires PlaneOk(s) && d in s.blobs && Uncontended(others, d)
    ensures var (p, bundle, attempts) := Retried(s, d, t, 1, slack, others);
            attempts <= 2 && PlaneOk(p) && d in p.blobs && bundle == Some(p.blobs[d].bundle) &&
            bundle.value.version == VersionOf(p, d) == Count(p.delivered, d) && VersionOf(p, d) >= VersionOf(s, d)
  {
    assert DeviceOk(s, d);
    var slot := s.slots[d];
    var (p, reply) := Bootstrapped(s, d, t);
    if ConsumeSlot(slot, t).Some? {
      AvailableDelivers(s, d, t);
      assert DeviceOk(p, d);
    } else {
      RetryAfterExact(slot, t);
      var r := reply.retryAfter;
      var later := t + 1000 * r + slack(1);
      var g := Run(p, others(1));
      assert p == s;
      OthersOnlyArm(p, others(1), d);
      StaysAvailable(slot, t + 1000 * r, later);
      AvailableDelivers(g, d, later);
      NoVersionLost(p, others(1));
      assert DeviceOk(g, d);
    }
  }

  // ----------------------------------------------------------------- the process

  class DeliveryPlane {
    var devices: set<Uuid>
    var blobs: map<Uuid, Blob>
    var slots: map<Uuid, Slot>
    ghost var delivered: map<Uuid, nat>
    ghost var consumes: map<Uuid, nat>

    ghost function State(): Plane
      reads this
    {
      Plane(devices, blobs, slots, delivered, consumes)
    }

    constructor ()
      ensures State() == EMPTY_PLANE
    {
      devices, blobs, slots, delivered, consumes := {}, map[], map[], map[], map[];
    }

    method EnsureSlot(d: Uuid)
      modifies this`slots
      ensures State() == WithSlot(old(State()), d) && d in slots
    {
      if d !in slots { slots := slots[d := NEW_SLOT]; }
    }

    /** armSlot: one UPDATE, and an insert when it matched no row. */
    method ArmOne(d: Uuid)
      modifies this`slots
      ensures State() == ArmedFor(old(State()), d)
    {
      if d in slots { slots := slots[d := slots[d].(armed := true)]; } else { EnsureSlot(d); }
    }

    method RotateBundle(d: Uuid, input: Input) returns (r: Result<nat>)
      modifies this`blobs, this`slots
      ensures State() == Rotated(old(State()), d, input)
      ensures r == var next := NextBundle(old(Current(State(), d)), input); if next.Ok? then Ok(next.value.version) else Err(next.error)
    {
      var current := if d in blobs then Some(blobs[d].bundle) else None;
      var next := BuildNextBundle(current, input);
      if next.Err? { return Err(next.error); }
      blobs := blobs[d := Blob(next.value, next.value.version)];
      ArmOne(d);
      r := Ok(next.value.version);
    }

    method RearmSlot(d: Uuid) returns (ok: bool)
      modifies this`slots
      ensures State() == Rearmed(old(State()), d) && ok == (d in old(slots) || d in devices)
    {
      if d !in slots && d !in devices { return false; }
      ArmOne(d);
      ok := true;
    }

    /** The bootstrap transaction. */
    method BootstrapOnce(d: Uuid, now: int) returns (reply: Reply)
      modifies this`slots, this`delivered, this`consumes
      ensures (State(), reply) == Bootstrapped(old(State()), d, now)
    {
      EnsureSlot(d);
      var slot := slots[d];
      if slot.armed || (slot.deliveredAt.Some? && slot.deliveredAt.value + slot.rearmAfter <= now) {
        slots := slots[d := slot.(armed := false, deliveredAt := Some(now), count := slot.count + 1)];
        consumes := consumes[d := Count(consumes, d) + 1];
        if d !in blobs { return NoBundle; }
        delivered := delivered[d := blobs[d].version];
        return Delivered(blobs[d].bundle, blobs[d].version, now);
      }
      var retry := RetryAfterSeconds(ReadSlot(slot), now);
      reply := TooEarly(if retry.Some? then retry.value else 1);
    }

    method Perform(es: seq<Event>)
      modifies this`blobs, this`slots, this`delivered, this`consumes
      ensures State() == Run(old(State()), es)
    {
      hide Run, Bootstrapped, Rotated, Rearmed;
      RunUnfold(State(), es[..0]);
      var i := 0;
      while i < |es|
        invariant 0 <= i <= |es| && devices == old(devices) && State() == Run(old(State()), es[..i])
      {
        assert es[..i + 1][..i] == es[..i];
        RunUnfold(old(State()), es[..i + 1]);
        match es[i] {
          case Rotate(d, input) => var _ := RotateBundle(d, input);
          case Rearm(d) => var _ := RearmSlot(d);
          case Bootstrap(d, now) => var _ := BootstrapOnce(d, now);
        }
        i := i + 1;
      }
      assert es[..i] == es;
    }

    /** bootstrapWithRetry against this plane. */
    method BootstrapWithRetry(d: Uuid, start: int, slack: nat -> nat, others: nat -> seq<Event>)
      returns (bundle: Option<IdentityBundle>, attempts: nat)
      modifies this`blobs, this`slots, this`delivered, this`consumes
      ensures (State(), bundle, attempts) == Retried(old(State()), d, start, 1, slack, others)
    {
      hide Bootstrapped, Run, Retried;
      var t := start;
      attempts := 1;
      while true
        invariant 1 <= attempts <= MAX_ATTEMPTS && devices == old(devices)
        invariant Retried(State(), d, t, attempts, slack, others) == Retried(old(State()), d, start, 1, slack, others)
        decreases MAX_ATTEMPTS - attempts
      {
        RetryUnfold(State(), d, t, attempts, slack, others);
        var reply := BootstrapOnce(d, t);
        if reply.Delivered? { return Some(reply.bundle), attempts; }
        if reply.NoBundle? || attempts == MAX_ATTEMPTS { return None, attempts; }
        var wait := if reply.retryAfter < 1 then 1 else reply.retryAfter;
        t := t + 1000 * wait + slack(attempts);
        Perform(others(attempts));
        attempts := attempts + 1;
      }
    }
  }
}
