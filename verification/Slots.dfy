/** The delivery slot of one device: the stored row, what a caller observes of it, and when it delivers again. */
module Slots {
  import opened A2aDoc

  /** A delivery_slots row.  Times and intervals are milliseconds. */
  datatype Slot = Slot(armed: bool, deliveredAt: Option<int>, rearmAfter: int, count: nat)

  /** The row ensureSlot inserts: the column defaults, with a re-arm window of one hour. */
  const NEW_SLOT := Slot(true, None, 3_600_000, 0)

  datatype State = Armed | Consumed

  datatype Snapshot = Snapshot(state: State, deliveryCount: nat, deliveredAt: Option<int>, rearmsAt: Option<int>)

  function ReadSlot(s: Slot): Snapshot {
    Snapshot(if s.armed then Armed else Consumed, s.count, s.deliveredAt,
             if s.deliveredAt.Some? then Some(s.deliveredAt.value + s.rearmAfter) else None)
  }

  function EffectiveState(snap: Snapshot, now: int): State {
    if snap.state.Armed? then Armed
    else if snap.rearmsAt.None? then Consumed
    else if now < snap.rearmsAt.value then Consumed else Armed
  }

  /** Math.ceil of a quotient. */
  function CeilDiv(ms: int, unit: int): int
    requires unit > 0
  {
    -((-ms) / unit)
  }

  function RetryAfterSeconds(snap: Snapshot, now: int): Option<nat> {
    if EffectiveState(snap, now).Armed? then None
    else
      var s := CeilDiv((if snap.rearmsAt.Some? then snap.rearmsAt.value else now) - now, 1000);
      Some(if s < 1 then 1 else s)
  }

  /** The conditional UPDATE: a NULL delivered_at never satisfies the re-arm comparison. */
  function ConsumeSlot(s: Slot, now: int): Option<Slot> {
    if s.armed || (s.deliveredAt.Some? && s.deliveredAt.value + s.rearmAfter <= now)
    then Some(s.(armed := false, deliveredAt := Some(now), count := s.count + 1))
    else None
  }

  function ArmSlot(s: Slot): Slot { s.(armed := true) }

  /** What every row written by these operations keeps. */
  predicate SlotOk(s: Slot) {
    (!s.armed ==> s.deliveredAt.Some?) && (s.deliveredAt.None? <==> s.count == 0)
  }

  lemma SlotsStayOk(s: Slot, now: int)
    requires SlotOk(s)
    ensures SlotOk(NEW_SLOT) && SlotOk(ArmSlot(s)) && (ConsumeSlot(s, now).Some? ==> SlotOk(ConsumeSlot(s, now).value))
  {
  }

  /** The answered wait always works, and one second less never does. */
  ghost predicate RetryIsExact(s: Slot, now: int, r: nat) {
    r >= 1 && ConsumeSlot(s, now + 1000 * r).Some? && forall t :: now <= t <= now + 1000 * (r - 1) ==> ConsumeSlot(s, t).None?
  }

  /** Consuming and observing agree at every instant, and the wait answered to a refusal is exact. */
  lemma RetryAfterExact(s: Slot, now: int)
    requires SlotOk(s)
    ensures ConsumeSlot(s, now).Some? <==> EffectiveState(ReadSlot(s), now).Armed?
    ensures ConsumeSlot(s, now).Some? <==> RetryAfterSeconds(ReadSlot(s), now).None?
    ensures ConsumeSlot(s, now).None? ==> RetryIsExact(s, now, RetryAfterSeconds(ReadSlot(s), now).value)
  {
    if ConsumeSlot(s, now).None? {
      var ms := s.deliveredAt.value + s.rearmAfter - now;
      CeilBounds(ms, 1000);
    }
  }

  lemma CeilBounds(ms: int, unit: int)
    requires unit > 0
    ensures unit * (CeilDiv(ms, unit) - 1) < ms <= unit * CeilDiv(ms, unit)
  {
  }

  /** Which rows the answer is right for: exactly those that are armed or have been delivered before. */
  lemma RetryAfterRightFor(s: Slot)
    ensures (s.armed || s.deliveredAt.Some?) <==>
            forall now :: ConsumeSlot(s, now).None? ==> ConsumeSlot(s, now + 1000 * RetryAfterSeconds(ReadSlot(s), now).value).Some?
  {
    if s.armed || s.deliveredAt.Some? {
      forall now | ConsumeSlot(s, now).None?
        ensures ConsumeSlot(s, now + 1000 * RetryAfterSeconds(ReadSlot(s), now).value).Some?
      {
        CeilBounds(s.deliveredAt.value + s.rearmAfter - now, 1000);
      }
    } else {
      assert ConsumeSlot(s, 0).None?;
      assert ConsumeSlot(s, 0 + 1000 * RetryAfterSeconds(ReadSlot(s), 0).value).None?;
    }
  }

  /** An available slot stays available until someone consumes it. */
  lemma StaysAvailable(s: Slot, now: int, later: int)
    requires now <= later && ConsumeSlot(s, now).Some?
    ensures ConsumeSlot(s, later).Some? && ConsumeSlot(ArmSlot(s), later).Some?
  {
  }

  /** A delivery spends the slot: it counts, and nothing more is delivered before the re-arm window ends, unless the slot is armed again. */
  lemma SpentUntilRearmed(s: Slot, now: int)
    requires ConsumeSlot(s, now).Some?
    ensures var g := ConsumeSlot(s, now).value;
            g.count == s.count + 1 && g.deliveredAt == Some(now) && g.rearmAfter == s.rearmAfter &&
            (forall t :: ConsumeSlot(g, t).Some? <==> t >= now + s.rearmAfter) && forall t :: ConsumeSlot(ArmSlot(g), t).Some?
  {
  }
}
