/**
 * The release cooldown set (src/utils/device-utils.js): a module-level set of
 * recently released device ids. Marking an id adds it and schedules a timer
 * that deletes it `cooldownMs` later; timers are never cancelled or reset.
 * Time is explicit: a mark happens at `now`, and the pending timers are a list
 * of (id, firing time) that `AdvanceTo` fires as the clock passes them.
 */
module DeviceCooldown {

  type DeviceId = string

  const DefaultCooldownMs: nat := 5000

  /** A scheduled removal: `device` leaves the set at time `fireAt`. */
  datatype Timer = Timer(device: DeviceId, fireAt: int)

  datatype Cooldown = Cooldown(released: set<DeviceId>, pending: seq<Timer>)

  /** `markDeviceAsReleased(id, cooldownMs)` at time `now`. */
  function Mark(c: Cooldown, id: DeviceId, now: int, cooldownMs: nat := DefaultCooldownMs): (r: Cooldown)
    ensures id in r.released
    ensures r.pending == c.pending + [Timer(id, now + cooldownMs)]
  {
    Cooldown(c.released + {id}, c.pending + [Timer(id, now + cooldownMs)])
  }

  /** The ids of the timers in `pending` that are due at `now`. */
  function DueIds(pending: seq<Timer>, now: int): (ids: set<DeviceId>)
    ensures forall id :: id in ids <==> exists t :: t in pending && t.device == id && t.fireAt <= now
    decreases |pending|
  {
    if pending == [] then {}
    else
      var rest := DueIds(pending[1..], now);
      assert forall t :: t in pending <==> t == pending[0] || t in pending[1..];
      if pending[0].fireAt <= now then {pending[0].device} + rest else rest
  }

  /** The timers in `pending` that are not yet due at `now`, in order. */
  function NotDue(pending: seq<Timer>, now: int): (later: seq<Timer>)
    ensures forall t :: t in later <==> t in pending && t.fireAt > now
    decreases |pending|
  {
    if pending == [] then []
    else
      var rest := NotDue(pending[1..], now);
      assert forall t :: t in pending <==> t == pending[0] || t in pending[1..];
      if pending[0].fireAt <= now then rest else [pending[0]] + rest
  }

  /** The clock reaches `now`: every due timer fires and deletes its id. */
  function Advance(c: Cooldown, now: int): Cooldown
  {
    Cooldown(c.released - DueIds(c.pending, now), NotDue(c.pending, now))
  }

  /** `isDeviceRecentlyReleased(id)`. */
  predicate IsReleased(c: Cooldown, id: DeviceId)
  {
    id in c.released
  }

  /** Some timer for `id` has been scheduled to fire by `now`. */
  predicate RemovalDue(c: Cooldown, id: DeviceId, now: int)
  {
    exists t :: t in c.pending && t.device == id && t.fireAt <= now
  }

  // The set and its timers as the module keeps them

  class ReleasedDevices {
    var recentlyReleased: set<DeviceId>
    var pending: seq<Timer>

    function State(): Cooldown
      reads this
    {
      Cooldown(recentlyReleased, pending)
    }

    constructor ()
      ensures State() == Cooldown({}, [])
    {
      recentlyReleased := {};
      pending := [];
    }

    method MarkDeviceAsReleased(id: DeviceId, now: int, cooldownMs: nat := DefaultCooldownMs)
      modifies this
      ensures State() == Mark(old(State()), id, now, cooldownMs)
    {
      recentlyReleased := recentlyReleased + {id};
      pending := pending + [Timer(id, now + cooldownMs)];
    }

    /** A read: it changes neither the set nor the timers. */
    function IsDeviceRecentlyReleased(id: DeviceId): (b: bool)
      reads this
      ensures b <==> IsReleased(State(), id)
    {
      id in recentlyReleased
    }

    /** The clock reaches `now`: the due timers fire one by one, in scheduling order. */
    method AdvanceTo(now: int)
      modifies this
      ensures State() == Advance(old(State()), now)
    {
      var i := 0;
      var later: seq<Timer> := [];
      var start := pending;
      while i < |start|
        invariant 0 <= i <= |start|
        invariant pending == start
        invariant later == NotDue(start[..i], now)
        invariant recentlyReleased == old(recentlyReleased) - DueIds(start[..i], now)
      {
        var t := start[i];
        assert start[..i + 1] == start[..i] + [t];
        SplitAt(start[..i], t, now);
        if t.fireAt <= now {
          recentlyReleased := recentlyReleased - {t.device};
        } else {
          later := later + [t];
        }
        i := i + 1;
      }
      assert start[..i] == start;
      pending := later;
    }
  }

  /** Appending one timer extends the due set and the not-due list by that timer alone. */
  lemma {:induction false} SplitAt(pending: seq<Timer>, t: Timer, now: int)
    ensures DueIds(pending + [t], now) == DueIds(pending, now) + (if t.fireAt <= now then {t.device} else {})
    ensures NotDue(pending + [t], now) == NotDue(pending, now) + (if t.fireAt <= now then [] else [t])
    decreases |pending|
  {
    if pending != [] {
      assert (pending + [t])[0] == pending[0] && (pending + [t])[1..] == pending[1..] + [t];
      SplitAt(pending[1..], t, now);
    } else {
      assert pending + [t] == [t];
    }
  }

  // Properties of the cooldown set

  /** After the clock reaches `now`, an id is still marked exactly when it was and none of its timers is due. */
  lemma ReleasedAfterAdvanceIff(c: Cooldown, id: DeviceId, now: int)
    ensures IsReleased(Advance(c, now), id) <==> IsReleased(c, id) && !RemovalDue(c, id, now)
  {
  }

  /** A marked id stays marked until the clock reaches the firing time of one of its timers. */
  lemma MarkedUntilRemoval(c: Cooldown, id: DeviceId, markedAt: int, cooldownMs: nat, now: int)
    ensures IsReleased(Advance(Mark(c, id, markedAt, cooldownMs), now), id)
        <==> !RemovalDue(Mark(c, id, markedAt, cooldownMs), id, now)
    ensures now >= markedAt + cooldownMs ==> !IsReleased(Advance(Mark(c, id, markedAt, cooldownMs), now), id)
  {
  }

  /** Marking an id already in the set leaves the set unchanged but schedules one more removal. */
  lemma RemarkAddsOnlyATimer(c: Cooldown, id: DeviceId, now: int, cooldownMs: nat)
    requires IsReleased(c, id)
    ensures Mark(c, id, now, cooldownMs).released == c.released
    ensures |Mark(c, id, now, cooldownMs).pending| == |c.pending| + 1
  {
  }

  /**
   * Timers are never cancelled: marking an id again does not postpone its
   * earlier removal, which clears the id while the later timer is still pending.
   */
  lemma EarlierTimerClearsRemark(c: Cooldown, id: DeviceId, first: int, second: int, cooldownMs: nat)
    requires first < second
    ensures var twice := Mark(Mark(c, id, first, cooldownMs), id, second, cooldownMs);
            && !IsReleased(Advance(twice, first + cooldownMs), id)
            && Timer(id, second + cooldownMs) in Advance(twice, first + cooldownMs).pending
  {
  }

  /** Marking one id changes neither the status nor the scheduled removals of any other id. */
  lemma MarkLeavesOthers(c: Cooldown, id: DeviceId, other: DeviceId, now: int, cooldownMs: nat, later: int)
    requires other != id
    ensures IsReleased(Mark(c, id, now, cooldownMs), other) == IsReleased(c, other)
    ensures RemovalDue(Mark(c, id, now, cooldownMs), other, later) == RemovalDue(c, other, later)
  {
  }

  /** Without an explicit cooldown, the removal is scheduled 5000 ms after the mark. */
  lemma DefaultCooldownIsFiveSeconds(c: Cooldown, id: DeviceId, now: int)
    ensures Mark(c, id, now).pending[|c.pending|] == Timer(id, now + 5000)
  {
  }

  lemma {:induction false} NotDueTwice(pending: seq<Timer>, t1: int, t2: int)
    requires t1 <= t2
    ensures NotDue(NotDue(pending, t1), t2) == NotDue(pending, t2)
    decreases |pending|
  {
    if pending != [] {
      NotDueTwice(pending[1..], t1, t2);
      var rest := NotDue(pending[1..], t1);
      if pending[0].fireAt > t1 {
        assert NotDue(pending, t1) == [pending[0]] + rest;
        assert ([pending[0]] + rest)[1..] == rest;
      }
    }
  }

  /** Letting the clock reach t1 and then t2 is the same as letting it reach t2 at once. */
  lemma AdvanceTwice(c: Cooldown, t1: int, t2: int)
    requires t1 <= t2
    ensures Advance(Advance(c, t1), t2) == Advance(c, t2)
  {
    NotDueTwice(c.pending, t1, t2);
    var once := Advance(c, t1);
    assert once.released - DueIds(once.pending, t2) == c.released - DueIds(c.pending, t2);
  }
}
