// A per-credential minimum-interval gate: callers reserve a slot under a lock, sleep
// without it, and bump the slot when they wake (src/git/rate_bucket.rs).

module RateBucket {
  import opened Prelude

  type Time = int

  class RateBucket {
    const minInterval: nat
    var last: Option<Time>

    constructor (minInterval: nat)
      ensures this.minInterval == minInterval && last == None
    {
      this.minInterval := minInterval;
      last := None;
    }

    /** First critical section of acquire: the slot is taken before any sleep. */
    method Reserve(now: Time) returns (target: Time)
      modifies this
      ensures target == Target(minInterval, old(last), now) && last == Some(target)
    {
      match last {
        case None => target := now;
        case Some(prev) =>
          var earliest := prev + minInterval;
          if earliest > now {
            target := earliest;
          } else {
            target := now;
          }
      }
      last := Some(target);
    }

    /** Second critical section, after the sleep: the slot moves up to a late wake, never down. */
    method Finish(now: Time)
      modifies this
      ensures last == Bumped(old(last), now)
    {
      if last.Some? && now > last.value {
        last := Some(now);
      }
    }

    /** The non-sleeping variant: None when permitted, otherwise how long to wait. */
    method TryAcquire(now: Time) returns (retryAfter: Option<nat>)
      modifies this
      ensures retryAfter.None? <==> Target(minInterval, old(last), now) == now
      ensures retryAfter.None? ==> last == Some(now)
      ensures retryAfter.Some? ==> last == old(last) && now + retryAfter.value == Target(minInterval, last, now)
    {
      match last {
        case None =>
          last := Some(now);
          return None;
        case Some(prev) =>
          var target := prev + minInterval;
          if target > now {
            return Some(target - now);
          }
          last := Some(now);
          return None;
      }
    }
  }

  /** The earliest instant a caller arriving now may be given. */
  function Target(interval: nat, last: Option<Time>, now: Time): (t: Time)
    ensures t >= now
    ensures last.Some? ==> t >= last.value + interval
    ensures t == now || (last.Some? && t == last.value + interval)
  {
    match last
    case None => now
    case Some(prev) => Max(prev + interval, now)
  }

  function Bumped(last: Option<Time>, now: Time): Option<Time> {
    match last
    case None => None
    case Some(prev) => Some(Max(prev, now))
  }

  // ---------------------------------------------------------------------
  // Any interleaving of callers
  // ---------------------------------------------------------------------

  /** One caller's slot, and when it proceeded (None while it sleeps). */
  datatype Slot = Slot(reserved: Time, granted: Option<Time>)

  datatype System = System(last: Option<Time>, clock: Time, slots: seq<Slot>)

  /** Critical sections in lock order; `i` names the caller of slot i. */
  datatype Event = Reserve(now: Time) | Wake(i: nat, now: Time) | Try(now: Time)

  /** The clock never runs backwards, and no sleep ends before its deadline. */
  predicate Enabled(s: System, e: Event) {
    && e.now >= s.clock
    && (e.Wake? ==> e.i < |s.slots| && s.slots[e.i].granted.None? && e.now >= s.slots[e.i].reserved)
  }

  function Next(interval: nat, s: System, e: Event): System
    requires Enabled(s, e)
  {
    var target := Target(interval, s.last, e.now);
    match e
    case Reserve(now) => System(Some(target), now, s.slots + [Slot(target, None)])
    case Wake(i, now) => System(Bumped(s.last, now), now, s.slots[i := s.slots[i].(granted := Some(now))])
    case Try(now) =>
      if target == now then System(Some(now), now, s.slots + [Slot(now, Some(now))])
      else s.(clock := now)
  }

  function Run(interval: nat, t0: Time, events: seq<Event>): Option<System> {
    if events == [] then Some(System(None, t0, []))
    else
      match Run(interval, t0, events[..|events| - 1])
      case None => None
      case Some(s) =>
        if Enabled(s, events[|events| - 1]) then Some(Next(interval, s, events[|events| - 1])) else None
  }

  ghost predicate Inv(interval: nat, s: System) {
    && (s.last.None? <==> s.slots == [])
    && (forall i :: 0 <= i < |s.slots| ==> s.last.value >= s.slots[i].reserved)
    && (forall i :: 0 <= i < |s.slots| && s.slots[i].granted.Some? ==>
          s.slots[i].reserved <= s.slots[i].granted.value <= Min(s.last.value, s.clock))
    && (forall i, j :: 0 <= i < j < |s.slots| ==> s.slots[j].reserved >= s.slots[i].reserved + interval)
  }

  lemma StepKeeps(interval: nat, s: System, e: Event)
    requires Inv(interval, s) && Enabled(s, e)
    ensures Inv(interval, Next(interval, s, e))
  {
  }

  lemma {:induction false} RunKeeps(interval: nat, t0: Time, events: seq<Event>)
    requires Run(interval, t0, events).Some?
    ensures Inv(interval, Run(interval, t0, events).value)
  {
    if events != [] {
      var init := events[..|events| - 1];
      RunKeeps(interval, t0, init);
      StepKeeps(interval, Run(interval, t0, init).value, events[|events| - 1]);
    }
  }

  /** t is a full interval after every reservation and every start so far, and not in the past. */
  predicate Spaced(interval: nat, slots: seq<Slot>, now: Time, t: Time) {
    && t >= now
    && forall i :: 0 <= i < |slots| ==>
         t >= slots[i].reserved + interval && (slots[i].granted.Some? ==> t >= slots[i].granted.value + interval)
  }

  /** Only the present moment, a reservation or a start keeps it from being earlier. */
  ghost predicate Tight(interval: nat, slots: seq<Slot>, now: Time, t: Time) {
    t == now || exists i :: 0 <= i < |slots| && (t == slots[i].reserved + interval || slots[i].granted == Some(t - interval))
  }

  /** The recorded instant is the latest reservation or start. */
  ghost predicate LastIsLatest(s: System) {
    s.last.Some? ==> exists i :: 0 <= i < |s.slots| && (s.slots[i].reserved == s.last.value || s.slots[i].granted == s.last)
  }

  lemma StepKeepsLatest(interval: nat, s: System, e: Event)
    requires Inv(interval, s) && LastIsLatest(s) && Enabled(s, e)
    ensures LastIsLatest(Next(interval, s, e))
  {
    var t := Next(interval, s, e);
    match e {
      case Reserve(now) => assert t.slots[|s.slots|].reserved == t.last.value;
      case Wake(i, now) =>
        assert t.slots[i].granted == Some(now);
        if t.last == s.last {
          var k :| 0 <= k < |s.slots| && (s.slots[k].reserved == s.last.value || s.slots[k].granted == s.last);
          assert t.slots[k].reserved == s.slots[k].reserved && (k != i ==> t.slots[k] == s.slots[k]);
        }
      case Try(now) =>
        if t.slots != s.slots {
          assert t.slots[|s.slots|].granted == Some(now);
        }
    }
  }

  lemma {:induction false} RunKeepsLatest(interval: nat, t0: Time, events: seq<Event>)
    requires Run(interval, t0, events).Some?
    ensures LastIsLatest(Run(interval, t0, events).value)
  {
    if events != [] {
      var init := events[..|events| - 1];
      RunKeeps(interval, t0, init);
      RunKeepsLatest(interval, t0, init);
      StepKeepsLatest(interval, Run(interval, t0, init).value, events[|events| - 1]);
    }
  }

  /**
   * After any run a caller is given the earliest instant that is a full interval after every reservation
   * and every start so far, and a caller that will not wait proceeds exactly when that is now.
   */
  lemma EarliestIsGiven(interval: nat, t0: Time, events: seq<Event>, s: System, now: Time)
    requires Run(interval, t0, events) == Some(s) && now >= s.clock
    ensures var t := Next(interval, s, Reserve(now)).slots[|s.slots|].reserved;
            Spaced(interval, s.slots, now, t) && Tight(interval, s.slots, now, t)
    ensures Next(interval, s, Try(now)).slots == if Spaced(interval, s.slots, now, now) then s.slots + [Slot(now, Some(now))] else s.slots
  {
    RunKeeps(interval, t0, events);
    RunKeepsLatest(interval, t0, events);
    var t := Next(interval, s, Reserve(now)).slots[|s.slots|].reserved;
    if s.slots != [] {
      var k :| 0 <= k < |s.slots| && (s.slots[k].reserved == s.last.value || s.slots[k].granted == s.last);
      if t != now {
        assert t == s.last.value + interval;
      }
    }
  }

  /** How many callers had proceeded by time t. */
  function Permits(slots: seq<Slot>, t: Time): nat {
    if slots == [] then 0
    else
      var g := slots[|slots| - 1].granted;
      Permits(slots[..|slots| - 1], t) + if g.Some? && g.value <= t then 1 else 0
  }

  lemma {:induction false} LastPermit(slots: seq<Slot>, t: Time) returns (i: nat)
    requires Permits(slots, t) > 0
    ensures i < |slots| && slots[i].granted.Some? && slots[i].granted.value <= t
    ensures Permits(slots, t) <= i + 1
  {
    PermitsAtMost(slots, t);
    var g := slots[|slots| - 1].granted;
    if g.Some? && g.value <= t {
      i := |slots| - 1;
    } else {
      i := LastPermit(slots[..|slots| - 1], t);
    }
  }

  lemma {:induction false} PermitsAtMost(slots: seq<Slot>, t: Time)
    ensures Permits(slots, t) <= |slots|
  {
    if slots != [] {
      PermitsAtMost(slots[..|slots| - 1], t);
    }
  }

  lemma {:induction false} SlotDistance(interval: nat, slots: seq<Slot>, i: nat)
    requires i < |slots|
    requires forall a, b :: 0 <= a < b < |slots| ==> slots[b].reserved >= slots[a].reserved + interval
    ensures slots[i].reserved >= slots[0].reserved + i * interval
  {
    if i > 0 {
      SlotDistance(interval, slots, i - 1);
      assert i * interval == (i - 1) * interval + interval;
    }
  }

  lemma Scale(a: nat, b: nat, interval: nat)
    requires a <= b
    ensures a * interval <= b * interval
  {
  }

  /** Callers that proceeded by time t number at most one plus the whole intervals since the first reservation. */
  predicate WithinPace(interval: nat, slots: seq<Slot>, t: Time) {
    Permits(slots, t) > 0 ==>
      && slots != []
      && (Permits(slots, t) - 1) * interval <= t - slots[0].reserved
      && (interval > 0 ==> Permits(slots, t) <= (t - slots[0].reserved) / interval + 1)
  }

  lemma SpacedIsPaced(interval: nat, slots: seq<Slot>, t: Time)
    requires forall i, j :: 0 <= i < j < |slots| ==> slots[j].reserved >= slots[i].reserved + interval
    requires forall i :: 0 <= i < |slots| && slots[i].granted.Some? ==> slots[i].granted.value >= slots[i].reserved
    ensures WithinPace(interval, slots, t)
  {
    if Permits(slots, t) > 0 {
      PermitsSpan(interval, slots, t);
      if interval > 0 {
        DivisionBound(Permits(slots, t) - 1, interval, t - slots[0].reserved);
      }
    }
  }

  /**
   * Pacing. Under any interleaving and arbitrarily late wakes: reservations are at least the interval
   * apart, no caller proceeds before its reservation, and by any time t the callers that proceeded
   * number at most one plus the whole intervals since the first reservation.
   */
  lemma PacingBound(interval: nat, t0: Time, events: seq<Event>, t: Time)
    requires Run(interval, t0, events).Some?
    ensures var slots := Run(interval, t0, events).value.slots;
            && (forall i, j :: 0 <= i < j < |slots| ==> slots[j].reserved >= slots[i].reserved + interval)
            && (forall i :: 0 <= i < |slots| && slots[i].granted.Some? ==> slots[i].granted.value >= slots[i].reserved)
            && WithinPace(interval, slots, t)
  {
    RunKeeps(interval, t0, events);
    SpacedIsPaced(interval, Run(interval, t0, events).value.slots, t);
  }

  lemma PermitsSpan(interval: nat, slots: seq<Slot>, t: Time)
    requires forall i, j :: 0 <= i < j < |slots| ==> slots[j].reserved >= slots[i].reserved + interval
    requires forall i :: 0 <= i < |slots| && slots[i].granted.Some? ==> slots[i].granted.value >= slots[i].reserved
    requires Permits(slots, t) > 0
    ensures slots != [] && (Permits(slots, t) - 1) * interval <= t - slots[0].reserved
  {
    var i := LastPermit(slots, t);
    SlotDistance(interval, slots, i);
    Scale(Permits(slots, t) - 1, i, interval);
  }

  lemma DivisionBound(k: nat, interval: nat, span: int)
    requires interval > 0 && k * interval <= span
    ensures k <= span / interval
  {
    var q := span / interval;
    assert span == q * interval + span % interval;
    assert (q + 1) * interval == q * interval + interval;
    if q < k {
      Scale(q + 1, k, interval);
      assert false;
    }
  }

  // ---------------------------------------------------------------------
  // Spacing of the wakes themselves
  // ---------------------------------------------------------------------

  /** A caller that arrives after another has proceeded is placed a full interval after that moment. */
  lemma AnchoredAtWake(interval: nat, t0: Time, events: seq<Event>, now: Time, i: nat)
    requires Run(interval, t0, events).Some?
    requires var s := Run(interval, t0, events).value;
             Enabled(s, Reserve(now)) && i < |s.slots| && s.slots[i].granted.Some?
    ensures var s := Run(interval, t0, events).value;
            var t := Next(interval, s, Reserve(now));
            t.slots[|s.slots|].reserved >= s.slots[i].granted.value + interval
  {
    RunKeeps(interval, t0, events);
  }

  /** Lateness is all that eats into the spacing: a later caller starts at least the interval, less the earlier one's lateness, after it. */
  lemma LatenessCosts(interval: nat, t0: Time, events: seq<Event>, i: nat, j: nat)
    requires Run(interval, t0, events).Some?
    requires var slots := Run(interval, t0, events).value.slots;
             i < j < |slots| && slots[i].granted.Some? && slots[j].granted.Some?
    ensures var slots := Run(interval, t0, events).value.slots;
            var late := slots[i].granted.value - slots[i].reserved;
            late >= 0 && slots[j].granted.value - slots[i].granted.value >= interval - late
  {
    RunKeeps(interval, t0, events);
  }

  /** Two callers proceed less than an interval apart only if the earlier one woke late. */
  lemma CloseWakesAreLate(interval: nat, t0: Time, events: seq<Event>, i: nat, j: nat)
    requires Run(interval, t0, events).Some?
    requires var slots := Run(interval, t0, events).value.slots;
             i < j < |slots| && slots[i].granted.Some? && slots[j].granted.Some?
             && slots[j].granted.value - slots[i].granted.value < interval
    ensures var slots := Run(interval, t0, events).value.slots;
            slots[i].granted.value > slots[i].reserved
  {
    LatenessCosts(interval, t0, events, i, j);
  }

  /** Any two callers that have proceeded did so at least `gap` apart. */
  predicate Apart(slots: seq<Slot>, gap: int) {
    forall i, j :: 0 <= i < j < |slots| && slots[i].granted.Some? && slots[j].granted.Some? ==>
      || slots[j].granted.value - slots[i].granted.value >= gap
      || slots[i].granted.value - slots[j].granted.value >= gap
  }

  predicate LateByAtMost(slots: seq<Slot>, late: nat) {
    forall i :: 0 <= i < |slots| && slots[i].granted.Some? ==> slots[i].granted.value <= slots[i].reserved + late
  }

  /** Over any run: if no wake is late by more than `late`, all starts are that much less than the interval apart; with no lateness, a full interval. */
  lemma LatenessBoundsSpacing(interval: nat, t0: Time, events: seq<Event>, late: nat)
    requires Run(interval, t0, events).Some?
    requires LateByAtMost(Run(interval, t0, events).value.slots, late)
    ensures Apart(Run(interval, t0, events).value.slots, interval - late)
  {
    var slots := Run(interval, t0, events).value.slots;
    forall i, j | 0 <= i < j < |slots| && slots[i].granted.Some? && slots[j].granted.Some?
      ensures slots[j].granted.value - slots[i].granted.value >= interval - late
    {
      LatenessCosts(interval, t0, events, i, j);
    }
  }

  /** From every reachable state two more callers can come to proceed at the same instant. */
  lemma MoreCanMeet(interval: nat, t0: Time, events: seq<Event>) returns (more: seq<Event>)
    requires Run(interval, t0, events).Some?
    ensures Run(interval, t0, events + more).Some?
    ensures var n := |Run(interval, t0, events).value.slots|;
            var slots := Run(interval, t0, events + more).value.slots;
            |slots| == n + 2 && slots[n].granted.Some? && slots[n].granted == slots[n + 1].granted
  {
    var s := Run(interval, t0, events).value;
    var n := |s.slots|;
    var s1 := Next(interval, s, Reserve(s.clock));
    var s2 := Next(interval, s1, Reserve(s.clock));
    var meet := s2.slots[n + 1].reserved;
    var s3 := Next(interval, s2, Wake(n, meet));
    var e1 := Then(interval, t0, events, Reserve(s.clock), s);
    var e2 := Then(interval, t0, e1, Reserve(s.clock), s1);
    var e3 := Then(interval, t0, e2, Wake(n, meet), s2);
    var e4 := Then(interval, t0, e3, Wake(n + 1, meet), s3);
    more := [Reserve(s.clock), Reserve(s.clock), Wake(n, meet), Wake(n + 1, meet)];
    assert e4 == events + more;
  }

  /**
   * No state guarantees the spacing of what follows: after any run whose starts are apart, they stay
   * apart in every continuation exactly when the interval is zero.
   */
  lemma SpacingNeverGuaranteed(interval: nat, t0: Time, events: seq<Event>)
    requires Run(interval, t0, events).Some?
    ensures (forall more :: Run(interval, t0, events + more).Some? ==>
               Apart(Run(interval, t0, events + more).value.slots, interval))
            <==> interval == 0
  {
    if interval > 0 {
      var more := MoreCanMeet(interval, t0, events);
      assert !Apart(Run(interval, t0, events + more).value.slots, interval);
    }
  }

  /** What later steps leave of a state: its slots stay reserved as they are, wakes stand, new wakes come no earlier than slot and clock. */
  ghost predicate Follows(s: System, t: System) {
    && |s.slots| <= |t.slots| && s.clock <= t.clock
    && forall q :: 0 <= q < |s.slots| ==>
         && t.slots[q].reserved == s.slots[q].reserved
         && (s.slots[q].granted.Some? ==> t.slots[q].granted == s.slots[q].granted)
         && (s.slots[q].granted.None? && t.slots[q].granted.Some? ==>
               t.slots[q].granted.value >= Max(s.slots[q].reserved, s.clock))
  }

  lemma StepFollows(interval: nat, s: System, t: System, e: Event)
    requires Follows(s, t) && Enabled(t, e)
    ensures Follows(s, Next(interval, t, e))
  {
  }

  lemma {:induction false} RunFollows(interval: nat, t0: Time, events: seq<Event>, more: seq<Event>)
    requires Run(interval, t0, events).Some? && Run(interval, t0, events + more).Some?
    ensures Follows(Run(interval, t0, events).value, Run(interval, t0, events + more).value)
    decreases |more|
  {
    if more == [] {
      assert events + more == events;
    } else {
      var init := more[..|more| - 1];
      assert (events + more)[..|events + more| - 1] == events + init;
      RunFollows(interval, t0, events, init);
      StepFollows(interval, Run(interval, t0, events).value, Run(interval, t0, events + init).value, more[|more| - 1]);
    }
  }

  /** Caller j, if it has proceeded, did so an interval or more after caller i. */
  predicate SpacedAfter(slots: seq<Slot>, i: nat, j: nat, interval: nat)
    requires i < |slots| && j < |slots| && slots[i].granted.Some?
  {
    slots[j].granted.Some? ==> slots[j].granted.value >= slots[i].granted.value + interval
  }

  /**
   * After any run, exactly when a sleeping caller is bound to proceed a full interval after one that
   * already has, whatever happens next and however late it wakes: its reservation, or the present moment,
   * is at least an interval after that wake.
   */
  lemma SpacingGuaranteedIff(interval: nat, t0: Time, events: seq<Event>, s: System, i: nat, j: nat)
    requires Run(interval, t0, events) == Some(s)
    requires i < |s.slots| && s.slots[i].granted.Some?
    requires j < |s.slots| && s.slots[j].granted.None?
    ensures (forall more, t :: Run(interval, t0, events + more) == Some(t) ==>
               |s.slots| <= |t.slots| && t.slots[i].granted == s.slots[i].granted && SpacedAfter(t.slots, i, j, interval))
            <==> Max(s.slots[j].reserved, s.clock) >= s.slots[i].granted.value + interval
  {
    var earliest := Max(s.slots[j].reserved, s.clock);
    if earliest >= s.slots[i].granted.value + interval {
      forall more, t | Run(interval, t0, events + more) == Some(t)
        ensures |s.slots| <= |t.slots| && t.slots[i].granted == s.slots[i].granted && SpacedAfter(t.slots, i, j, interval)
      {
        RunFollows(interval, t0, events, more);
      }
    } else {
      var all := Then(interval, t0, events, Wake(j, earliest), s);
      assert Run(interval, t0, events + [Wake(j, earliest)]) == Some(Next(interval, s, Wake(j, earliest)));
    }
  }

  /**
   * The documented spacing of requests is not enforced on wakes: with interval 10, a caller reserved at
   * 0 that wakes at 9 is followed one unit later by the caller reserved at 10.
   */
  lemma WakesCanCluster()
    ensures var events := [Reserve(0), Reserve(0), Wake(0, 9), Wake(1, 10)];
            Run(10, 0, events) == Some(System(Some(10), 10, [Slot(0, Some(9)), Slot(10, Some(10))]))
  {
    var s0 := System(None, 0, []);
    var s1 := Next(10, s0, Reserve(0));
    assert s1 == System(Some(0), 0, [Slot(0, None)]);
    var s2 := Next(10, s1, Reserve(0));
    assert s2 == System(Some(10), 0, [Slot(0, None), Slot(10, None)]);
    var s3 := Next(10, s2, Wake(0, 9));
    assert s3 == System(Some(10), 9, [Slot(0, Some(9)), Slot(10, None)]);
    var e1 := Then(10, 0, [], Reserve(0), s0);
    var e2 := Then(10, 0, e1, Reserve(0), s1);
    var e3 := Then(10, 0, e2, Wake(0, 9), s2);
    var e4 := Then(10, 0, e3, Wake(1, 10), s3);
    assert e4 == [Reserve(0), Reserve(0), Wake(0, 9), Wake(1, 10)];
    assert Next(10, s3, Wake(1, 10)) == System(Some(10), 10, [Slot(0, Some(9)), Slot(10, Some(10))]);
  }

  lemma Then(interval: nat, t0: Time, events: seq<Event>, e: Event, s: System) returns (all: seq<Event>)
    requires Run(interval, t0, events) == Some(s) && Enabled(s, e)
    ensures all == events + [e] && Run(interval, t0, all) == Some(Next(interval, s, e))
  {
    all := events + [e];
    assert all[..|events|] == events;
  }
}
