// The per-credential API quota snapshot and the gate it feeds (src/github/rate_limit.rs).
// Times are seconds.

module Quota {
  import opened Prelude

  type Time = int

  const POLL_INTERVAL: nat := 60
  const FIRST_FAILURE_RESET_WINDOW: nat := POLL_INTERVAL

  datatype Snapshot = Snapshot(
    remaining: Option<nat>,
    limit: Option<nat>,
    reset: Option<Time>,
    observedAt: Option<Time>)

  const EMPTY := Snapshot(None, None, None, None)

  datatype Event =
    | Full(now: Time, limitSeen: nat, remainingSeen: nat, resetSeen: Time)
    | Headers(now: Time, limitHeader: Option<nat>, remainingHeader: Option<nat>, resetHeader: Option<Time>)
    | FailedPoll(now: Time)

  class RateLimitState {
    var snapshot: Snapshot

    constructor ()
      ensures snapshot == EMPTY
    {
      snapshot := EMPTY;
    }

    method ObserveFull(now: Time, limit: nat, remaining: nat, reset: Time)
      modifies this
      ensures snapshot == Apply(old(snapshot), Full(now, limit, remaining, reset))
    {
      snapshot := snapshot.(limit := Some(limit));
      snapshot := snapshot.(remaining := Some(remaining));
      snapshot := snapshot.(reset := Some(reset));
      snapshot := snapshot.(observedAt := Some(now));
    }

    method ObserveHeaders(now: Time, limit: Option<nat>, remaining: Option<nat>, reset: Option<Time>)
      modifies this
      ensures snapshot == Apply(old(snapshot), Headers(now, limit, remaining, reset))
    {
      if remaining.None? && reset.None? && limit.None? {
        return;
      }
      if remaining.Some? {
        snapshot := snapshot.(remaining := remaining);
      }
      if reset.Some? {
        snapshot := snapshot.(reset := reset);
      }
      if limit.Some? {
        snapshot := snapshot.(limit := limit);
      }
      snapshot := snapshot.(observedAt := Some(now));
    }

    method ClampPessimistic(now: Time)
      modifies this
      ensures snapshot == Apply(old(snapshot), FailedPoll(now))
    {
      if snapshot.observedAt.Some? {
        return;
      }
      snapshot := snapshot.(remaining := Some(0));
      snapshot := snapshot.(limit := Some(0));
      snapshot := snapshot.(reset := Some(now + FIRST_FAILURE_RESET_WINDOW));
      snapshot := snapshot.(observedAt := Some(now));
    }
  }

  function Apply(s: Snapshot, e: Event): Snapshot {
    match e
    case Full(now, limit, remaining, reset) => Snapshot(Some(remaining), Some(limit), Some(reset), Some(now))
    case Headers(now, limit, remaining, reset) =>
      if Silent(e) then s
      else Snapshot(remaining.OrElse(s.remaining), limit.OrElse(s.limit), reset.OrElse(s.reset), Some(now))
    case FailedPoll(now) =>
      if s.observedAt.Some? then s
      else Snapshot(Some(0), Some(0), Some(now + FIRST_FAILURE_RESET_WINDOW), Some(now))
  }

  function Fold(s: Snapshot, log: seq<Event>): Snapshot {
    if log == [] then s else Apply(Fold(s, log[..|log| - 1]), log[|log| - 1])
  }

  /** How long to defer a request; None permits it. */
  function ShouldDefer(s: Snapshot, now: Time): Option<nat> {
    match s.observedAt
    case None => Some(POLL_INTERVAL)
    case Some(at) =>
      if now - at > 2 * POLL_INTERVAL then Some(POLL_INTERVAL)
      else
        match s.remaining
        case None => Some(POLL_INTERVAL)
        case Some(n) =>
          if n == 0 && s.reset.Some? && s.reset.value > now then Some(s.reset.value - now) else None
  }

  // ---------------------------------------------------------------------
  // The snapshot as a function of the whole history
  // ---------------------------------------------------------------------

  /** A response without any quota header. */
  predicate Silent(e: Event) {
    e.Headers? && e.limitHeader.None? && e.remainingHeader.None? && e.resetHeader.None?
  }

  predicate Observation(e: Event) {
    e.Full? || (e.Headers? && !Silent(e))
  }

  function RemainingOf(e: Event): Option<nat> {
    match e
    case Full(_, _, n, _) => Some(n)
    case Headers(_, _, n, _) => n
    case FailedPoll(_) => None
  }

  function LimitOf(e: Event): Option<nat> {
    match e
    case Full(_, n, _, _) => Some(n)
    case Headers(_, n, _, _) => n
    case FailedPoll(_) => None
  }

  function ResetOf(e: Event): Option<Time> {
    match e
    case Full(_, _, _, t) => Some(t)
    case Headers(_, _, _, t) => t
    case FailedPoll(_) => None
  }

  function TimeOf(e: Event): Option<Time> {
    if Observation(e) then Some(e.now) else None
  }

  /** The failed poll that took effect: the first one, if no observation came before it. */
  function Clamped(log: seq<Event>): Option<Time> {
    if log == [] || Observation(log[0]) then None
    else if log[0].FailedPoll? then Some(log[0].now)
    else Clamped(log[1..])
  }

  function Base(log: seq<Event>): Snapshot {
    match Clamped(log)
    case None => EMPTY
    case Some(at) => Snapshot(Some(0), Some(0), Some(at + FIRST_FAILURE_RESET_WINDOW), Some(at))
  }

  lemma {:induction false} ClampedSnoc(log: seq<Event>, e: Event)
    ensures Clamped(log + [e]) == if Clamped(log).Some? then Clamped(log)
                                  else if e.FailedPoll? && (forall i :: 0 <= i < |log| ==> !Observation(log[i])) then Some(e.now)
                                  else None
  {
    if log == [] {
      assert (log + [e])[0] == e;
    } else {
      assert (log + [e])[1..] == log[1..] + [e];
      ClampedSnoc(log[1..], e);
      if !Observation(log[0]) && !log[0].FailedPoll? {
        assert (forall i :: 0 <= i < |log| ==> !Observation(log[i]))
               <==> (forall i :: 0 <= i < |log[1..]| ==> !Observation(log[1..][i]));
      }
    }
  }

  /**
   * Over any interleaving, each field is the last value an observation supplied, on top of the one
   * clamp that can take effect. A failed poll after an observation, or after another failed poll,
   * changes nothing.
   */
  lemma {:induction false} SnapshotIsLastObserved(log: seq<Event>)
    ensures var s := Fold(EMPTY, log);
            && s.remaining == LastSeen(Base(log).remaining, RemainingOf, log)
            && s.limit == LastSeen(Base(log).limit, LimitOf, log)
            && s.reset == LastSeen(Base(log).reset, ResetOf, log)
            && s.observedAt == LastSeen(Base(log).observedAt, TimeOf, log)
    ensures Fold(EMPTY, log).observedAt.None?
            <==> forall i :: 0 <= i < |log| ==> !Observation(log[i]) && !log[i].FailedPoll?
  {
    if log != [] {
      var init, e := log[..|log| - 1], log[|log| - 1];
      assert log == init + [e];
      SnapshotIsLastObserved(init);
      ClampedSnoc(init, e);
      if Clamped(log) != Clamped(init) {
        LastSeenIsLast(Base(log).remaining, RemainingOf, init, 0);
        LastSeenIsLast(Base(log).limit, LimitOf, init, 0);
        LastSeenIsLast(Base(log).reset, ResetOf, init, 0);
        LastSeenIsLast(Base(log).observedAt, TimeOf, init, 0);
        LastSeenIsLast(Base(init).observedAt, TimeOf, init, 0);
      } else if e.FailedPoll? {
        ObservedOnce(init);
      }
    }
  }

  /** If a failed poll is not the first effective event, the snapshot already has an observation time. */
  lemma {:induction false} ObservedOnce(log: seq<Event>)
    requires Clamped(log).Some? || exists i :: 0 <= i < |log| && Observation(log[i])
    ensures Fold(EMPTY, log).observedAt.Some?
  {
    var init, e := log[..|log| - 1], log[|log| - 1];
    assert log == init + [e];
    ClampedSnoc(init, e);
    if Clamped(init).Some? || exists i :: 0 <= i < |init| && Observation(init[i]) {
      ObservedOnce(init);
    }
  }

  // ---------------------------------------------------------------------
  // The gate
  // ---------------------------------------------------------------------

  /**
   * After any history a request is permitted exactly when the last effective event is at most two poll
   * intervals old, the remaining quota is known, and it is positive or no recorded reset lies ahead.
   */
  lemma GateExact(log: seq<Event>, now: Time)
    ensures var at := LastSeen(Base(log).observedAt, TimeOf, log);
            var remaining := LastSeen(Base(log).remaining, RemainingOf, log);
            var reset := LastSeen(Base(log).reset, ResetOf, log);
            ShouldDefer(Fold(EMPTY, log), now).None?
            <==> && at.Some? && now - at.value <= 120
                 && remaining.Some?
                 && (remaining.value > 0 || reset.None? || reset.value <= now)
  {
    SnapshotIsLastObserved(log);
  }

  /**
   * And exactly how long any other request waits: a poll interval while nothing was observed, the last
   * observation is stale or the quota is unknown; otherwise until the recorded reset.
   */
  lemma DeferralExact(log: seq<Event>, now: Time, wait: nat)
    ensures var at := LastSeen(Base(log).observedAt, TimeOf, log);
            var remaining := LastSeen(Base(log).remaining, RemainingOf, log);
            var reset := LastSeen(Base(log).reset, ResetOf, log);
            ShouldDefer(Fold(EMPTY, log), now) == Some(wait)
            <==> if at.None? || now - at.value > 120 || remaining.None? then wait == 60
                 else remaining.value == 0 && reset.Some? && reset.value > now && now + wait == reset.value
  {
    SnapshotIsLastObserved(log);
  }

  /** Nothing but failures and silent answers, the first failure at `at`: no quota until one minute after it. */
  ghost predicate OnlyFailures(log: seq<Event>, at: Time) {
    && (forall i :: 0 <= i < |log| ==> !Observation(log[i]))
    && exists i :: 0 <= i < |log| && log[i] == FailedPoll(at) && forall j :: 0 <= j < i ==> !log[j].FailedPoll?
  }

  lemma {:induction false} FirstFailureClamps(log: seq<Event>, at: Time)
    requires OnlyFailures(log, at)
    ensures Clamped(log) == Some(at)
  {
    var i :| 0 <= i < |log| && log[i] == FailedPoll(at) && forall j :: 0 <= j < i ==> !log[j].FailedPoll?;
    if i > 0 {
      var rest := log[1..];
      assert rest[i - 1] == FailedPoll(at);
      assert forall j :: 0 <= j < i - 1 ==> rest[j] == log[j + 1];
      FirstFailureClamps(rest, at);
    }
  }

  lemma NothingSeen<T>(initial: Option<T>, seen: Event -> Option<T>, log: seq<Event>)
    requires forall i :: 0 <= i < |log| ==> seen(log[i]).None?
    ensures LastSeen(initial, seen, log) == initial
  {
    if log != [] {
      NothingSeen(initial, seen, log[..|log| - 1]);
    }
  }

  /** A daemon that has never got through sends nothing for a minute after its first failure, and then tries again. */
  lemma FirstFailureWaits(log: seq<Event>, at: Time, now: Time)
    requires OnlyFailures(log, at) && at <= now <= at + 120
    ensures Fold(EMPTY, log) == Snapshot(Some(0), Some(0), Some(at + 60), Some(at))
    ensures ShouldDefer(Fold(EMPTY, log), now) == if now < at + 60 then Some(at + 60 - now) else None
  {
    FirstFailureClamps(log, at);
    SnapshotIsLastObserved(log);
    NothingSeen(Base(log).remaining, RemainingOf, log);
    NothingSeen(Base(log).limit, LimitOf, log);
    NothingSeen(Base(log).reset, ResetOf, log);
    NothingSeen(Base(log).observedAt, TimeOf, log);
  }

  /** Sleeping out an exhausted-quota deferral of a fresh snapshot ends exactly at the recorded reset. */
  lemma DeferralReachesReset(log: seq<Event>, now: Time)
    requires var s := Fold(EMPTY, log);
             s.observedAt.Some? && now - s.observedAt.value <= 120 && s.remaining == Some(0)
    requires ShouldDefer(Fold(EMPTY, log), now).Some?
    ensures var reset := LastSeen(Base(log).reset, ResetOf, log);
            reset.Some? && now + ShouldDefer(Fold(EMPTY, log), now).value == reset.value > now
  {
    SnapshotIsLastObserved(log);
  }

  /** A failed poll never alters a snapshot that holds an observation, and failing again changes nothing. */
  lemma ClampOnlyFirst(log: seq<Event>, polls: seq<Event>)
    requires exists i :: 0 <= i < |log| && (Observation(log[i]) || log[i].FailedPoll?)
    requires forall i :: 0 <= i < |polls| ==> polls[i].FailedPoll?
    ensures Fold(EMPTY, log + polls) == Fold(EMPTY, log)
    decreases |polls|
  {
    if polls == [] {
      assert log + polls == log;
    } else {
      assert (log + polls)[..|log + polls| - 1] == log + polls[..|polls| - 1];
      ClampOnlyFirst(log, polls[..|polls| - 1]);
      SnapshotIsLastObserved(log);
    }
  }
}
