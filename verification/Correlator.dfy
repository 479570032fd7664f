// From a dispatch to the run it created: bounded scans inside a deadline loop that a drain
// signal shortens (src/github/correlator.rs). Times are seconds; the environment is a script.

module Correlator {
  import opened Prelude
  import opened Paging

  type Time = int

  const NORMAL_TIMEOUT: nat := 300
  const DRAIN_TIMEOUT: nat := 30
  const POLL_INTERVAL_INITIAL: nat := 5
  const POLL_INTERVAL_MAX: nat := 60
  const POLL_INTERVAL_FACTOR: nat := 2
  const MAX_PAGES_PER_POLL: nat := 5
  const CLOCK_SKEW_BUFFER: nat := 120

  datatype Run = Run(id: nat, name: string, createdAt: Time)

  datatype Params = Params(gcitRunId: string, dispatchedAt: Time, runNameConfigured: Option<bool>)

  function Needle(p: Params): string {
    "gcit-" + p.gcitRunId
  }

  predicate Contains(s: string, needle: string) {
    exists i :: 0 <= i <= |s| && needle <= s[i..]
  }

  // ---------------------------------------------------------------------
  // Scans
  // ---------------------------------------------------------------------

  /** Every entry a scan looks at, from page k on; the first failing page fails the scan. */
  function Scanned(fetch: nat -> Result<Page<Run>>, k: nat): Result<seq<Run>>
    requires k < MAX_PAGES_PER_POLL
    decreases MAX_PAGES_PER_POLL - k
  {
    match fetch(k)
    case Err(failure) => Err(failure)
    case Ok(page) =>
      if k + 1 >= MAX_PAGES_PER_POLL || !page.hasNext then Ok(Collected(fetch, k + 1))
      else Scanned(fetch, k + 1)
  }

  /** The listing fails at page n, which had to be fetched. */
  ghost predicate FailsAt(fetch: nat -> Result<Page<Run>>, n: nat, failure: Failure) {
    n < 5 && Linked(fetch, n) && fetch(n) == Err(failure)
  }

  /** Every scan ends in one of two ways: with the first five pages of the listing, or with the failure of one of them. */
  lemma {:induction false} ScanOutcome(fetch: nat -> Result<Page<Run>>, k: nat) returns (n: nat)
    requires k < MAX_PAGES_PER_POLL && Linked(fetch, k)
    ensures Scanned(fetch, k).Ok? ==> Listing(fetch, n, 5) && Scanned(fetch, k) == Ok(Collected(fetch, n))
    ensures Scanned(fetch, k).Err? ==> FailsAt(fetch, n, Scanned(fetch, k).failure)
    decreases MAX_PAGES_PER_POLL - k
  {
    if fetch(k).Err? {
      n := k;
    } else if k + 1 >= MAX_PAGES_PER_POLL || !fetch(k).value.hasNext {
      n := k + 1;
    } else {
      n := ScanOutcome(fetch, k + 1);
    }
  }

  lemma ScanEndsOnce(fetch: nat -> Result<Page<Run>>, m: nat, n: nat, f: Failure, g: Failure)
    ensures Listing(fetch, m, 5) && Listing(fetch, n, 5) ==> m == n
    ensures Listing(fetch, m, 5) ==> !FailsAt(fetch, n, f)
    ensures FailsAt(fetch, m, f) && FailsAt(fetch, n, g) ==> f == g
  {
  }

  /** Exactly what a scan sees, and when and how it fails. */
  lemma ScanIff(fetch: nat -> Result<Page<Run>>)
    ensures forall runs :: Scanned(fetch, 0) == Ok(runs)
                           <==> exists n :: Listing(fetch, n, 5) && runs == Collected(fetch, n)
    ensures forall f :: Scanned(fetch, 0) == Err(f) <==> exists n :: FailsAt(fetch, n, f)
  {
    var n := ScanOutcome(fetch, 0);
    var seen := if Scanned(fetch, 0).Err? then Scanned(fetch, 0).failure else Failure(false);
    forall m | Listing(fetch, m, 5)
      ensures Scanned(fetch, 0) == Ok(Collected(fetch, m))
    {
      ScanEndsOnce(fetch, m, n, seen, seen);
    }
    forall m, f | FailsAt(fetch, m, f)
      ensures Scanned(fetch, 0) == Err(f)
    {
      ScanEndsOnce(fetch, m, n, f, seen);
      ScanEndsOnce(fetch, n, m, f, f);
    }
  }

  /** The entries whose name contains the marker, in listing order, repeats included. */
  function Matching(runs: seq<Run>, needle: string): seq<Run> {
    if runs == [] then []
    else
      var last := runs[|runs| - 1];
      Matching(runs[..|runs| - 1], needle) + if Contains(last.name, needle) then [last] else []
  }

  function IdsOf(runs: seq<Run>): (r: seq<nat>)
    ensures |r| == |runs| && forall i :: 0 <= i < |runs| ==> r[i] == runs[i].id
  {
    seq(|runs|, i requires 0 <= i < |runs| => runs[i].id)
  }

  datatype ScanResult = NoMatch | SingleMatch(run: Run) | DuplicateMatch(ids: seq<nat>)

  function Judge(matches: seq<Run>): ScanResult {
    if |matches| == 0 then NoMatch
    else if |matches| == 1 then SingleMatch(matches[0])
    else DuplicateMatch(IdsOf(matches))
  }

  function MatchScan(fetch: nat -> Result<Page<Run>>, needle: string): Result<ScanResult> {
    match Scanned(fetch, 0)
    case Err(failure) => Err(failure)
    case Ok(runs) => Ok(Judge(Matching(runs, needle)))
  }

  lemma {:induction false} MatchingAppend(a: seq<Run>, b: seq<Run>, needle: string)
    ensures Matching(a + b, needle) == Matching(a, needle) + Matching(b, needle)
    decreases |b|
  {
    if b == [] {
      assert a + b == a;
    } else {
      assert (a + b)[..|a + b| - 1] == a + b[..|b| - 1];
      MatchingAppend(a, b[..|b| - 1], needle);
    }
  }

  /** One page of the name scan: pushes its matching entries. */
  method PushMatches(before: seq<Run>, items: seq<Run>, needle: string) returns (matches: seq<Run>)
    ensures matches == before + Matching(items, needle)
  {
    matches := before;
    for i := 0 to |items|
      invariant matches == before + Matching(items[..i], needle)
    {
      assert items[..i + 1][..i] == items[..i];
      if Contains(items[i].name, needle) {
        matches := matches + [items[i]];
      }
    }
    assert items[..|items|] == items;
  }

  method ScanRunsForMatch(fetch: nat -> Result<Page<Run>>, needle: string) returns (r: Result<ScanResult>)
    ensures r == MatchScan(fetch, needle)
  {
    var matches: seq<Run> := [];
    var pageCount: nat := 0;
    if fetch(0).Err? {
      return Err(fetch(0).failure);
    }
    var current := fetch(0).value;
    while true
      invariant pageCount < MAX_PAGES_PER_POLL && fetch(pageCount) == Ok(current)
      invariant matches == Matching(Collected(fetch, pageCount), needle)
      invariant Scanned(fetch, 0) == Scanned(fetch, pageCount)
      decreases MAX_PAGES_PER_POLL - pageCount
    {
      MatchingAppend(Collected(fetch, pageCount), current.items, needle);
      pageCount := pageCount + 1;
      matches := PushMatches(matches, current.items, needle);
      if pageCount >= MAX_PAGES_PER_POLL {
        return Ok(Judge(matches));
      }
      if !current.hasNext {
        return Ok(Judge(matches));
      }
      if fetch(pageCount).Err? {
        return Err(fetch(pageCount).failure);
      }
      current := fetch(pageCount).value;
    }
  }

  function Cutoff(p: Params): Time {
    p.dispatchedAt - CLOCK_SKEW_BUFFER
  }

  /** Entry i is the earliest-listed among the newest entries not older than the cutoff. */
  ghost predicate IsEarliestNewest(runs: seq<Run>, cutoff: Time, i: nat) {
    && i < |runs| && runs[i].createdAt >= cutoff
    && (forall j :: 0 <= j < i ==> runs[j].createdAt < cutoff || runs[j].createdAt < runs[i].createdAt)
    && (forall j :: i < j < |runs| ==> runs[j].createdAt <= runs[i].createdAt)
  }

  function Newer(best: Option<Run>, run: Run, cutoff: Time): Option<Run> {
    if run.createdAt < cutoff then best
    else if best.None? || run.createdAt > best.value.createdAt then Some(run)
    else best
  }

  function NewestFrom(best: Option<Run>, runs: seq<Run>, cutoff: Time): Option<Run> {
    if runs == [] then best
    else Newer(NewestFrom(best, runs[..|runs| - 1], cutoff), runs[|runs| - 1], cutoff)
  }

  function Newest(runs: seq<Run>, cutoff: Time): Option<Run> {
    NewestFrom(None, runs, cutoff)
  }

  lemma {:induction false} NewestAppend(best: Option<Run>, a: seq<Run>, b: seq<Run>, cutoff: Time)
    ensures NewestFrom(best, a + b, cutoff) == NewestFrom(NewestFrom(best, a, cutoff), b, cutoff)
    decreases |b|
  {
    if b == [] {
      assert a + b == a;
    } else {
      assert (a + b)[..|a + b| - 1] == a + b[..|b| - 1];
      NewestAppend(best, a, b[..|b| - 1], cutoff);
    }
  }

  /** The scan's pick is that entry, and there is none exactly when every entry is too old. */
  lemma {:induction false} NewestIsEarliest(runs: seq<Run>, cutoff: Time) returns (i: nat)
    ensures Newest(runs, cutoff).None? <==> forall j :: 0 <= j < |runs| ==> runs[j].createdAt < cutoff
    ensures Newest(runs, cutoff).Some? ==> IsEarliestNewest(runs, cutoff, i) && Newest(runs, cutoff).value == runs[i]
  {
    if runs == [] {
      i := 0;
    } else {
      var n := |runs| - 1;
      i := NewestIsEarliest(runs[..n], cutoff);
      var before := Newest(runs[..n], cutoff);
      if runs[n].createdAt >= cutoff && (before.None? || runs[n].createdAt > before.value.createdAt) {
        i := n;
      }
    }
  }

  function FallbackScan(fetch: nat -> Result<Page<Run>>, cutoff: Time): Result<Option<Run>> {
    match Scanned(fetch, 0)
    case Err(failure) => Err(failure)
    case Ok(runs) => Ok(Newest(runs, cutoff))
  }

  /** One page of the fallback scan. */
  method KeepNewest(before: Option<Run>, items: seq<Run>, cutoff: Time) returns (newest: Option<Run>)
    ensures newest == NewestFrom(before, items, cutoff)
  {
    newest := before;
    for i := 0 to |items|
      invariant newest == NewestFrom(before, items[..i], cutoff)
    {
      assert items[..i + 1][..i] == items[..i];
      if items[i].createdAt < cutoff {
        continue;
      }
      if newest.None? || items[i].createdAt > newest.value.createdAt {
        newest := Some(items[i]);
      }
    }
    assert items[..|items|] == items;
  }

  method ScanRunsForFallback(fetch: nat -> Result<Page<Run>>, cutoff: Time) returns (r: Result<Option<Run>>)
    ensures r == FallbackScan(fetch, cutoff)
  {
    var newest: Option<Run> := None;
    var pageCount: nat := 0;
    if fetch(0).Err? {
      return Err(fetch(0).failure);
    }
    var current := fetch(0).value;
    while true
      invariant pageCount < MAX_PAGES_PER_POLL && fetch(pageCount) == Ok(current)
      invariant newest == Newest(Collected(fetch, pageCount), cutoff)
      invariant Scanned(fetch, 0) == Scanned(fetch, pageCount)
      decreases MAX_PAGES_PER_POLL - pageCount
    {
      NewestAppend(None, Collected(fetch, pageCount), current.items, cutoff);
      pageCount := pageCount + 1;
      newest := KeepNewest(newest, current.items, cutoff);
      if pageCount >= MAX_PAGES_PER_POLL {
        return Ok(newest);
      }
      if !current.hasNext {
        return Ok(newest);
      }
      if fetch(pageCount).Err? {
        return Err(fetch(pageCount).failure);
      }
      current := fetch(pageCount).value;
    }
  }

  // ---------------------------------------------------------------------
  // The loop's environment
  // ---------------------------------------------------------------------

  /**
   * One pass: whether the token was cancelled when the deadline was computed and when a timeout was
   * reported, the clock at the deadline check, both listings, and the sleep at the end.
   */
  datatype Pass = Pass(
    cancelled: bool,
    cancelledAtReport: bool,
    onsetAt: Time,
    checkAt: Time,
    byName: nat -> Result<Page<Run>>,
    bySha: nat -> Result<Page<Run>>,
    sleepAt: Time,
    delay: nat,
    wokenByCancel: bool,
    wakeAt: Time)

  /** Drain onset: the instant at which some pass up to n first saw the token cancelled. */
  function Onset(passes: seq<Pass>, n: nat): Option<Time>
    requires n < |passes|
  {
    var earlier := if n == 0 then None else Onset(passes, n - 1);
    if earlier.Some? then earlier else if passes[n].cancelled then Some(passes[n].onsetAt) else None
  }

  function DeadlineFor(started: Time, cancelled: bool, onset: Option<Time>): Time {
    if cancelled && onset.Some? then Min(started + NORMAL_TIMEOUT, onset.value + DRAIN_TIMEOUT)
    else started + NORMAL_TIMEOUT
  }

  function Deadline(started: Time, passes: seq<Pass>, n: nat): Time
    requires n < |passes|
  {
    DeadlineFor(started, passes[n].cancelled, Onset(passes, n))
  }

  function SleepFor(deadline: Time, sleepAt: Time, delay: nat): nat {
    if deadline > sleepAt then Min(delay, deadline - sleepAt) else 0
  }

  /** The delay after pass i before jitter, which only adds to it: doubling up to a minute. */
  function Backoff(i: nat): nat {
    if i == 0 then POLL_INTERVAL_INITIAL else Min(POLL_INTERVAL_MAX, POLL_INTERVAL_FACTOR * Backoff(i - 1))
  }

  /** The least time n sleeps in full take. */
  function Slept(n: nat): nat {
    if n == 0 then 0 else Slept(n - 1) + Backoff(n - 1)
  }

  /** A token stays cancelled, the clock runs forward, a sleep that cancellation does not cut short lasts its time. */
  ghost predicate Legal(started: Time, passes: seq<Pass>) {
    && (forall i, j :: 0 <= i <= j < |passes| && passes[i].cancelled ==> passes[j].cancelled)
    && (forall i :: 0 <= i < |passes| ==>
          && started <= passes[i].onsetAt <= passes[i].checkAt <= passes[i].sleepAt <= passes[i].wakeAt
          && (passes[i].cancelled ==> passes[i].cancelledAtReport)
          && (!passes[i].wokenByCancel ==>
                passes[i].wakeAt >= passes[i].sleepAt + SleepFor(Deadline(started, passes, i), passes[i].sleepAt, passes[i].delay))
          && passes[i].delay >= Backoff(i))
    && (forall i :: 0 < i < |passes| ==>
          && passes[i - 1].wakeAt <= passes[i].onsetAt
          && (passes[i - 1].wokenByCancel ==> passes[i].cancelled))
  }

  // ---------------------------------------------------------------------
  // The loop
  // ---------------------------------------------------------------------

  datatype Outcome =
    | Found(run: Run)
    | Duplicate(ids: seq<nat>)
    | Timeout(after: nat)
    | ApiError(failure: Failure)
    | Ongoing

  /** What the name scan of a pass decides; None when the pass goes on. */
  function NameVerdict(p: Params, pass: Pass): Option<Outcome> {
    match MatchScan(pass.byName, Needle(p))
    case Ok(SingleMatch(run)) => Some(Found(run))
    case Ok(DuplicateMatch(ids)) => Some(Duplicate(ids))
    case Ok(NoMatch) => None
    case Err(failure) => if failure.transient then None else Some(ApiError(failure))
  }

  /** What the fallback scan of a pass decides. */
  function FallbackVerdict(p: Params, pass: Pass): Option<Outcome> {
    match FallbackScan(pass.bySha, Cutoff(p))
    case Ok(Some(run)) => Some(Found(run))
    case Ok(None) => None
    case Err(failure) => if failure.transient then None else Some(ApiError(failure))
  }

  /** How a pass ends the correlation; None when it goes on to sleep. */
  function PassVerdict(p: Params, started: Time, passes: seq<Pass>, n: nat): Option<Outcome>
    requires n < |passes|
  {
    var pass := passes[n];
    if pass.checkAt >= Deadline(started, passes, n) then
      Some(Timeout(if pass.cancelledAtReport then DRAIN_TIMEOUT else NORMAL_TIMEOUT))
    else if NameVerdict(p, pass).Some? then NameVerdict(p, pass)
    else if p.runNameConfigured == Some(true) then None
    else FallbackVerdict(p, pass)
  }

  method ScanNameMatch(p: Params, pass: Pass) returns (outcome: Option<Outcome>)
    ensures outcome == NameVerdict(p, pass)
  {
    var scan := ScanRunsForMatch(pass.byName, Needle(p));
    match scan {
      case Ok(SingleMatch(run)) => return Some(Found(run));
      case Ok(DuplicateMatch(ids)) => return Some(Duplicate(ids));
      case Ok(NoMatch) => return None;
      case Err(failure) =>
        if !failure.transient {
          return Some(ApiError(failure));
        }
        return None;
    }
  }

  method ScanHeadShaFallback(p: Params, pass: Pass) returns (outcome: Option<Outcome>)
    ensures outcome == FallbackVerdict(p, pass)
  {
    var fallback := ScanRunsForFallback(pass.bySha, Cutoff(p));
    match fallback {
      case Ok(Some(run)) => return Some(Found(run));
      case Ok(None) => return None;
      case Err(failure) =>
        if !failure.transient {
          return Some(ApiError(failure));
        }
        return None;
    }
  }

  /** Captures the drain onset on the first cancelled pass and never again. */
  method ComputeEffectiveDeadline(cancelled: bool, now: Time, normalDeadline: Time, drainStart: Option<Time>)
    returns (deadline: Time, onset: Option<Time>)
    ensures onset == if cancelled && drainStart.None? then Some(now) else drainStart
    ensures deadline == DeadlineFor(normalDeadline - NORMAL_TIMEOUT, cancelled, onset)
  {
    onset := drainStart;
    if cancelled {
      if onset.None? {
        onset := Some(now);
      }
      deadline := Min(normalDeadline, onset.value + DRAIN_TIMEOUT);
    } else {
      deadline := normalDeadline;
    }
  }

  /** Runs the loop against the script; `last` is the pass that ended it. */
  method Correlate(p: Params, started: Time, passes: seq<Pass>) returns (outcome: Outcome, last: nat)
    ensures last <= |passes| && forall i :: 0 <= i < last ==> PassVerdict(p, started, passes, i).None?
    ensures last < |passes| ==> PassVerdict(p, started, passes, last) == Some(outcome)
    ensures last == |passes| ==> outcome == Ongoing
  {
    var normalDeadline := started + NORMAL_TIMEOUT;
    var drainStart: Option<Time> := None;
    last := 0;
    while last < |passes|
      invariant last <= |passes|
      invariant forall i :: 0 <= i < last ==> PassVerdict(p, started, passes, i).None?
      invariant drainStart == if last == 0 then None else Onset(passes, last - 1)
    {
      var pass := passes[last];
      var deadline;
      deadline, drainStart := ComputeEffectiveDeadline(pass.cancelled, pass.onsetAt, normalDeadline, drainStart);
      if pass.checkAt >= deadline {
        return Timeout(if pass.cancelledAtReport then DRAIN_TIMEOUT else NORMAL_TIMEOUT), last;
      }
      var named := ScanNameMatch(p, pass);
      if named.Some? {
        return named.value, last;
      }
      if p.runNameConfigured != Some(true) {
        var fallback := ScanHeadShaFallback(p, pass);
        if fallback.Some? {
          return fallback.value, last;
        }
      }
      last := last + 1;
    }
    outcome := Ongoing;
  }

  // ---------------------------------------------------------------------
  // Soundness
  // ---------------------------------------------------------------------

  /** Entry i carries the marker and no other entry does. */
  ghost predicate OnlyMatch(runs: seq<Run>, needle: string, i: nat) {
    && i < |runs| && Contains(runs[i].name, needle)
    && forall j :: 0 <= j < |runs| && j != i ==> !Contains(runs[j].name, needle)
  }

  lemma {:induction false} NoneMatching(runs: seq<Run>, needle: string)
    ensures Matching(runs, needle) == [] <==> forall j :: 0 <= j < |runs| ==> !Contains(runs[j].name, needle)
  {
    if runs != [] {
      NoneMatching(runs[..|runs| - 1], needle);
    }
  }

  /** The scan has a single match exactly when one entry, counted with repetition, carries the marker. */
  lemma {:induction false} SingleIsOnly(runs: seq<Run>, needle: string) returns (i: nat)
    requires |Matching(runs, needle)| == 1
    ensures OnlyMatch(runs, needle, i) && Matching(runs, needle) == [runs[i]]
  {
    var n := |runs| - 1;
    var init := runs[..n];
    if Contains(runs[n].name, needle) {
      NoneMatching(init, needle);
      i := n;
    } else {
      i := SingleIsOnly(init, needle);
    }
  }

  lemma {:induction false} OnlyIsSingle(runs: seq<Run>, needle: string, i: nat)
    requires OnlyMatch(runs, needle, i)
    ensures Matching(runs, needle) == [runs[i]]
  {
    var n := |runs| - 1;
    var init := runs[..n];
    if i == n {
      NoneMatching(init, needle);
    } else {
      OnlyIsSingle(init, needle, i);
    }
  }

  /** The run's name carries the marker of this dispatch. */
  predicate Marked(p: Params, run: Run) {
    Contains(run.name, "gcit-" + p.gcitRunId)
  }

  /** A run is marked exactly when the marker is a contiguous part of its name. */
  lemma MarkedIff(p: Params, run: Run)
    ensures var marker := "gcit-" + p.gcitRunId;
            Marked(p, run) <==> exists i, j :: 0 <= i <= j <= |run.name| && run.name[i..j] == marker
  {
    var marker, name := "gcit-" + p.gcitRunId, run.name;
    if Marked(p, run) {
      var i :| 0 <= i <= |name| && marker <= name[i..];
      assert name[i..i + |marker|] == name[i..][..|marker|];
    }
    if i, j :| 0 <= i <= j <= |name| && name[i..j] == marker {
      assert name[i..][..j - i] == name[i..j];
    }
  }

  /** The only marked entry of the name scan. */
  ghost predicate FoundByName(p: Params, pass: Pass, run: Run, i: nat) {
    var byName := Scanned(pass.byName, 0);
    && byName.Ok? && i < |byName.value| && run == byName.value[i] && Marked(p, run)
    && forall j :: 0 <= j < |byName.value| && j != i ==> !Marked(p, byName.value[j])
  }

  /** Two or more entries of the name scan are marked. */
  ghost predicate ManyMarked(p: Params, pass: Pass) {
    var byName := Scanned(pass.byName, 0);
    byName.Ok? && exists i, j :: 0 <= i < j < |byName.value| && Marked(p, byName.value[i]) && Marked(p, byName.value[j])
  }

  /** The name scan saw every page it may look at and no marked entry, or a page failed for the moment. */
  ghost predicate NameUndecided(p: Params, pass: Pass) {
    match Scanned(pass.byName, 0)
    case Ok(runs) => forall j :: 0 <= j < |runs| ==> !Marked(p, runs[j])
    case Err(failure) => failure.transient
  }

  /** The fallback is tried: the run name is not known to be configured and the name scan decided nothing. */
  ghost predicate FallsBack(p: Params, pass: Pass) {
    NameUndecided(p, pass) && p.runNameConfigured != Some(true)
  }

  /** The earliest-listed newest entry created no earlier than two minutes before dispatch. */
  ghost predicate FoundByAge(p: Params, pass: Pass, run: Run, i: nat) {
    var bySha := Scanned(pass.bySha, 0);
    && FallsBack(p, pass)
    && bySha.Ok? && IsEarliestNewest(bySha.value, p.dispatchedAt - 120, i) && run == bySha.value[i]
  }

  /** A scan that the pass made failed for good. */
  ghost predicate FailsForGood(p: Params, pass: Pass, failure: Failure) {
    && !failure.transient
    && (Scanned(pass.byName, 0) == Err(failure) || (FallsBack(p, pass) && Scanned(pass.bySha, 0) == Err(failure)))
  }

  /** Neither scan decided: nothing is marked, and the fallback was not tried, found nothing recent or failed for the moment. */
  ghost predicate Undecided(p: Params, pass: Pass) {
    && NameUndecided(p, pass)
    && (FallsBack(p, pass) ==>
          match Scanned(pass.bySha, 0)
          case Ok(runs) => forall j :: 0 <= j < |runs| ==> runs[j].createdAt < p.dispatchedAt - 120
          case Err(failure) => failure.transient)
  }

  lemma NameFindIsSound(p: Params, pass: Pass, run: Run) returns (i: nat)
    requires NameVerdict(p, pass) == Some(Found(run))
    ensures FoundByName(p, pass, run, i)
  {
    i := SingleIsOnly(Scanned(pass.byName, 0).value, Needle(p));
  }

  lemma AgeFindIsSound(p: Params, pass: Pass, run: Run) returns (i: nat)
    requires NameVerdict(p, pass).None? && p.runNameConfigured != Some(true)
    requires FallbackVerdict(p, pass) == Some(Found(run))
    ensures FoundByAge(p, pass, run, i)
  {
    i := NewestIsEarliest(Scanned(pass.bySha, 0).value, Cutoff(p));
    if Scanned(pass.byName, 0).Ok? {
      NoneMatching(Scanned(pass.byName, 0).value, Needle(p));
    }
  }

  lemma NameFindIsComplete(p: Params, pass: Pass, run: Run, i: nat)
    requires FoundByName(p, pass, run, i)
    ensures NameVerdict(p, pass) == Some(Found(run))
  {
    OnlyIsSingle(Scanned(pass.byName, 0).value, Needle(p), i);
  }

  lemma AgeFindIsComplete(p: Params, pass: Pass, run: Run, i: nat)
    requires FoundByAge(p, pass, run, i)
    ensures NameVerdict(p, pass).None? && FallbackVerdict(p, pass) == Some(Found(run))
  {
    var k := NewestIsEarliest(Scanned(pass.bySha, 0).value, Cutoff(p));
    if Scanned(pass.byName, 0).Ok? {
      NoneMatching(Scanned(pass.byName, 0).value, Needle(p));
    }
  }

  /** Exactly when a pass ends with a run, and which. */
  lemma FoundIff(p: Params, started: Time, passes: seq<Pass>, n: nat, run: Run)
    requires n < |passes|
    ensures PassVerdict(p, started, passes, n) == Some(Found(run))
            <==> && passes[n].checkAt < Deadline(started, passes, n)
                 && ((exists i :: FoundByName(p, passes[n], run, i)) || (exists i :: FoundByAge(p, passes[n], run, i)))
  {
    if PassVerdict(p, started, passes, n) == Some(Found(run)) {
      if NameVerdict(p, passes[n]).Some? {
        var i := NameFindIsSound(p, passes[n], run);
      } else {
        var i := AgeFindIsSound(p, passes[n], run);
      }
    }
    if i :| FoundByName(p, passes[n], run, i) {
      NameFindIsComplete(p, passes[n], run, i);
    }
    if i :| FoundByAge(p, passes[n], run, i) {
      AgeFindIsComplete(p, passes[n], run, i);
    }
  }

  lemma NameVerdictIff(p: Params, pass: Pass)
    ensures NameVerdict(p, pass).None? <==> NameUndecided(p, pass)
    ensures NameVerdict(p, pass).Some? ==> NameVerdict(p, pass).value.Found? || NameVerdict(p, pass).value.Duplicate?
                                           || NameVerdict(p, pass).value.ApiError?
    ensures forall f :: NameVerdict(p, pass) == Some(ApiError(f)) <==> Scanned(pass.byName, 0) == Err(f) && !f.transient
  {
    if Scanned(pass.byName, 0).Ok? {
      NoneMatching(Scanned(pass.byName, 0).value, Needle(p));
    }
  }

  lemma FallbackVerdictIff(p: Params, pass: Pass)
    ensures FallbackVerdict(p, pass).None?
            <==> match Scanned(pass.bySha, 0)
                 case Ok(runs) => forall j :: 0 <= j < |runs| ==> runs[j].createdAt < p.dispatchedAt - 120
                 case Err(failure) => failure.transient
    ensures FallbackVerdict(p, pass).Some? ==> FallbackVerdict(p, pass).value.Found? || FallbackVerdict(p, pass).value.ApiError?
    ensures forall f :: FallbackVerdict(p, pass) == Some(ApiError(f)) <==> Scanned(pass.bySha, 0) == Err(f) && !f.transient
  {
    if Scanned(pass.bySha, 0).Ok? {
      var i := NewestIsEarliest(Scanned(pass.bySha, 0).value, Cutoff(p));
    }
  }

  /** A pass ends in an error exactly when a scan it made failed for good, and with that failure. */
  lemma ApiErrorIff(p: Params, started: Time, passes: seq<Pass>, n: nat, failure: Failure)
    requires n < |passes|
    ensures PassVerdict(p, started, passes, n) == Some(ApiError(failure))
            <==> passes[n].checkAt < Deadline(started, passes, n) && FailsForGood(p, passes[n], failure)
  {
    NameVerdictIff(p, passes[n]);
    FallbackVerdictIff(p, passes[n]);
  }

  /** It ends in a timeout exactly at or past its deadline, reporting 30 s after cancellation and 300 s otherwise. */
  lemma TimeoutIff(p: Params, started: Time, passes: seq<Pass>, n: nat, after: nat)
    requires n < |passes|
    ensures PassVerdict(p, started, passes, n) == Some(Timeout(after))
            <==> passes[n].checkAt >= Deadline(started, passes, n) && after == if passes[n].cancelledAtReport then 30 else 300
  {
    NameVerdictIff(p, passes[n]);
    FallbackVerdictIff(p, passes[n]);
  }

  /** It goes on exactly when it is in time and neither scan decided. */
  lemma GoesOnIff(p: Params, started: Time, passes: seq<Pass>, n: nat)
    requires n < |passes|
    ensures PassVerdict(p, started, passes, n).None?
            <==> passes[n].checkAt < Deadline(started, passes, n) && Undecided(p, passes[n])
  {
    NameVerdictIff(p, passes[n]);
    FallbackVerdictIff(p, passes[n]);
  }

  /** Two entries contain the text. */
  ghost predicate TwoContain(runs: seq<Run>, needle: string) {
    exists i, j :: 0 <= i < j < |runs| && Contains(runs[i].name, needle) && Contains(runs[j].name, needle)
  }

  lemma TwoContainSnoc(init: seq<Run>, last: Run, needle: string)
    ensures TwoContain(init + [last], needle)
            <==> TwoContain(init, needle)
                 || (Contains(last.name, needle) && exists i :: 0 <= i < |init| && Contains(init[i].name, needle))
  {
    var all, n := init + [last], |init|;
    if i, j :| 0 <= i < j < n && Contains(init[i].name, needle) && Contains(init[j].name, needle) {
      assert Contains(all[i].name, needle) && Contains(all[j].name, needle);
    }
    if i :| 0 <= i < n && Contains(init[i].name, needle) {
      assert Contains(last.name, needle) ==> Contains(all[i].name, needle) && Contains(all[n].name, needle);
    }
    if i, j :| 0 <= i < j < |all| && Contains(all[i].name, needle) && Contains(all[j].name, needle) {
      assert Contains(init[i].name, needle);
      assert j < n ==> Contains(init[j].name, needle);
    }
  }

  lemma {:induction false} ManyMatching(runs: seq<Run>, needle: string)
    ensures |Matching(runs, needle)| >= 2 <==> TwoContain(runs, needle)
  {
    if runs != [] {
      var n := |runs| - 1;
      ManyMatching(runs[..n], needle);
      NoneMatching(runs[..n], needle);
      TwoContainSnoc(runs[..n], runs[n], needle);
      assert runs[..n] + [runs[n]] == runs;
    }
  }

  /** It ends in a duplicate report exactly when it is in time and two or more entries are marked. */
  lemma DuplicateIff(p: Params, started: Time, passes: seq<Pass>, n: nat)
    requires n < |passes|
    ensures PassVerdict(p, started, passes, n).Some? && PassVerdict(p, started, passes, n).value.Duplicate?
            <==> passes[n].checkAt < Deadline(started, passes, n) && ManyMarked(p, passes[n])
  {
    NameVerdictIff(p, passes[n]);
    FallbackVerdictIff(p, passes[n]);
    if Scanned(passes[n].byName, 0).Ok? {
      ManyMatching(Scanned(passes[n].byName, 0).value, Needle(p));
    }
  }

  /** Where a name scan that came through saw a marked entry, the age of a run decides nothing. */
  lemma MarkedShutsOutAge(p: Params, started: Time, passes: seq<Pass>, n: nat, j: nat, run: Run)
    requires n < |passes| && Scanned(passes[n].byName, 0).Ok?
    requires j < |Scanned(passes[n].byName, 0).value| && Contains(Scanned(passes[n].byName, 0).value[j].name, Needle(p))
    requires PassVerdict(p, started, passes, n) == Some(Found(run))
    ensures run == Scanned(passes[n].byName, 0).value[j] && OnlyMatch(Scanned(passes[n].byName, 0).value, Needle(p), j)
  {
    NoneMatching(Scanned(passes[n].byName, 0).value, Needle(p));
    var i := NameFindIsSound(p, passes[n], run);
  }

  /**
   * Otherwise a marked entry can be passed over: it is on the first page of the name scan, whose second
   * page fails for the moment, and the pass ends with whatever run the other listing shows.
   */
  lemma MarkedPassedOver(p: Params, started: Time, passes: seq<Pass>, n: nat, marked: Run, other: Run, failure: Failure)
    requires n < |passes| && passes[n].checkAt < Deadline(started, passes, n) && p.runNameConfigured != Some(true)
    requires Contains(marked.name, Needle(p)) && other.createdAt >= Cutoff(p) && failure.transient
    requires passes[n].byName(0) == Ok(Page([marked], true)) && passes[n].byName(1) == Err(failure)
    requires passes[n].bySha(0) == Ok(Page([other], false))
    ensures PassVerdict(p, started, passes, n) == Some(Found(other))
  {
    var pass := passes[n];
    assert Scanned(pass.byName, 0) == Err(failure);
    assert Collected(pass.bySha, 0) == [];
    assert Collected(pass.bySha, 1) == [other];
    assert Scanned(pass.bySha, 0) == Ok([other]);
    assert IsEarliestNewest([other], p.dispatchedAt - 120, 0);
    AgeFindIsComplete(p, pass, other, 0);
  }

  /** A lone marked entry is always the answer of its pass: neither the fallback nor a timeout displaces it. */
  lemma OnlyMatchIsFound(p: Params, started: Time, passes: seq<Pass>, n: nat, i: nat)
    requires n < |passes| && passes[n].checkAt < Deadline(started, passes, n)
    requires Scanned(passes[n].byName, 0).Ok? && OnlyMatch(Scanned(passes[n].byName, 0).value, Needle(p), i)
    ensures PassVerdict(p, started, passes, n) == Some(Found(Scanned(passes[n].byName, 0).value[i]))
  {
    OnlyIsSingle(Scanned(passes[n].byName, 0).value, Needle(p), i);
  }

  /** Positions of the marked entries, in listing order. */
  ghost predicate Marks(runs: seq<Run>, needle: string, positions: seq<nat>) {
    && (forall a, b :: 0 <= a < b < |positions| ==> positions[a] < positions[b])
    && (forall k: nat :: k in positions <==> k < |runs| && Contains(runs[k].name, needle))
  }

  lemma MarksSnoc(init: seq<Run>, last: Run, needle: string, before: seq<nat>)
    requires Marks(init, needle, before)
    ensures Marks(init + [last], needle, before + if Contains(last.name, needle) then [|init|] else [])
  {
    var n, all := |init|, init + [last];
    var positions := before + if Contains(last.name, needle) then [n] else [];
    forall a | 0 <= a < |before|
      ensures before[a] < n
    {
      assert before[a] in before;
    }
    forall k: nat
      ensures k in positions <==> k < |all| && Contains(all[k].name, needle)
    {
      assert k in positions <==> k in before || (k == n && Contains(last.name, needle));
    }
  }

  lemma {:induction false} MatchingIsMarked(runs: seq<Run>, needle: string) returns (positions: seq<nat>)
    ensures Marks(runs, needle, positions) && |Matching(runs, needle)| == |positions|
    ensures forall a :: 0 <= a < |positions| ==> positions[a] < |runs| && Matching(runs, needle)[a] == runs[positions[a]]
  {
    positions := [];
    if runs != [] {
      var init, last := runs[..|runs| - 1], runs[|runs| - 1];
      var before := MatchingIsMarked(init, needle);
      assert runs == init + [last];
      MarksSnoc(init, last, needle, before);
      positions := before + if Contains(last.name, needle) then [|init|] else [];
    }
  }

  /** A duplicate verdict lists the ids of these entries, in order. */
  ghost predicate Lists(verdict: Option<Outcome>, runs: seq<Run>, positions: seq<nat>) {
    && verdict.Some? && verdict.value.Duplicate? && |verdict.value.ids| == |positions|
    && forall a :: 0 <= a < |positions| ==> positions[a] < |runs| && verdict.value.ids[a] == runs[positions[a]].id
  }

  lemma NameDuplicates(p: Params, pass: Pass) returns (positions: seq<nat>)
    requires Scanned(pass.byName, 0).Ok?
    ensures var runs := Scanned(pass.byName, 0).value;
            && Marks(runs, Needle(p), positions)
            && (|positions| >= 2 ==> Lists(NameVerdict(p, pass), runs, positions))
            && (|positions| < 2 ==> !NameVerdict(p, pass).Some? || NameVerdict(p, pass).value.Found?)
  {
    var runs := Scanned(pass.byName, 0).value;
    positions := MatchingIsMarked(runs, Needle(p));
    assert MatchScan(pass.byName, Needle(p)) == Ok(Judge(Matching(runs, Needle(p))));
  }

  /**
   * A name scan begun before the deadline ends in a duplicate report exactly when two or more entries
   * are marked, and the report lists the ids of all of them, in listing order.
   */
  lemma DuplicatesAlwaysReported(p: Params, started: Time, passes: seq<Pass>, n: nat) returns (positions: seq<nat>)
    requires n < |passes| && passes[n].checkAt < Deadline(started, passes, n)
    requires Scanned(passes[n].byName, 0).Ok?
    ensures var runs, verdict := Scanned(passes[n].byName, 0).value, PassVerdict(p, started, passes, n);
            && Marks(runs, Needle(p), positions)
            && (verdict.Some? && verdict.value.Duplicate? <==> |positions| >= 2)
            && (|positions| >= 2 ==> Lists(verdict, runs, positions))
  {
    positions := NameDuplicates(p, passes[n]);
  }

  // ---------------------------------------------------------------------
  // Deadlines
  // ---------------------------------------------------------------------

  lemma {:induction false} OnsetStays(passes: seq<Pass>, m: nat, n: nat)
    requires m <= n < |passes|
    ensures Onset(passes, m).Some? ==> Onset(passes, n) == Onset(passes, m)
    decreases n
  {
    if m < n {
      OnsetStays(passes, m, n - 1);
    }
  }

  lemma {:induction false} OnsetIsFirst(passes: seq<Pass>, n: nat)
    requires n < |passes|
    ensures Onset(passes, n).Some? <==> exists i :: 0 <= i <= n && passes[i].cancelled
  {
    if n > 0 {
      OnsetIsFirst(passes, n - 1);
    }
  }

  /** Five minutes after the start; from the first pass that saw the token cancelled, no later than thirty seconds after that sight. */
  lemma DeadlineExact(started: Time, passes: seq<Pass>, n: nat) returns (i: nat)
    requires n < |passes|
    ensures !passes[n].cancelled ==> Deadline(started, passes, n) == started + 300
    ensures passes[n].cancelled ==>
              && i <= n && passes[i].cancelled && (forall j :: 0 <= j < i ==> !passes[j].cancelled)
              && Deadline(started, passes, n) == Min(started + 300, passes[i].onsetAt + 30)
  {
    i := FirstSight(passes, n);
  }

  lemma {:induction false} FirstSight(passes: seq<Pass>, n: nat) returns (i: nat)
    requires n < |passes|
    ensures Onset(passes, n).Some? ==>
              && i <= n && passes[i].cancelled && (forall j :: 0 <= j < i ==> !passes[j].cancelled)
              && Onset(passes, n).value == passes[i].onsetAt
    ensures Onset(passes, n).None? ==> forall j :: 0 <= j <= n ==> !passes[j].cancelled
  {
    i := n;
    if n > 0 {
      var k := FirstSight(passes, n - 1);
      if Onset(passes, n - 1).Some? {
        i := k;
      }
    }
  }

  /**
   * The effective deadline never moves later. Once a pass has seen the token cancelled, every later
   * deadline is the same: thirty seconds after that first sight, or the normal one if earlier.
   */
  lemma DeadlineOnlyShrinks(started: Time, passes: seq<Pass>, m: nat, n: nat)
    requires Legal(started, passes) && m <= n < |passes|
    ensures Deadline(started, passes, n) <= Deadline(started, passes, m) <= started + NORMAL_TIMEOUT
    ensures passes[m].cancelled ==>
              && Onset(passes, m).Some?
              && Deadline(started, passes, n) == Deadline(started, passes, m)
                 == Min(started + NORMAL_TIMEOUT, Onset(passes, m).value + DRAIN_TIMEOUT)
  {
    OnsetStays(passes, m, n);
    OnsetIsFirst(passes, m);
    OnsetIsFirst(passes, n);
  }

  /**
   * No pass that goes on to its scans does so at or past its deadline, and once pass m has seen the token
   * cancelled, every later one does so within thirty seconds of that onset.
   */
  lemma ScansBeforeDeadline(p: Params, started: Time, passes: seq<Pass>, m: nat, n: nat)
    requires Legal(started, passes) && m <= n < |passes|
    requires PassVerdict(p, started, passes, n).None? || !PassVerdict(p, started, passes, n).value.Timeout?
    ensures passes[n].checkAt < Deadline(started, passes, n) <= started + NORMAL_TIMEOUT
    ensures passes[m].cancelled ==> Onset(passes, m).Some? && passes[n].checkAt < Onset(passes, m).value + DRAIN_TIMEOUT
  {
    DeadlineOnlyShrinks(started, passes, m, n);
  }

  lemma {:induction false} TimeAdvances(started: Time, passes: seq<Pass>, n: nat)
    requires Legal(started, passes) && n < |passes|
    requires !passes[n].cancelled
    ensures passes[n].checkAt >= Min(started + Slept(n), started + NORMAL_TIMEOUT)
  {
    if n > 0 {
      assert !passes[n - 1].cancelled && !passes[n - 1].wokenByCancel;
      TimeAdvances(started, passes, n - 1);
      assert passes[n - 1].wakeAt <= passes[n].onsetAt;
    }
  }

  /** The delays are 5, 10, 20 and 40 seconds, and a minute from then on. */
  lemma {:induction false} BackoffIs(i: nat)
    ensures Backoff(i) == if i == 0 then 5 else if i == 1 then 10 else if i == 2 then 20 else if i == 3 then 40 else 60
  {
    if i > 0 {
      BackoffIs(i - 1);
    }
  }

  /** Eight sleeps, of 5, 10, 20, 40 and four times 60 seconds, use up the five minutes. */
  lemma EightSleeps()
    ensures Slept(7) < NORMAL_TIMEOUT <= Slept(8)
  {
    assert Backoff(0) == 5 && Backoff(1) == 10 && Backoff(2) == 20 && Backoff(3) == 40;
    assert Backoff(4) == 60 && Backoff(5) == 60 && Backoff(6) == 60 && Backoff(7) == 60;
    assert Slept(1) == 5 && Slept(2) == 15 && Slept(3) == 35 && Slept(4) == 75;
    assert Slept(5) == 135 && Slept(6) == 195 && Slept(7) == 255;
  }

  lemma {:induction false} EarlySleeps(n: nat)
    ensures Slept(n) < NORMAL_TIMEOUT <==> n < 8
  {
    EightSleeps();
    if n < 7 {
      SleptGrows(n, 7);
    } else if n > 8 {
      SleptGrows(8, n);
    }
  }

  lemma {:induction false} SleptGrows(m: nat, n: nat)
    requires m <= n
    ensures Slept(m) <= Slept(n)
  {
    if m < n {
      SleptGrows(m, n - 1);
    }
  }

  /** A pass that goes on uncancelled had its deadline check within the five minutes. */
  lemma GoesOnEarly(p: Params, started: Time, passes: seq<Pass>, n: nat)
    requires n < |passes| && !passes[n].cancelled && PassVerdict(p, started, passes, n).None?
    ensures passes[n].checkAt < started + NORMAL_TIMEOUT
  {
  }

  /** Without cancellation only the first eight passes can go on past their scans, so the ninth ends the loop. */
  lemma AttemptsBounded(p: Params, started: Time, passes: seq<Pass>, n: nat)
    requires Legal(started, passes) && n < |passes|
    requires !passes[n].cancelled && PassVerdict(p, started, passes, n).None?
    ensures n < 8
  {
    GoesOnEarly(p, started, passes, n);
    TimeAdvances(started, passes, n);
    EarlySleeps(n);
  }
}
