// The per-run monitor: poll a run and its jobs until it is terminal, streaming one event per
// successful poll (src/github/monitor.rs). The server's answers are arbitrary.

module RunMonitor {
  import opened Prelude
  import opened Paging

  type Time = int

  const MAX_JOBS_PER_RUN: nat := 1000
  const MAX_JOBS_PAGES: nat := 10

  /** A conclusion is its API string. */
  datatype Job = Job(id: nat, conclusion: Option<string>, attempt: nat)

  datatype RunStatus = Queued | InProgress | Completed | Waiting | UnknownStatus

  datatype Run = Run(runId: nat, status: RunStatus, conclusion: Option<string>, completedAt: Option<Time>)

  datatype Summary = Summary(run: Run, attempt: nat, jobs: seq<Job>) {
    predicate IsTerminal() {
      run.status.Completed?
    }
  }

  // ---------------------------------------------------------------------
  // Paginated job list
  // ---------------------------------------------------------------------

  function Take<T>(s: seq<T>, n: nat): seq<T> {
    if |s| < n then s else s[..n]
  }

  /** The verdict from page k on, when the pages before it gave fewer jobs than the cap. */
  function ListFrom(fetch: nat -> Result<Page<Job>>, k: nat): Result<seq<Job>>
    requires k < MAX_JOBS_PAGES
    decreases MAX_JOBS_PAGES - k
  {
    match fetch(k)
    case Err(failure) => Err(failure)
    case Ok(page) =>
      var out := Collected(fetch, k + 1);
      if |out| >= MAX_JOBS_PER_RUN then Ok(out[..MAX_JOBS_PER_RUN])
      else if k + 1 >= MAX_JOBS_PAGES || !page.hasNext then Ok(out)
      else ListFrom(fetch, k + 1)
  }

  /** One page of the walk: pushes its jobs until the list is full. */
  method PushJobs(before: seq<Job>, items: seq<Job>) returns (out: seq<Job>, full: bool)
    requires |before| < MAX_JOBS_PER_RUN
    ensures full <==> |before + items| >= MAX_JOBS_PER_RUN
    ensures out == if full then (before + items)[..MAX_JOBS_PER_RUN] else before + items
  {
    out := before;
    for i := 0 to |items|
      invariant out == before + items[..i] && |out| < MAX_JOBS_PER_RUN
    {
      out := out + [items[i]];
      if |out| >= MAX_JOBS_PER_RUN {
        return out, true;
      }
    }
    full := false;
  }

  /** Walks the pages and stops at either cap. */
  method ListAllJobs(fetch: nat -> Result<Page<Job>>) returns (r: Result<seq<Job>>)
    ensures r == ListFrom(fetch, 0)
  {
    var out: seq<Job> := [];
    var pages: nat := 0;
    if fetch(0).Err? {
      return Err(fetch(0).failure);
    }
    var current := fetch(0).value;
    while true
      invariant pages < MAX_JOBS_PAGES && fetch(pages) == Ok(current)
      invariant out == Collected(fetch, pages) && |out| < MAX_JOBS_PER_RUN
      invariant ListFrom(fetch, 0) == ListFrom(fetch, pages)
      decreases MAX_JOBS_PAGES - pages
    {
      pages := pages + 1;
      var full;
      out, full := PushJobs(out, current.items);
      if full {
        return Ok(out);
      }
      if pages >= MAX_JOBS_PAGES {
        return Ok(out);
      }
      if !current.hasNext {
        return Ok(out);
      }
      if fetch(pages).Err? {
        return Err(fetch(pages).failure);
      }
      current := fetch(pages).value;
    }
  }

  /** A complete listing yields the first 1000 jobs of the concatenation of its first ten pages. */
  lemma {:induction false} ListingIsPrefix(fetch: nat -> Result<Page<Job>>, k: nat, n: nat)
    requires k < n && Listing(fetch, n, MAX_JOBS_PAGES)
    ensures ListFrom(fetch, k) == Ok(Take(Collected(fetch, n), MAX_JOBS_PER_RUN))
    decreases n - k
  {
    CollectedGrows(fetch, k + 1, n);
    var some, all := Collected(fetch, k + 1), Collected(fetch, n);
    if |some| >= MAX_JOBS_PER_RUN {
      assert some[..MAX_JOBS_PER_RUN] == all[..MAX_JOBS_PER_RUN];
    }
    if k + 1 < n {
      assert fetch(k).Ok? && fetch(k).value.hasNext;
      ListingIsPrefix(fetch, k + 1, n);
    } else {
      assert k == n - 1 && fetch(k).Ok?;
    }
  }

  /** The walk ends after n pages: they arrived, each but the last links on and leaves room, and the last ends the list. */
  ghost predicate WalkEnds(fetch: nat -> Result<Page<Job>>, n: nat) {
    && 1 <= n <= 10 && Linked(fetch, n - 1) && fetch(n - 1).Ok? && |Collected(fetch, n - 1)| < 1000
    && (n == 10 || !fetch(n - 1).value.hasNext || |Collected(fetch, n)| >= 1000)
  }

  /** The walk fails at page n: all before it arrived, link on and leave room. */
  ghost predicate WalkFails(fetch: nat -> Result<Page<Job>>, n: nat, failure: Failure) {
    n < 10 && Linked(fetch, n) && |Collected(fetch, n)| < 1000 && fetch(n) == Err(failure)
  }

  /** Every listing ends in one of these two ways: with the first 1000 jobs of whole linked pages, or with the failure of a page that had to be fetched. */
  lemma {:induction false} ListOutcome(fetch: nat -> Result<Page<Job>>, k: nat) returns (n: nat)
    requires k < MAX_JOBS_PAGES && Linked(fetch, k) && |Collected(fetch, k)| < MAX_JOBS_PER_RUN
    ensures ListFrom(fetch, k).Ok? ==> WalkEnds(fetch, n) && ListFrom(fetch, k) == Ok(Take(Collected(fetch, n), 1000))
    ensures ListFrom(fetch, k).Err? ==> WalkFails(fetch, n, ListFrom(fetch, k).failure)
    decreases MAX_JOBS_PAGES - k
  {
    if fetch(k).Err? {
      n := k;
    } else if |Collected(fetch, k + 1)| >= MAX_JOBS_PER_RUN || k + 1 >= MAX_JOBS_PAGES || !fetch(k).value.hasNext {
      n := k + 1;
    } else {
      n := ListOutcome(fetch, k + 1);
    }
  }

  /** Two walks of one listing end at the same page. */
  lemma WalkEndsOnce(fetch: nat -> Result<Page<Job>>, m: nat, n: nat)
    requires WalkEnds(fetch, m) && WalkEnds(fetch, n)
    ensures m == n
  {
    if m < n {
      CollectedGrows(fetch, m, n - 1);
    } else if n < m {
      CollectedGrows(fetch, n, m - 1);
    }
  }

  lemma WalkEndsOrFails(fetch: nat -> Result<Page<Job>>, m: nat, n: nat, failure: Failure)
    requires WalkEnds(fetch, m)
    ensures !WalkFails(fetch, n, failure)
  {
    if m <= n {
      CollectedGrows(fetch, m, n);
    }
  }

  lemma WalkFailsOnce(fetch: nat -> Result<Page<Job>>, m: nat, n: nat, f: Failure, g: Failure)
    requires WalkFails(fetch, m, f) && WalkFails(fetch, n, g)
    ensures f == g
  {
  }

  /** So the listing is the first 1000 jobs exactly when the walk ends, and a failure exactly when it fails. */
  lemma ListIff(fetch: nat -> Result<Page<Job>>)
    ensures forall jobs :: ListFrom(fetch, 0) == Ok(jobs)
                           <==> exists n :: WalkEnds(fetch, n) && jobs == Take(Collected(fetch, n), 1000)
    ensures forall f :: ListFrom(fetch, 0) == Err(f) <==> exists n :: WalkFails(fetch, n, f)
  {
    var n := ListOutcome(fetch, 0);
    forall m | WalkEnds(fetch, m)
      ensures ListFrom(fetch, 0) == Ok(Take(Collected(fetch, m), 1000))
    {
      if ListFrom(fetch, 0).Ok? {
        WalkEndsOnce(fetch, m, n);
      } else {
        WalkEndsOrFails(fetch, m, n, ListFrom(fetch, 0).failure);
      }
    }
    forall m, f | WalkFails(fetch, m, f)
      ensures ListFrom(fetch, 0) == Err(f)
    {
      if ListFrom(fetch, 0).Ok? {
        WalkEndsOrFails(fetch, n, m, f);
      } else {
        WalkFailsOnce(fetch, m, n, f, ListFrom(fetch, 0).failure);
      }
    }
  }

  // ---------------------------------------------------------------------
  // One poll
  // ---------------------------------------------------------------------

  /** The highest attempt among the jobs; 1 when there are none. */
  function Attempt(jobs: seq<Job>): (a: nat)
    ensures jobs == [] ==> a == 1
    ensures jobs != [] ==> exists i :: 0 <= i < |jobs| && jobs[i].attempt == a
    ensures forall i :: 0 <= i < |jobs| ==> jobs[i].attempt <= a
  {
    if jobs == [] then 1
    else if |jobs| == 1 then jobs[0].attempt
    else
      var rest := Attempt(jobs[..|jobs| - 1]);
      if jobs[|jobs| - 1].attempt > rest then jobs[|jobs| - 1].attempt else rest
  }

  /** Run first, then its jobs; the first failure is the answer. */
  function Polled(run: Result<Run>, fetch: nat -> Result<Page<Job>>): Result<Summary> {
    match run
    case Err(failure) => Err(failure)
    case Ok(r) =>
      match ListFrom(fetch, 0)
      case Err(failure) => Err(failure)
      case Ok(jobs) => Ok(Summary(r, Attempt(jobs), jobs))
  }

  method PollOne(run: Result<Run>, fetch: nat -> Result<Page<Job>>) returns (r: Result<Summary>)
    ensures r == Polled(run, fetch)
  {
    if run.Err? {
      return Err(run.failure);
    }
    var jobs := ListAllJobs(fetch);
    if jobs.Err? {
      return Err(jobs.failure);
    }
    return Ok(Summary(run.value, Attempt(jobs.value), jobs.value));
  }

  /** The poll shows this run with these jobs, at the highest attempt among them. */
  ghost predicate Shown(run: Result<Run>, fetch: nat -> Result<Page<Job>>, s: Summary) {
    && run == Ok(s.run)
    && (exists n :: WalkEnds(fetch, n) && s.jobs == Take(Collected(fetch, n), 1000))
    && (forall i :: 0 <= i < |s.jobs| ==> s.jobs[i].attempt <= s.attempt)
    && (if s.jobs == [] then s.attempt == 1 else exists i :: 0 <= i < |s.jobs| && s.jobs[i].attempt == s.attempt)
  }

  /** The poll fails: the run itself did, or it arrived and a page of its jobs did. */
  ghost predicate Missed(run: Result<Run>, fetch: nat -> Result<Page<Job>>, failure: Failure) {
    run == Err(failure) || (run.Ok? && exists n :: WalkFails(fetch, n, failure))
  }

  /** Exactly what a poll shows and when and how it fails. */
  lemma PollIff(run: Result<Run>, fetch: nat -> Result<Page<Job>>)
    ensures forall s :: Polled(run, fetch) == Ok(s) <==> Shown(run, fetch, s)
    ensures forall f :: Polled(run, fetch) == Err(f) <==> Missed(run, fetch, f)
  {
    ListIff(fetch);
    forall s
      ensures Polled(run, fetch) == Ok(s) <==> Shown(run, fetch, s)
    {
      ShownIff(run, fetch, s);
    }
  }

  lemma ShownIff(run: Result<Run>, fetch: nat -> Result<Page<Job>>, s: Summary)
    ensures Polled(run, fetch) == Ok(s) <==> Shown(run, fetch, s)
  {
    ListIff(fetch);
    if Shown(run, fetch, s) {
      assert ListFrom(fetch, 0) == Ok(s.jobs);
      assert Attempt(s.jobs) == s.attempt;
    }
  }

  // ---------------------------------------------------------------------
  // The monitor loop
  // ---------------------------------------------------------------------

  datatype Event = Update(summary: Summary) | Done(summary: Summary)

  datatype Outcome = Terminated | ReceiverDropped | DrainedMidRun | Failed(failure: Failure) | StillRunning

  /**
   * What the environment does in one pass of the loop: drain while waiting for quota, the two API
   * answers, whether the receiver still listens, and drain while waiting for the next tick.
   */
  datatype Cycle = Cycle(
    drainedDeferring: bool,
    run: Result<Run>,
    fetch: nat -> Result<Page<Job>>,
    receiverOpen: bool,
    drainedAfter: bool)

  /** Zero or more in-flight updates, then at most one terminal event. */
  predicate StreamShape(events: seq<Event>) {
    && (forall i :: 0 <= i < |events| - 1 ==> events[i].Update?)
    && (forall i :: 0 <= i < |events| ==> (events[i].Done? <==> events[i].summary.IsTerminal()))
  }

  /** What the polls of these passes sent, in order. */
  function AllSent(cycles: seq<Cycle>): seq<Summary> {
    if cycles == [] then [] else AllSent(cycles[..|cycles| - 1]) + SentBy(cycles[|cycles| - 1])
  }

  function Summaries(events: seq<Event>): (r: seq<Summary>)
    ensures |r| == |events| && forall i :: 0 <= i < |events| ==> r[i] == events[i].summary
  {
    seq(|events|, i requires 0 <= i < |events| => events[i].summary)
  }

  lemma SummariesSnoc(events: seq<Event>, e: Event)
    ensures Summaries(events + [e]) == Summaries(events) + [e.summary]
  {
  }

  /** Only in-flight updates so far. */
  predicate InFlight(events: seq<Event>) {
    forall i :: 0 <= i < |events| ==> events[i].Update? && !events[i].summary.IsTerminal()
  }

  function EventFor(summary: Summary): Event {
    if summary.IsTerminal() then Done(summary) else Update(summary)
  }

  lemma Sent(events: seq<Event>, summary: Summary)
    requires InFlight(events)
    ensures var after := events + [EventFor(summary)];
            && StreamShape(after)
            && (!summary.IsTerminal() ==> InFlight(after))
            && Summaries(after) == Summaries(events) + [summary]
  {
    SummariesSnoc(events, EventFor(summary));
  }

  /** The poll lets the monitor go on: it failed for the moment, or its update was sent and the run is not complete. */
  predicate PollGoesOn(c: Cycle) {
    match Polled(c.run, c.fetch)
    case Err(failure) => failure.transient
    case Ok(summary) => c.receiverOpen && !summary.run.status.Completed?
  }

  /** The pass goes on to the next one. */
  predicate GoesOn(c: Cycle) {
    !c.drainedDeferring && PollGoesOn(c) && !c.drainedAfter
  }

  /** The pass ends the monitor, with this outcome. */
  predicate EndsWith(c: Cycle, outcome: Outcome) {
    var polled := Polled(c.run, c.fetch);
    match outcome
    case DrainedMidRun => c.drainedDeferring || (PollGoesOn(c) && c.drainedAfter)
    case Failed(failure) => !c.drainedDeferring && polled == Err(failure) && !failure.transient
    case ReceiverDropped => !c.drainedDeferring && polled.Ok? && !c.receiverOpen
    case Terminated => !c.drainedDeferring && polled.Ok? && c.receiverOpen && polled.value.run.status.Completed?
    case StillRunning => false
  }

  /** Every pass goes on or ends the monitor, with one outcome. */
  lemma EndsOnce(c: Cycle)
    ensures GoesOn(c) <==> forall o :: !EndsWith(c, o)
    ensures forall o, o' :: EndsWith(c, o) && EndsWith(c, o') ==> o == o'
  {
    if !GoesOn(c) {
      var polled := Polled(c.run, c.fetch);
      var o := if c.drainedDeferring || PollGoesOn(c) then DrainedMidRun
               else if polled.Err? then Failed(polled.failure)
               else if !c.receiverOpen then ReceiverDropped else Terminated;
      assert EndsWith(c, o);
    }
  }

  /** What the poll of a pass sends. */
  function SentBy(c: Cycle): seq<Summary> {
    var polled := Polled(c.run, c.fetch);
    if !c.drainedDeferring && polled.Ok? && c.receiverOpen then [polled.value] else []
  }

  /** One poll and the send of its event; an outcome ends the monitor. */
  method PollAndSend(c: Cycle, before: seq<Event>) returns (events: seq<Event>, outcome: Option<Outcome>)
    requires InFlight(before) && !c.drainedDeferring
    ensures outcome.None? <==> PollGoesOn(c)
    ensures outcome.Some? ==> EndsWith(c, outcome.value) && !outcome.value.DrainedMidRun?
    ensures Summaries(events) == Summaries(before) + SentBy(c)
    ensures Closed(events, outcome)
  {
    var polled := PollOne(c.run, c.fetch);
    if polled.Err? {
      if !polled.failure.transient {
        return before, Some(Failed(polled.failure));
      }
      return before, None;
    }
    var isTerminal := polled.value.IsTerminal();
    var event := if isTerminal then Done(polled.value) else Update(polled.value);
    if !c.receiverOpen {
      return before, Some(ReceiverDropped);
    }
    Sent(before, polled.value);
    events := before + [event];
    outcome := if isTerminal then Some(Terminated) else None;
  }

  /** The stream ends with a terminal event exactly if the monitor ended on one, and has none before. */
  predicate Closed(events: seq<Event>, outcome: Option<Outcome>) {
    if outcome == Some(Terminated) then StreamShape(events) && events != [] && events[|events| - 1].Done?
    else InFlight(events)
  }

  /** One pass of the loop: the quota gate, the poll, the wait for the next tick. */
  method ServePass(c: Cycle, before: seq<Event>) returns (events: seq<Event>, outcome: Option<Outcome>)
    requires InFlight(before)
    ensures outcome.None? <==> GoesOn(c)
    ensures outcome.Some? ==> EndsWith(c, outcome.value)
    ensures Summaries(events) == Summaries(before) + SentBy(c)
    ensures Closed(events, outcome)
  {
    if c.drainedDeferring {
      return before, Some(DrainedMidRun);
    }
    events, outcome := PollAndSend(c, before);
    if outcome.None? && c.drainedAfter {
      outcome := Some(DrainedMidRun);
    }
  }

  /** The monitor is still running after n passes. */
  predicate Running(cycles: seq<Cycle>, n: nat)
    requires n <= |cycles|
  {
    forall i :: 0 <= i < n ==> GoesOn(cycles[i])
  }

  lemma RunsOn(cycles: seq<Cycle>, n: nat)
    requires n < |cycles| && Running(cycles, n) && GoesOn(cycles[n])
    ensures Running(cycles, n + 1)
  {
  }

  lemma AllSentSnoc(cycles: seq<Cycle>, n: nat)
    requires n < |cycles|
    ensures AllSent(cycles[..n + 1]) == AllSent(cycles[..n]) + SentBy(cycles[n])
  {
    assert cycles[..n + 1][..n] == cycles[..n];
  }

  /**
   * Runs until the run is terminal, the receiver goes, a drain or a permanent failure; `cycles` is the
   * environment's script and `last` the pass that ends the monitor. Each pass before it goes on, and the
   * monitor ends exactly as that pass does; the stream is what the polls sent, that of the last included,
   * closed by the terminal event exactly if the monitor terminated.
   */
  method MonitorRun(cycles: seq<Cycle>) returns (events: seq<Event>, outcome: Outcome, last: nat)
    ensures last <= |cycles| && Running(cycles, last)
    ensures if last < |cycles| then EndsWith(cycles[last], outcome) else outcome == StillRunning
    ensures Summaries(events) == AllSent(if last < |cycles| then cycles[..last + 1] else cycles)
    ensures StreamShape(events) && Closed(events, Some(outcome))
  {
    events, last := [], 0;
    while last < |cycles|
      invariant last <= |cycles| && Summaries(events) == AllSent(cycles[..last])
      invariant Running(cycles, last) && InFlight(events)
    {
      AllSentSnoc(cycles, last);
      var ended;
      events, ended := ServePass(cycles[last], events);
      if ended.Some? {
        return events, ended.value, last;
      }
      RunsOn(cycles, last);
      last := last + 1;
    }
    assert cycles[..|cycles|] == cycles;
    outcome := StillRunning;
  }
}
