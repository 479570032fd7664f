// The per-run consumer: notify each concluded job once, then the run, then record it
// (src/flow/monitor.rs).

module FlowMonitor {
  import opened Prelude
  import StateLog
  import opened RunMonitor

  /** What the consumer does to the outside, in order. Notes between two barriers run concurrently. */
  datatype Note =
    | JobNote(notifier: nat, job: Job)
    | RunNote(notifier: nat, summary: Summary)
    | Barrier

  /**
   * Everything fixed for one monitored run. `now` stands in for a missing completion time; when the
   * state writer is gone its channel is closed and what is sent is lost.
   */
  datatype Params = Params(flow: string, runId: StateLog.RunId, notifiers: nat, now: Time, writerOpen: bool)

  datatype Progress = Progress(completed: set<nat>, log: seq<Note>, updates: seq<StateLog.StateUpdate>, broke: bool)

  const START := Progress({}, [], [], false)

  // ---------------------------------------------------------------------
  // Specification
  // ---------------------------------------------------------------------

  /** Concluded jobs not yet notified. The filter sees the set as it was before this summary. */
  function NewlyTerminal(jobs: seq<Job>, completed: set<nat>): seq<Job> {
    if jobs == [] then []
    else
      var j := jobs[|jobs| - 1];
      NewlyTerminal(jobs[..|jobs| - 1], completed) + if j.conclusion.Some? && j.id !in completed then [j] else []
  }

  function Ids(jobs: seq<Job>): set<nat> {
    set i | 0 <= i < |jobs| :: jobs[i].id
  }

  /** One note per notifier about one job. */
  function NotesFor(job: Job, notifiers: nat): (r: seq<Note>)
    ensures |r| == notifiers
    ensures forall i :: 0 <= i < notifiers ==> r[i] == JobNote(i, job)
  {
    seq(notifiers, i requires 0 <= i < notifiers => JobNote(i, job))
  }

  function JobNotes(jobs: seq<Job>, notifiers: nat): seq<Note> {
    if jobs == [] then [] else JobNotes(jobs[..|jobs| - 1], notifiers) + NotesFor(jobs[|jobs| - 1], notifiers)
  }

  function RunNotes(summary: Summary, notifiers: nat): (r: seq<Note>)
    ensures |r| == notifiers
    ensures forall i :: 0 <= i < notifiers ==> r[i] == RunNote(i, summary)
  {
    seq(notifiers, i requires 0 <= i < notifiers => RunNote(i, summary))
  }

  function FanOut(p: Params, s: Progress, jobs: seq<Job>): Progress {
    var newly := NewlyTerminal(jobs, s.completed);
    if newly == [] then s
    else s.(completed := s.completed + Ids(newly), log := s.log + JobNotes(newly, p.notifiers) + [Barrier])
  }

  function Finished(p: Params, summary: Summary): StateLog.StateUpdate {
    StateLog.RunFinished(p.flow, p.runId, summary.run.conclusion.GetOr("unknown"), summary.run.completedAt.GetOr(p.now))
  }

  /** What reaches the state writer. */
  function Recorded(p: Params, summary: Summary): seq<StateLog.StateUpdate> {
    if p.writerOpen then [Finished(p, summary)] else []
  }

  /** One received event. After the loop has broken out, nothing is received any more. */
  function Step(p: Params, s: Progress, e: Event): Progress {
    if s.broke then s
    else
      var t := FanOut(p, s, e.summary.jobs);
      if e.Update? then t
      else t.(log := t.log + RunNotes(e.summary, p.notifiers) + [Barrier],
              updates := t.updates + Recorded(p, e.summary), broke := true)
  }

  function Consume(p: Params, events: seq<Event>): Progress {
    if events == [] then START else Step(p, Consume(p, events[..|events| - 1]), events[|events| - 1])
  }

  // ---------------------------------------------------------------------
  // Counting notifications
  // ---------------------------------------------------------------------

  /** How often a notifier was told that a job concluded. */
  function JobCount(log: seq<Note>, notifier: nat, id: nat): nat {
    if log == [] then 0
    else
      var n := log[|log| - 1];
      JobCount(log[..|log| - 1], notifier, id)
      + if n.JobNote? && n.notifier == notifier && n.job.id == id then 1 else 0
  }

  /** How often a notifier was told that the run completed. */
  function RunCount(log: seq<Note>, notifier: nat): nat {
    if log == [] then 0
    else
      var n := log[|log| - 1];
      RunCount(log[..|log| - 1], notifier) + if n.RunNote? && n.notifier == notifier then 1 else 0
  }

  lemma {:induction false} CountsAppend(a: seq<Note>, b: seq<Note>, notifier: nat, id: nat)
    ensures JobCount(a + b, notifier, id) == JobCount(a, notifier, id) + JobCount(b, notifier, id)
    ensures RunCount(a + b, notifier) == RunCount(a, notifier) + RunCount(b, notifier)
    decreases |b|
  {
    if b == [] {
      assert a + b == a;
    } else {
      assert (a + b)[..|a + b| - 1] == a + b[..|b| - 1];
      CountsAppend(a, b[..|b| - 1], notifier, id);
    }
  }

  /** Notes to notifiers below m about one job. */
  lemma {:induction false} OneJobCount(job: Job, m: nat, notifier: nat, id: nat)
    ensures JobCount(NotesFor(job, m), notifier, id) == (if notifier < m && job.id == id then 1 else 0)
    ensures RunCount(NotesFor(job, m), notifier) == 0
  {
    if m > 0 {
      assert NotesFor(job, m)[..m - 1] == NotesFor(job, m - 1);
      OneJobCount(job, m - 1, notifier, id);
    }
  }

  lemma {:induction false} RunNotesCount(summary: Summary, m: nat, notifier: nat, id: nat)
    ensures JobCount(RunNotes(summary, m), notifier, id) == 0
    ensures RunCount(RunNotes(summary, m), notifier) == (if notifier < m then 1 else 0)
  {
    if m > 0 {
      assert RunNotes(summary, m)[..m - 1] == RunNotes(summary, m - 1);
      RunNotesCount(summary, m - 1, notifier, id);
    }
  }

  /** How often a summary lists this job as concluded. */
  function Listed(jobs: seq<Job>, id: nat): nat {
    if jobs == [] then 0
    else
      var j := jobs[|jobs| - 1];
      Listed(jobs[..|jobs| - 1], id) + if j.conclusion.Some? && j.id == id then 1 else 0
  }

  /** The events the consumer receives: up to and including the first terminal one. */
  function Received(events: seq<Event>): seq<Event> {
    if events == [] then []
    else
      var init := Received(events[..|events| - 1]);
      if init != [] && init[|init| - 1].Done? then init else init + [events[|events| - 1]]
  }

  /** How often the first summary that lists the job as concluded lists it; 0 when none does. */
  function FirstListing(events: seq<Event>, id: nat): nat {
    if events == [] then 0
    else
      var before := FirstListing(events[..|events| - 1], id);
      if before > 0 then before else Listed(events[|events| - 1].summary.jobs, id)
  }

  lemma {:induction false} NewlyListed(jobs: seq<Job>, completed: set<nat>, id: nat)
    ensures Listed(NewlyTerminal(jobs, completed), id) == if id in completed then 0 else Listed(jobs, id)
    ensures forall i :: 0 <= i < |NewlyTerminal(jobs, completed)| ==> NewlyTerminal(jobs, completed)[i].conclusion.Some?
  {
    if jobs != [] {
      var init, j := jobs[..|jobs| - 1], jobs[|jobs| - 1];
      NewlyListed(init, completed, id);
      var newly := NewlyTerminal(init, completed);
      assert (newly + [j])[..|newly|] == newly;
      assert newly + [] == newly;
    }
  }

  lemma {:induction false} ListedIds(jobs: seq<Job>, id: nat)
    requires forall i :: 0 <= i < |jobs| ==> jobs[i].conclusion.Some?
    ensures id in Ids(jobs) <==> Listed(jobs, id) > 0
  {
    if jobs != [] {
      var init := jobs[..|jobs| - 1];
      ListedIds(init, id);
      assert Ids(jobs) == Ids(init) + {jobs[|jobs| - 1].id};
    }
  }

  lemma {:induction false} JobNotesCount(jobs: seq<Job>, notifiers: nat, notifier: nat, id: nat)
    requires notifier < notifiers
    requires forall i :: 0 <= i < |jobs| ==> jobs[i].conclusion.Some?
    ensures JobCount(JobNotes(jobs, notifiers), notifier, id) == Listed(jobs, id)
    ensures RunCount(JobNotes(jobs, notifiers), notifier) == 0
  {
    if jobs != [] {
      var init, j := jobs[..|jobs| - 1], jobs[|jobs| - 1];
      JobNotesCount(init, notifiers, notifier, id);
      CountsAppend(JobNotes(init, notifiers), NotesFor(j, notifiers), notifier, id);
      OneJobCount(j, notifiers, notifier, id);
    }
  }

  lemma FanOutCounts(p: Params, s: Progress, jobs: seq<Job>, notifier: nat, id: nat)
    requires notifier < p.notifiers
    ensures var t := FanOut(p, s, jobs);
            && JobCount(t.log, notifier, id) == JobCount(s.log, notifier, id) + (if id in s.completed then 0 else Listed(jobs, id))
            && RunCount(t.log, notifier) == RunCount(s.log, notifier)
            && (id in t.completed <==> id in s.completed || Listed(jobs, id) > 0)
            && t.updates == s.updates && t.broke == s.broke
  {
    var newly := NewlyTerminal(jobs, s.completed);
    NewlyListed(jobs, s.completed, id);
    ListedIds(newly, id);
    if newly != [] {
      JobNotesCount(newly, p.notifiers, notifier, id);
      CountsAppend(s.log, JobNotes(newly, p.notifiers), notifier, id);
      CountsAppend(s.log + JobNotes(newly, p.notifiers), [Barrier], notifier, id);
    }
  }

  lemma StepCounts(p: Params, s: Progress, e: Event, notifier: nat, id: nat)
    requires notifier < p.notifiers && !s.broke
    ensures var t := Step(p, s, e);
            && JobCount(t.log, notifier, id)
               == JobCount(s.log, notifier, id) + (if id in s.completed then 0 else Listed(e.summary.jobs, id))
            && RunCount(t.log, notifier) == RunCount(s.log, notifier) + (if e.Done? then 1 else 0)
            && (id in t.completed <==> id in s.completed || Listed(e.summary.jobs, id) > 0)
            && t.updates == s.updates + (if e.Done? then Recorded(p, e.summary) else [])
            && t.broke == e.Done?
  {
    FanOutCounts(p, s, e.summary.jobs, notifier, id);
    if e.Done? {
      var t := FanOut(p, s, e.summary.jobs);
      RunNotesCount(e.summary, p.notifiers, notifier, id);
      CountsAppend(t.log, RunNotes(e.summary, p.notifiers), notifier, id);
      CountsAppend(t.log + RunNotes(e.summary, p.notifiers), [Barrier], notifier, id);
    }
  }

  predicate Ends(events: seq<Event>) {
    events != [] && events[|events| - 1].Done?
  }

  /**
   * What one notifier has heard after the received events: of the job as often as the first summary
   * listing it as concluded lists it, of the run once if a terminal event was received and never
   * otherwise; the recorded finishes are exactly as many.
   */
  predicate Heard(p: Params, s: Progress, received: seq<Event>, notifier: nat, id: nat) {
    && JobCount(s.log, notifier, id) == FirstListing(received, id)
    && (id in s.completed <==> FirstListing(received, id) > 0)
    && s.broke == Ends(received)
    && RunCount(s.log, notifier) == (if Ends(received) then 1 else 0)
    && s.updates == (if Ends(received) then Recorded(p, received[|received| - 1].summary) else [])
  }

  lemma HeardStep(p: Params, s: Progress, received: seq<Event>, e: Event, notifier: nat, id: nat)
    requires notifier < p.notifiers && !s.broke && Heard(p, s, received, notifier, id)
    ensures Heard(p, Step(p, s, e), received + [e], notifier, id)
  {
    StepCounts(p, s, e, notifier, id);
    FirstListingSnoc(received, e, id);
  }

  /** For every stream, even one with repeats or with events after the terminal one. */
  lemma {:induction false} NotificationCounts(p: Params, events: seq<Event>, notifier: nat, id: nat)
    requires notifier < p.notifiers
    ensures Heard(p, Consume(p, events), Received(events), notifier, id)
  {
    if events != [] {
      var n := |events| - 1;
      var init := events[..n];
      NotificationCounts(p, init, notifier, id);
      if !Consume(p, init).broke {
        assert events[..n + 1] == events;
        ReceivedSnoc(events, n);
        HeardStep(p, Consume(p, init), Received(init), events[n], notifier, id);
      }
    }
  }

  /** The job stands in a summary, concluded. */
  ghost predicate Reported(received: seq<Event>, job: Job) {
    exists i, j :: 0 <= i < |received| && 0 <= j < |received[i].summary.jobs|
                   && received[i].summary.jobs[j] == job && job.conclusion.Some?
  }

  /** The note tells what was received: a job as it was reported concluded, or the run as its terminal event shows it. */
  ghost predicate True(p: Params, received: seq<Event>, note: Note) {
    match note
    case JobNote(n, job) => n < p.notifiers && Reported(received, job)
    case RunNote(n, summary) => n < p.notifiers && Ends(received) && summary == received[|received| - 1].summary
    case Barrier => true
  }

  ghost predicate AllTrue(p: Params, received: seq<Event>, log: seq<Note>) {
    forall i :: 0 <= i < |log| ==> True(p, received, log[i])
  }

  lemma {:induction false} NewlyFrom(jobs: seq<Job>, completed: set<nat>, job: Job)
    requires job in NewlyTerminal(jobs, completed)
    ensures job in jobs && job.conclusion.Some?
  {
    var init := jobs[..|jobs| - 1];
    if job in NewlyTerminal(init, completed) {
      NewlyFrom(init, completed, job);
    }
  }

  lemma {:induction false} JobNotesFrom(jobs: seq<Job>, notifiers: nat, note: Note)
    requires note in JobNotes(jobs, notifiers)
    ensures note.JobNote? && note.notifier < notifiers && note.job in jobs
  {
    var init := jobs[..|jobs| - 1];
    if note in JobNotes(init, notifiers) {
      JobNotesFrom(init, notifiers, note);
    }
  }

  lemma ReportedLater(p: Params, received: seq<Event>, e: Event, note: Note)
    requires True(p, received, note) && !Ends(received)
    ensures True(p, received + [e], note)
  {
    if note.JobNote? {
      var i, j :| 0 <= i < |received| && 0 <= j < |received[i].summary.jobs|
                  && received[i].summary.jobs[j] == note.job && note.job.conclusion.Some?;
      assert (received + [e])[i].summary.jobs[j] == note.job;
    }
  }

  lemma FanOutTrue(p: Params, s: Progress, received: seq<Event>, e: Event)
    requires AllTrue(p, received, s.log) && !Ends(received)
    ensures AllTrue(p, received + [e], FanOut(p, s, e.summary.jobs).log)
  {
    var newly, log := NewlyTerminal(e.summary.jobs, s.completed), FanOut(p, s, e.summary.jobs).log;
    forall i | 0 <= i < |log|
      ensures True(p, received + [e], log[i])
    {
      if i < |s.log| {
        assert log[i] == s.log[i];
        ReportedLater(p, received, e, log[i]);
      } else if log[i] in JobNotes(newly, p.notifiers) {
        JobNotesFrom(newly, p.notifiers, log[i]);
        NewlyFrom(e.summary.jobs, s.completed, log[i].job);
        var j :| 0 <= j < |e.summary.jobs| && e.summary.jobs[j] == log[i].job;
        assert (received + [e])[|received|].summary.jobs[j] == log[i].job;
      }
    }
  }

  lemma StepTrue(p: Params, s: Progress, received: seq<Event>, e: Event)
    requires AllTrue(p, received, s.log) && !Ends(received) && !s.broke
    ensures AllTrue(p, received + [e], Step(p, s, e).log)
  {
    FanOutTrue(p, s, received, e);
  }

  /** For every stream: no notifier is told anything but what was received. */
  lemma {:induction false} NotesAreTrue(p: Params, events: seq<Event>)
    ensures AllTrue(p, Received(events), Consume(p, events).log)
  {
    if events != [] {
      var n := |events| - 1;
      var init := events[..n];
      NotesAreTrue(p, init);
      UpdatesOfStream(p, init);
      if !Consume(p, init).broke {
        assert events[..n + 1] == events;
        ReceivedSnoc(events, n);
        StepTrue(p, Consume(p, init), Received(init), events[n]);
      }
    }
  }

  /** No summary lists a concluded job twice. */
  predicate ListsOnce(events: seq<Event>) {
    forall i, id :: 0 <= i < |events| && id in Ids(events[i].summary.jobs) ==> Listed(events[i].summary.jobs, id) <= 1
  }

  ghost predicate Concludes(events: seq<Event>, id: nat) {
    exists i :: 0 <= i < |events| && Listed(events[i].summary.jobs, id) > 0
  }

  lemma {:induction false} ListedIsMember(jobs: seq<Job>, id: nat)
    requires Listed(jobs, id) > 0
    ensures id in Ids(jobs)
  {
    var j := jobs[|jobs| - 1];
    if !(j.conclusion.Some? && j.id == id) {
      ListedIsMember(jobs[..|jobs| - 1], id);
      var i :| 0 <= i < |jobs[..|jobs| - 1]| && jobs[..|jobs| - 1][i].id == id;
      assert jobs[i].id == id;
    }
  }

  lemma {:induction false} FirstListingOnce(events: seq<Event>, id: nat)
    ensures FirstListing(events, id) > 0 <==> Concludes(events, id)
    ensures ListsOnce(events) ==> FirstListing(events, id) <= 1
  {
    if events != [] {
      var init, e := events[..|events| - 1], events[|events| - 1];
      FirstListingOnce(init, id);
      if Concludes(init, id) {
        var i :| 0 <= i < |init| && Listed(init[i].summary.jobs, id) > 0;
        assert Listed(events[i].summary.jobs, id) > 0;
      }
      if Listed(e.summary.jobs, id) > 0 {
        ListedIsMember(e.summary.jobs, id);
      }
    }
  }

  /** With job ids distinct within each summary, every job concluded in some received summary is notified exactly once per notifier. */
  lemma ExactlyOnce(p: Params, events: seq<Event>, notifier: nat, id: nat)
    requires notifier < p.notifiers && ListsOnce(Received(events))
    ensures JobCount(Consume(p, events).log, notifier, id) == (if Concludes(Received(events), id) then 1 else 0)
  {
    NotificationCounts(p, events, notifier, id);
    FirstListingOnce(Received(events), id);
  }

  /** Exactly when a job is notified more than once: the first summary that lists it as concluded repeats it. */
  lemma RepeatedIff(p: Params, events: seq<Event>, notifier: nat, id: nat)
    requires notifier < p.notifiers
    ensures JobCount(Consume(p, events).log, notifier, id) > 1 <==> FirstListing(Received(events), id) > 1
  {
    NotificationCounts(p, events, notifier, id);
  }

  /** One stream with one job listed twice: its single notifier hears of it twice. */
  lemma ListedTwiceHeardTwice(p: Params, run: Run)
    requires p.notifiers == 1
    ensures var job := Job(7, Some("success"), 1);
            var events := [Done(Summary(run, 1, [job, job]))];
            JobCount(Consume(p, events).log, 0, 7) == 2
  {
    var job := Job(7, Some("success"), 1);
    var events := [Done(Summary(run, 1, [job, job]))];
    NotificationCounts(p, events, 0, 7);
    assert events[..0] == [];
    assert Received(events) == events;
    assert [job, job][..1] == [job] && [job][..0] == [];
    assert Listed([job], 7) == 1;
    assert Listed([job, job], 7) == 2;
    assert FirstListing(events, 7) == 2;
  }

  // ---------------------------------------------------------------------
  // Order
  // ---------------------------------------------------------------------

  /** Every job note comes before a barrier that comes before every run note. */
  ghost predicate JobsBeforeRun(log: seq<Note>) {
    forall i, j :: 0 <= i < |log| && 0 <= j < |log| && log[i].JobNote? && log[j].RunNote? ==>
      exists k :: i < k < j && log[k].Barrier?
  }

  predicate Settled(log: seq<Note>) {
    log != [] ==> log[|log| - 1].Barrier?
  }

  lemma {:induction false} JobNotesOnly(jobs: seq<Job>, notifiers: nat)
    ensures forall i :: 0 <= i < |JobNotes(jobs, notifiers)| ==> JobNotes(jobs, notifiers)[i].JobNote?
  {
    if jobs != [] {
      JobNotesOnly(jobs[..|jobs| - 1], notifiers);
    }
  }

  ghost predicate Ordered(s: Progress) {
    && Settled(s.log)
    && JobsBeforeRun(s.log)
    && (!s.broke ==> forall i :: 0 <= i < |s.log| ==> !s.log[i].RunNote?)
  }

  lemma FanOutOrdered(p: Params, s: Progress, jobs: seq<Job>)
    requires Ordered(s) && !s.broke
    ensures Ordered(FanOut(p, s, jobs)) && !FanOut(p, s, jobs).broke
  {
    JobNotesOnly(NewlyTerminal(jobs, s.completed), p.notifiers);
  }

  lemma RunNotesOrdered(log: seq<Note>, notes: seq<Note>)
    requires Settled(log) && forall i :: 0 <= i < |log| ==> !log[i].RunNote?
    requires forall i :: 0 <= i < |notes| ==> notes[i].RunNote?
    ensures JobsBeforeRun(log + notes + [Barrier])
  {
    var all := log + notes + [Barrier];
    forall i, j | 0 <= i < |all| && 0 <= j < |all| && all[i].JobNote? && all[j].RunNote?
      ensures exists k :: i < k < j && all[k].Barrier?
    {
      assert i < |log| <= j && all[i] == log[i];
      assert all[|log| - 1].Barrier?;
    }
  }

  /** All job notifications have been awaited before the first run-complete one starts. */
  lemma {:induction false} CompletionOrder(p: Params, events: seq<Event>)
    ensures Ordered(Consume(p, events))
  {
    if events != [] {
      var init, e := events[..|events| - 1], events[|events| - 1];
      CompletionOrder(p, init);
      var s := Consume(p, init);
      if !s.broke {
        FanOutOrdered(p, s, e.summary.jobs);
        RunNotesOrdered(FanOut(p, s, e.summary.jobs).log, RunNotes(e.summary, p.notifiers));
      }
    }
  }

  // ---------------------------------------------------------------------
  // The event loop
  // ---------------------------------------------------------------------

  class Monitor {
    const p: Params
    var completedJobs: set<nat>
    var log: seq<Note>
    var updates: seq<StateLog.StateUpdate>

    constructor (p: Params)
      ensures this.p == p && completedJobs == {} && log == [] && updates == []
    {
      this.p := p;
      completedJobs, log, updates := {}, [], [];
    }

    function Snapshot(broke: bool): Progress
      reads this
    {
      Progress(completedJobs, log, updates, broke)
    }

    /** The concluded jobs not yet notified. */
    method CollectNewly(jobs: seq<Job>) returns (newly: seq<Job>)
      ensures newly == NewlyTerminal(jobs, completedJobs)
    {
      newly := [];
      for i := 0 to |jobs|
        invariant newly == NewlyTerminal(jobs[..i], completedJobs)
      {
        assert jobs[..i + 1][..i] == jobs[..i];
        if jobs[i].conclusion.Some? && jobs[i].id !in completedJobs {
          newly := newly + [jobs[i]];
        }
      }
      assert jobs[..|jobs|] == jobs;
    }

    method MarkCompleted(newly: seq<Job>)
      modifies this`completedJobs
      ensures completedJobs == old(completedJobs) + Ids(newly)
    {
      for i := 0 to |newly|
        invariant completedJobs == old(completedJobs) + Ids(newly[..i])
      {
        IdsSnoc(newly, i);
        completedJobs := completedJobs + {newly[i].id};
      }
      assert newly[..|newly|] == newly;
    }

    /** Start a notification for every (job, notifier) pair and wait for all of them. */
    method NotifyPairs(newly: seq<Job>)
      modifies this`log
      ensures log == old(log) + JobNotes(newly, p.notifiers) + [Barrier]
    {
      for i := 0 to |newly|
        invariant log == old(log) + JobNotes(newly[..i], p.notifiers)
      {
        assert newly[..i + 1][..i] == newly[..i];
        log := log + NotesFor(newly[i], p.notifiers);
      }
      assert newly[..|newly|] == newly;
      log := log + [Barrier];
    }

    /** Collect the newly concluded jobs, mark them, notify every (job, notifier) pair and wait for all. */
    method FanOutJobCompletes(jobs: seq<Job>)
      modifies this`completedJobs, this`log
      ensures Snapshot(false) == FanOut(p, old(Snapshot(false)), jobs)
    {
      var newly := CollectNewly(jobs);
      if newly == [] {
        return;
      }
      MarkCompleted(newly);
      NotifyPairs(newly);
    }

    /** Handle one received event; the terminal one also fires the run notifications and records the finish. */
    method Receive(e: Event) returns (done: bool)
      modifies this
      ensures done == e.Done? && Snapshot(done) == Step(p, old(Snapshot(false)), e)
    {
      FanOutJobCompletes(e.summary.jobs);
      if e.Done? {
        log := log + RunNotes(e.summary, p.notifiers);
        log := log + [Barrier];
        if p.writerOpen {
          updates := updates + [Finished(p, e.summary)];
        }
        return true;
      }
      return false;
    }

    /** Receive until the terminal event or the end of the stream. */
    method RunMonitorWithSource(events: seq<Event>)
      requires completedJobs == {} && log == [] && updates == []
      modifies this
      ensures Snapshot(Ends(Received(events))) == Consume(p, events)
    {
      for i := 0 to |events|
        invariant Snapshot(false) == Consume(p, events[..i])
        invariant !Ends(Received(events[..i]))
      {
        ConsumeSnoc(p, events, i);
        ReceivedSnoc(events, i);
        var done := Receive(events[i]);
        if done {
          AfterBreak(p, events, i + 1);
          return;
        }
      }
      assert events[..|events|] == events;
    }
  }

  lemma ConsumeSnoc(p: Params, events: seq<Event>, n: nat)
    requires n < |events|
    ensures Consume(p, events[..n + 1]) == Step(p, Consume(p, events[..n]), events[n])
  {
    assert events[..n + 1][..n] == events[..n];
  }

  lemma ReceivedSnoc(events: seq<Event>, n: nat)
    requires n < |events| && !Ends(Received(events[..n]))
    ensures Received(events[..n + 1]) == Received(events[..n]) + [events[n]]
    ensures Ends(Received(events[..n + 1])) <==> events[n].Done?
  {
    assert events[..n + 1][..n] == events[..n];
  }

  lemma FirstListingSnoc(events: seq<Event>, e: Event, id: nat)
    ensures FirstListing(events + [e], id)
            == if FirstListing(events, id) > 0 then FirstListing(events, id) else Listed(e.summary.jobs, id)
  {
    assert (events + [e])[..|events|] == events;
  }

  lemma IdsSnoc(jobs: seq<Job>, i: nat)
    requires i < |jobs|
    ensures Ids(jobs[..i + 1]) == Ids(jobs[..i]) + {jobs[i].id}
  {
    forall id | id in Ids(jobs[..i + 1])
      ensures id in Ids(jobs[..i]) + {jobs[i].id}
    {
      var k :| 0 <= k < |jobs[..i + 1]| && jobs[..i + 1][k].id == id;
      if k < i {
        assert jobs[..i][k].id == id;
      }
    }
    forall id | id in Ids(jobs[..i]) + {jobs[i].id}
      ensures id in Ids(jobs[..i + 1])
    {
      if id == jobs[i].id {
        assert jobs[..i + 1][i].id == id;
      } else {
        var k :| 0 <= k < |jobs[..i]| && jobs[..i][k].id == id;
        assert jobs[..i + 1][k].id == id;
      }
    }
  }

  /** Once the loop has broken out, later events change nothing. */
  lemma {:induction false} AfterBreak(p: Params, events: seq<Event>, n: nat)
    requires n <= |events| && Consume(p, events[..n]).broke && Ends(Received(events[..n]))
    ensures Consume(p, events) == Consume(p, events[..n]) && Received(events) == Received(events[..n])
  {
    if n == |events| {
      assert events[..n] == events;
    } else {
      var init := events[..|events| - 1];
      assert init[..n] == events[..n];
      AfterBreak(p, init, n);
    }
  }

  // ---------------------------------------------------------------------
  // Producer and consumer together
  // ---------------------------------------------------------------------

  /** The finish of this run, as seen: its conclusion, or `unknown`, and its completion time, or now. */
  predicate Records(p: Params, run: Run, u: StateLog.StateUpdate) {
    && u.RunFinished? && u.flow == p.flow && u.runId == p.runId
    && (if run.conclusion.Some? then u.conclusion == run.conclusion.value else u.conclusion == "unknown")
    && (if run.completedAt.Some? then u.completedAt == run.completedAt.value else u.completedAt == p.now)
  }

  lemma LastSentIsLast(events: seq<Event>, earlier: seq<Summary>, summary: Summary)
    requires Summaries(events) == earlier + [summary]
    ensures events != [] && events[|events| - 1].summary == summary
  {
    assert |events| == |earlier| + 1;
    assert Summaries(events)[|earlier|] == summary;
  }

  /**
   * Whatever the server, the receiver and the drain signal do: each notifier hears of the run's
   * completion once if the producer terminated and never otherwise. One finish is recorded exactly if it
   * terminated with the state writer still there: that of the run as the last poll found it.
   */
  method MonitorLifecycle(monitor: Monitor, cycles: seq<Cycle>) returns (outcome: Outcome, last: nat)
    requires monitor.completedJobs == {} && monitor.log == [] && monitor.updates == []
    modifies monitor
    ensures last <= |cycles| && Running(cycles, last)
    ensures if last < |cycles| then EndsWith(cycles[last], outcome) else outcome == StillRunning
    ensures outcome.Terminated? && monitor.p.writerOpen ==>
              && last < |cycles| && cycles[last].run.Ok?
              && |monitor.updates| == 1 && Records(monitor.p, cycles[last].run.value, monitor.updates[0])
    ensures !(outcome.Terminated? && monitor.p.writerOpen) ==> monitor.updates == []
    ensures forall n: nat :: n < monitor.p.notifiers ==> RunCount(monitor.log, n) == if outcome.Terminated? then 1 else 0
  {
    var events;
    events, outcome, last := MonitorRun(cycles);
    ShapedIsReceived(events);
    monitor.RunMonitorWithSource(events);
    UpdatesOfStream(monitor.p, events);
    if outcome.Terminated? {
      AllSentSnoc(cycles, last);
      LastSentIsLast(events, AllSent(cycles[..last]), Polled(cycles[last].run, cycles[last].fetch).value);
    }
    forall n: nat | n < monitor.p.notifiers
      ensures RunCount(monitor.log, n) == if outcome.Terminated? then 1 else 0
    {
      NotificationCounts(monitor.p, events, n, 0);
    }
  }

  lemma {:induction false} ShapedIsReceived(events: seq<Event>)
    requires StreamShape(events)
    ensures Received(events) == events
  {
    if events != [] {
      ShapedIsReceived(events[..|events| - 1]);
    }
  }

  lemma {:induction false} UpdatesOfStream(p: Params, events: seq<Event>)
    ensures var received := Received(events);
            && Consume(p, events).broke == Ends(received)
            && Consume(p, events).updates == (if Ends(received) then Recorded(p, received[|received| - 1].summary) else [])
  {
    if events != [] {
      UpdatesOfStream(p, events[..|events| - 1]);
    }
  }
}
