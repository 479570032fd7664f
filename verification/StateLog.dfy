// The daemon's state as a fold of its update log (src/state/apply.rs).

module StateLog {
  import opened Prelude

  /** GitHub run ids are unsigned 64-bit. */
  type RunId = n: int | 0 <= n < 0x1_0000_0000_0000_0000

  /** Instants are integers on one clock. */
  type Time = int

  const SCHEMA_VERSION: nat := 1
  const NOTIFIED_RUNS_CAP: nat := 100

  datatype RunState = RunState(
    runId: RunId,
    startedAt: Time,
    conclusion: Option<string>,
    completedAt: Option<Time>)

  datatype FlowState = FlowState(
    lastSha: Option<string>,
    lastPollAt: Option<Time>,
    lastDispatchedAt: Option<Time>,
    cooldownUntil: Option<Time>,
    activeRuns: seq<RunState>,
    notifiedRuns: seq<RunState>)

  const DEFAULT_FLOW := FlowState(None, None, None, None, [], [])

  datatype State = State(schema: nat, flows: map<string, FlowState>)

  const DEFAULT_STATE := State(SCHEMA_VERSION, map[])

  datatype StateUpdate =
    | PollObservation(flow: string, sha: string, at: Time, dispatchedAt: Option<Time>, cooldownUntil: Option<Time>)
    | PollTimestamp(flow: string, at: Time)
    | RunStarted(flow: string, runId: RunId, startedAt: Time)
    | RunFinished(flow: string, runId: RunId, conclusion: string, completedAt: Time)
    | FlowRemoved(flow: string)

  // ---------------------------------------------------------------------
  // Specification: one flow's entry, one update, a whole log
  // ---------------------------------------------------------------------

  /** Position of the first run with this id. */
  function Find(runs: seq<RunState>, id: RunId): (r: Option<nat>)
    ensures r.Some? ==> r.value < |runs| && runs[r.value].runId == id
    ensures r.Some? ==> forall j :: 0 <= j < r.value ==> runs[j].runId != id
    ensures r.None? ==> forall j :: 0 <= j < |runs| ==> runs[j].runId != id
  {
    if runs == [] then None
    else if runs[0].runId == id then Some(0)
    else match Find(runs[1..], id)
      case None => None
      case Some(p) => Some(p + 1)
  }

  function Remove<T>(s: seq<T>, pos: nat): seq<T>
    requires pos < |s|
  {
    s[..pos] + s[pos + 1..]
  }

  /** What an update does to the entry of its own flow; None stands for no entry. */
  function Step(entry: Option<FlowState>, u: StateUpdate): Option<FlowState> {
    match u
    case PollObservation(_, sha, at, dispatchedAt, cooldownUntil) =>
      var e := entry.GetOr(DEFAULT_FLOW);
      Some(e.(lastSha := Some(sha), lastPollAt := Some(at),
              lastDispatchedAt := dispatchedAt.OrElse(e.lastDispatchedAt),
              cooldownUntil := cooldownUntil.OrElse(e.cooldownUntil)))
    case PollTimestamp(_, at) =>
      Some(entry.GetOr(DEFAULT_FLOW).(lastPollAt := Some(at)))
    case RunStarted(_, id, at) =>
      var e := entry.GetOr(DEFAULT_FLOW);
      Some(if Find(e.activeRuns, id).Some? then e
           else e.(activeRuns := e.activeRuns + [RunState(id, at, None, None)]))
    case RunFinished(_, id, conclusion, at) =>
      if entry.None? then None
      else
        var e := entry.value;
        (match Find(e.activeRuns, id)
         case None => entry
         case Some(pos) =>
           var run := e.activeRuns[pos].(conclusion := Some(conclusion), completedAt := Some(at));
           Some(e.(activeRuns := Remove(e.activeRuns, pos),
                   notifiedRuns := LastN(e.notifiedRuns + [run], NOTIFIED_RUNS_CAP))))
    case FlowRemoved(_) => None
  }

  function Lookup(s: State, flow: string): Option<FlowState> {
    if flow in s.flows then Some(s.flows[flow]) else None
  }

  function Store(s: State, flow: string, entry: Option<FlowState>): State {
    match entry
    case Some(e) => s.(flows := s.flows[flow := e])
    case None => s.(flows := s.flows - {flow})
  }

  function Apply(s: State, u: StateUpdate): State {
    Store(s, u.flow, Step(Lookup(s, u.flow), u))
  }

  function Fold(s: State, log: seq<StateUpdate>): State {
    if log == [] then s else Apply(Fold(s, log[..|log| - 1]), log[|log| - 1])
  }

  function FoldFlow(entry: Option<FlowState>, log: seq<StateUpdate>): Option<FlowState> {
    if log == [] then entry else Step(FoldFlow(entry, log[..|log| - 1]), log[|log| - 1])
  }

  lemma {:induction false} FoldAppend(s: State, a: seq<StateUpdate>, b: seq<StateUpdate>)
    ensures Fold(s, a + b) == Fold(Fold(s, a), b)
    decreases |b|
  {
    if b == [] {
      assert a + b == a;
    } else {
      assert (a + b)[..|a + b| - 1] == a + b[..|b| - 1];
      FoldAppend(s, a, b[..|b| - 1]);
    }
  }

  lemma {:induction false} FoldFlowAppend(e: Option<FlowState>, a: seq<StateUpdate>, b: seq<StateUpdate>)
    ensures FoldFlow(e, a + b) == FoldFlow(FoldFlow(e, a), b)
    decreases |b|
  {
    if b == [] {
      assert a + b == a;
    } else {
      assert (a + b)[..|a + b| - 1] == a + b[..|b| - 1];
      FoldFlowAppend(e, a, b[..|b| - 1]);
    }
  }

  lemma {:induction false} FoldKeepsSchema(s: State, log: seq<StateUpdate>)
    ensures Fold(s, log).schema == s.schema
  {
    if log != [] {
      FoldKeepsSchema(s, log[..|log| - 1]);
    }
  }

  // ---------------------------------------------------------------------
  // Flows do not interfere
  // ---------------------------------------------------------------------

  /** The updates of the log that name this flow, in order. */
  function Only(log: seq<StateUpdate>, flow: string): seq<StateUpdate> {
    if log == [] then []
    else
      var last := log[|log| - 1];
      Only(log[..|log| - 1], flow) + if last.flow == flow then [last] else []
  }

  lemma {:induction false} OnlyAppend(a: seq<StateUpdate>, b: seq<StateUpdate>, flow: string)
    ensures Only(a + b, flow) == Only(a, flow) + Only(b, flow)
    decreases |b|
  {
    if b == [] {
      assert a + b == a;
    } else {
      assert (a + b)[..|a + b| - 1] == a + b[..|b| - 1];
      OnlyAppend(a, b[..|b| - 1], flow);
    }
  }

  lemma LookupStore(s: State, f: string, entry: Option<FlowState>, flow: string)
    ensures Lookup(Store(s, f, entry), flow) == if f == flow then entry else Lookup(s, flow)
  {
  }

  lemma FoldFlowSnoc(entry: Option<FlowState>, log: seq<StateUpdate>, u: StateUpdate)
    ensures FoldFlow(entry, log + [u]) == Step(FoldFlow(entry, log), u)
  {
    assert (log + [u])[..|log|] == log;
  }

  /** The state of a flow depends on that flow's own updates and on nothing else in the log. */
  lemma {:induction false} FlowIsolation(s: State, log: seq<StateUpdate>, flow: string)
    ensures Lookup(Fold(s, log), flow) == FoldFlow(Lookup(s, flow), Only(log, flow))
  {
    if log != [] {
      var init, last := log[..|log| - 1], log[|log| - 1];
      FlowIsolation(s, init, flow);
      var before := Fold(s, init);
      LookupStore(before, last.flow, Step(Lookup(before, last.flow), last), flow);
      if last.flow == flow {
        FoldFlowSnoc(Lookup(s, flow), Only(init, flow), last);
      } else {
        assert Only(log, flow) == Only(init, flow);
      }
    }
  }

  /**
   * Two logs that agree flow by flow yield the same state, however the flows' updates are
   * interleaved: the channel's arrival order across producers does not matter.
   */
  lemma InterleavingIrrelevant(s: State, a: seq<StateUpdate>, b: seq<StateUpdate>)
    requires forall flow :: Only(a, flow) == Only(b, flow)
    ensures Fold(s, a) == Fold(s, b)
  {
    FoldKeepsSchema(s, a);
    FoldKeepsSchema(s, b);
    var x, y := Fold(s, a), Fold(s, b);
    forall flow
      ensures Lookup(x, flow) == Lookup(y, flow)
    {
      FlowIsolation(s, a, flow);
      FlowIsolation(s, b, flow);
      assert Only(a, flow) == Only(b, flow);
    }
    forall flow
      ensures flow in x.flows <==> flow in y.flows
      ensures flow in x.flows && flow in y.flows ==> x.flows[flow] == y.flows[flow]
    {
      assert Lookup(x, flow) == Lookup(y, flow);
    }
    assert x.flows == y.flows;
  }

  lemma StoresCommute(s: State, f: string, x: Option<FlowState>, g: string, y: Option<FlowState>)
    requires f != g
    ensures Store(Store(s, f, x), g, y) == Store(Store(s, g, y), f, x)
    ensures Lookup(Store(s, f, x), g) == Lookup(s, g)
  {
    assert Store(Store(s, f, x), g, y).flows == Store(Store(s, g, y), f, x).flows;
  }

  /** Updates to different flows commute. */
  lemma UpdatesCommute(s: State, u: StateUpdate, v: StateUpdate)
    requires u.flow != v.flow
    ensures Apply(Apply(s, u), v) == Apply(Apply(s, v), u)
  {
    var x, y := Step(Lookup(s, u.flow), u), Step(Lookup(s, v.flow), v);
    StoresCommute(s, u.flow, x, v.flow, y);
    StoresCommute(s, v.flow, y, u.flow, x);
  }

  lemma FoldFromRemoval(entry: Option<FlowState>, own: seq<StateUpdate>, cut: nat)
    requires 0 < cut <= |own| && own[cut - 1].FlowRemoved?
    ensures FoldFlow(entry, own) == FoldFlow(None, own[cut..])
  {
    var before := own[..cut];
    assert own == before + own[cut..];
    FoldFlowAppend(entry, before, own[cut..]);
    assert FoldFlow(entry, before) == None;
  }

  /** Nothing that happened to a flow before its removal is visible afterwards. */
  lemma RemovalForgets(s: State, before: seq<StateUpdate>, flow: string, after: seq<StateUpdate>)
    ensures Lookup(Fold(s, before + [FlowRemoved(flow)] + after), flow) == FoldFlow(None, Only(after, flow))
  {
    var upTo := before + [FlowRemoved(flow)];
    FlowIsolation(s, upTo + after, flow);
    OnlyAppend(upTo, after, flow);
    assert upTo[..|upTo| - 1] == before;
    var own := Only(upTo, flow) + Only(after, flow);
    var cut := |Only(upTo, flow)|;
    assert own[cut..] == Only(after, flow);
    FoldFromRemoval(Lookup(s, flow), own, cut);
  }

  // ---------------------------------------------------------------------
  // The bounded history refines an unbounded one
  // ---------------------------------------------------------------------

  /** Every run a flow accepted, without any cap: still active, ever started, ever finished. */
  datatype Ledger = Ledger(active: seq<RunState>, started: seq<RunState>, finished: seq<RunState>)

  function Record(l: Ledger, u: StateUpdate): Ledger {
    match u
    case RunStarted(_, id, at) =>
      var run := RunState(id, at, None, None);
      if exists r :: r in l.active && r.runId == id then l
      else l.(active := l.active + [run], started := l.started + [run])
    case RunFinished(_, id, conclusion, at) =>
      (match Find(l.active, id)
       case None => l
       case Some(p) =>
         l.(active := Remove(l.active, p),
            finished := l.finished + [l.active[p].(conclusion := Some(conclusion), completedAt := Some(at))]))
    case _ => l
  }

  function Audit(active: seq<RunState>, log: seq<StateUpdate>): Ledger {
    if log == [] then Ledger(active, [], [])
    else Record(Audit(active, log[..|log| - 1]), log[|log| - 1])
  }

  ghost predicate NoRemoval(log: seq<StateUpdate>) {
    forall i :: 0 <= i < |log| ==> !log[i].FlowRemoved?
  }

  /** A run is the same run before and after it finishes: id and start time identify it. */
  function Key(r: RunState): (RunId, Time) {
    (r.runId, r.startedAt)
  }

  function Keys(runs: seq<RunState>): (r: seq<(RunId, Time)>)
    ensures |r| == |runs|
    ensures forall i :: 0 <= i < |runs| ==> r[i] == Key(runs[i])
  {
    seq(|runs|, i requires 0 <= i < |runs| => Key(runs[i]))
  }

  ghost predicate DistinctIds(runs: seq<RunState>) {
    forall i, j :: 0 <= i < j < |runs| ==> runs[i].runId != runs[j].runId
  }

  /** The notified list after `finished` more runs were accepted on top of `before`. */
  function Capped(before: seq<RunState>, finished: seq<RunState>): seq<RunState> {
    var all := before + finished;
    if finished == [] || |all| <= 100 then all else all[|all| - 100..]
  }

  lemma CappedSnoc(before: seq<RunState>, finished: seq<RunState>, done: RunState)
    ensures LastN(Capped(before, finished) + [done], NOTIFIED_RUNS_CAP) == Capped(before, finished + [done])
  {
    Regroup2(before, finished, [done]);
    if finished == [] {
      assert before + finished == before;
    } else {
      LastNAbsorbs(before + finished, [done], NOTIFIED_RUNS_CAP);
    }
  }

  /**
   * From any entry, over any removal-free log of one flow: the active list is the ledger's, and
   * the notified list is the last 100 of everything ever finished.
   */
  lemma {:induction false} BoundedHistory(entry: Option<FlowState>, log: seq<StateUpdate>)
    requires NoRemoval(log)
    ensures var e := entry.GetOr(DEFAULT_FLOW);
            var l := Audit(e.activeRuns, log);
            var final := FoldFlow(entry, log).GetOr(DEFAULT_FLOW);
            && final.activeRuns == l.active
            && final.notifiedRuns == Capped(e.notifiedRuns, l.finished)
  {
    if log != [] {
      var init, last := log[..|log| - 1], log[|log| - 1];
      BoundedHistory(entry, init);
      var e := entry.GetOr(DEFAULT_FLOW);
      var l := Audit(e.activeRuns, init);
      var cur := FoldFlow(entry, init);
      if last.RunFinished? && Find(l.active, last.runId).Some? {
        var done := Record(l, last).finished[|l.finished|];
        CappedSnoc(e.notifiedRuns, l.finished, done);
      } else if last.RunStarted? {
        FoundIffMember(l.active, last.runId);
      }
    }
  }

  lemma FoundIffMember(runs: seq<RunState>, id: RunId)
    ensures Find(runs, id).Some? <==> exists r :: r in runs && r.runId == id
  {
    match Find(runs, id)
    case Some(p) =>
      assert runs[p] in runs;
    case None =>
  }

  lemma RemoveFromMultiset<T>(s: seq<T>, pos: nat)
    requires pos < |s|
    ensures multiset(s) == multiset(Remove(s, pos)) + multiset{s[pos]}
  {
    assert s == s[..pos] + [s[pos]] + s[pos + 1..];
  }

  lemma KeysAppend(a: seq<RunState>, b: seq<RunState>)
    ensures Keys(a + b) == Keys(a) + Keys(b)
  {
  }

  /** One update moves runs between the three lists without losing or inventing any. */
  lemma RecordConserves(l: Ledger, u: StateUpdate)
    ensures var l' := Record(l, u);
            multiset(Keys(l'.started)) + multiset(Keys(l.active)) + multiset(Keys(l.finished))
            == multiset(Keys(l.started)) + multiset(Keys(l'.active)) + multiset(Keys(l'.finished))
  {
    var l' := Record(l, u);
    if u.RunStarted? && l' != l {
      var run := RunState(u.runId, u.startedAt, None, None);
      KeysAppend(l.active, [run]);
      KeysAppend(l.started, [run]);
      assert Keys([run]) == [Key(run)];
    } else if u.RunFinished? && Find(l.active, u.runId).Some? {
      var p := Find(l.active, u.runId).value;
      var done := l'.finished[|l.finished|];
      KeysAppend(l.finished, [done]);
      assert Keys([done]) == [Key(done)];
      RemoveFromMultiset(Keys(l.active), p);
      assert Keys(l'.active) == Remove(Keys(l.active), p);
    }
  }

  /** Conservation: what was active or started is active or finished, with multiplicity. */
  lemma {:induction false} RunsConserved(active: seq<RunState>, log: seq<StateUpdate>)
    ensures var l := Audit(active, log);
            multiset(Keys(active)) + multiset(Keys(l.started)) == multiset(Keys(l.active)) + multiset(Keys(l.finished))
  {
    if log == [] {
      assert Keys([]) == [];
    } else {
      RunsConserved(active, log[..|log| - 1]);
      var l := Audit(active, log[..|log| - 1]);
      var l' := Record(l, log[|log| - 1]);
      RecordConserves(l, log[|log| - 1]);
      forall k
        ensures (multiset(Keys(active)) + multiset(Keys(l'.started)))[k]
                == (multiset(Keys(l'.active)) + multiset(Keys(l'.finished)))[k]
      {
        assert (multiset(Keys(active)) + multiset(Keys(l.started)))[k]
               == (multiset(Keys(l.active)) + multiset(Keys(l.finished)))[k];
        assert (multiset(Keys(l'.started)) + multiset(Keys(l.active)) + multiset(Keys(l.finished)))[k]
               == (multiset(Keys(l.started)) + multiset(Keys(l'.active)) + multiset(Keys(l'.finished)))[k];
      }
    }
  }

  /** Duplicate `RunStarted` updates cannot make a run active twice. */
  lemma {:induction false} ActiveIdsDistinct(active: seq<RunState>, log: seq<StateUpdate>)
    requires DistinctIds(active)
    ensures DistinctIds(Audit(active, log).active)
  {
    if log != [] {
      ActiveIdsDistinct(active, log[..|log| - 1]);
      var l, last := Audit(active, log[..|log| - 1]), log[|log| - 1];
      if last.RunStarted? {
        FoundIffMember(l.active, last.runId);
      }
    }
  }

  /** How many updates a one-flow log has up to and including its last removal; 0 when it has none. */
  function LastRemoval(log: seq<StateUpdate>): (cut: nat)
    ensures cut <= |log|
    ensures cut > 0 ==> log[cut - 1].FlowRemoved?
    ensures NoRemoval(log[cut..])
  {
    if log == [] then 0
    else if log[|log| - 1].FlowRemoved? then |log|
    else LastRemoval(log[..|log| - 1])
  }

  /** The entry a flow's surviving history starts from: the initial one, or none after a removal. */
  function StartEntry(s: State, log: seq<StateUpdate>, flow: string): Option<FlowState> {
    if LastRemoval(Only(log, flow)) == 0 then Lookup(s, flow) else None
  }

  /** The flow's own updates since its last removal. */
  function Surviving(log: seq<StateUpdate>, flow: string): (r: seq<StateUpdate>)
    ensures NoRemoval(r)
  {
    var own := Only(log, flow);
    own[LastRemoval(own)..]
  }

  /** What any whole log leaves of a flow: the fold of its updates since its last removal. */
  lemma StateSinceRemoval(s: State, log: seq<StateUpdate>, flow: string)
    ensures Lookup(Fold(s, log), flow) == FoldFlow(StartEntry(s, log, flow), Surviving(log, flow))
  {
    FlowIsolation(s, log, flow);
    var own := Only(log, flow);
    var cut := LastRemoval(own);
    if cut == 0 {
      assert own[cut..] == own;
    } else {
      FoldFromRemoval(Lookup(s, flow), own, cut);
    }
  }

  /**
   * The whole statement, for any log over many flows and any start state: a flow's `notified_runs`
   * are the last 100 accepted finishes since its last removal, on top of what it began with, and
   * accepted starts plus the initial active runs are exactly the active runs plus those finishes.
   */
  lemma RunHistory(s: State, log: seq<StateUpdate>, flow: string)
    ensures var start := StartEntry(s, log, flow).GetOr(DEFAULT_FLOW);
            var final := Lookup(Fold(s, log), flow).GetOr(DEFAULT_FLOW);
            var l := Audit(start.activeRuns, Surviving(log, flow));
            && final.activeRuns == l.active
            && final.notifiedRuns == Capped(start.notifiedRuns, l.finished)
            && multiset(Keys(start.activeRuns)) + multiset(Keys(l.started))
               == multiset(Keys(final.activeRuns)) + multiset(Keys(l.finished))
            && (DistinctIds(start.activeRuns) ==> DistinctIds(final.activeRuns))
  {
    StateSinceRemoval(s, log, flow);
    var entry, own := StartEntry(s, log, flow), Surviving(log, flow);
    var active := entry.GetOr(DEFAULT_FLOW).activeRuns;
    BoundedHistory(entry, own);
    RunsConserved(active, own);
    if DistinctIds(active) {
      ActiveIdsDistinct(active, own);
    }
  }

  // ---------------------------------------------------------------------
  // Last writer wins
  // ---------------------------------------------------------------------

  function ShaOf(u: StateUpdate): Option<string> {
    if u.PollObservation? then Some(u.sha) else None
  }

  function PollTimeOf(u: StateUpdate): Option<Time> {
    if u.PollObservation? || u.PollTimestamp? then Some(u.at) else None
  }

  function DispatchOf(u: StateUpdate): Option<Time> {
    if u.PollObservation? then u.dispatchedAt else None
  }

  function CooldownOf(u: StateUpdate): Option<Time> {
    if u.PollObservation? then u.cooldownUntil else None
  }

  predicate Creates(u: StateUpdate) {
    u.PollObservation? || u.PollTimestamp? || u.RunStarted?
  }

  lemma StepScalars(entry: Option<FlowState>, u: StateUpdate)
    requires !u.FlowRemoved?
    ensures var e := entry.GetOr(DEFAULT_FLOW);
            var next := Step(entry, u).GetOr(DEFAULT_FLOW);
            && next.lastSha == ShaOf(u).OrElse(e.lastSha)
            && next.lastPollAt == PollTimeOf(u).OrElse(e.lastPollAt)
            && next.lastDispatchedAt == DispatchOf(u).OrElse(e.lastDispatchedAt)
            && next.cooldownUntil == CooldownOf(u).OrElse(e.cooldownUntil)
    ensures Step(entry, u).Some? <==> entry.Some? || Creates(u)
  {
  }

  lemma {:induction false} OwnLastWrites(entry: Option<FlowState>, log: seq<StateUpdate>)
    requires NoRemoval(log)
    ensures var e := entry.GetOr(DEFAULT_FLOW);
            var final := FoldFlow(entry, log).GetOr(DEFAULT_FLOW);
            && final.lastSha == LastSeen(e.lastSha, ShaOf, log)
            && final.lastPollAt == LastSeen(e.lastPollAt, PollTimeOf, log)
            && final.lastDispatchedAt == LastSeen(e.lastDispatchedAt, DispatchOf, log)
            && final.cooldownUntil == LastSeen(e.cooldownUntil, CooldownOf, log)
  {
    if log != [] {
      var init := log[..|log| - 1];
      OwnLastWrites(entry, init);
      StepScalars(FoldFlow(entry, init), log[|log| - 1]);
    }
  }

  lemma {:induction false} OwnEntry(entry: Option<FlowState>, log: seq<StateUpdate>)
    requires NoRemoval(log)
    ensures FoldFlow(entry, log).Some? <==> entry.Some? || exists i :: 0 <= i < |log| && Creates(log[i])
  {
    if log != [] {
      var init := log[..|log| - 1];
      OwnEntry(entry, init);
      StepScalars(FoldFlow(entry, init), log[|log| - 1]);
    }
  }

  /**
   * For any log over many flows: each scalar field of a flow holds the last value written to it since
   * the flow's last removal, on top of what it began with; absent values never clear one.
   */
  lemma LastWriterWins(s: State, log: seq<StateUpdate>, flow: string)
    ensures var e, own := StartEntry(s, log, flow).GetOr(DEFAULT_FLOW), Surviving(log, flow);
            var final := Lookup(Fold(s, log), flow).GetOr(DEFAULT_FLOW);
            && final.lastSha == LastSeen(e.lastSha, ShaOf, own)
            && final.lastPollAt == LastSeen(e.lastPollAt, PollTimeOf, own)
            && final.lastDispatchedAt == LastSeen(e.lastDispatchedAt, DispatchOf, own)
            && final.cooldownUntil == LastSeen(e.cooldownUntil, CooldownOf, own)
  {
    StateSinceRemoval(s, log, flow);
    OwnLastWrites(StartEntry(s, log, flow), Surviving(log, flow));
  }

  /**
   * For any log: a flow has an entry exactly when it began with one and was never removed, or some
   * update other than a finish named it after its last removal.
   */
  lemma EntryExists(s: State, log: seq<StateUpdate>, flow: string)
    ensures flow in Fold(s, log).flows
            <==> StartEntry(s, log, flow).Some? || exists u :: u in Surviving(log, flow) && Creates(u)
  {
    StateSinceRemoval(s, log, flow);
    var own := Surviving(log, flow);
    OwnEntry(StartEntry(s, log, flow), own);
    if exists u :: u in own && Creates(u) {
      var u :| u in own && Creates(u);
      var i :| 0 <= i < |own| && own[i] == u;
      assert Creates(own[i]);
    }
  }

  // ---------------------------------------------------------------------
  // The store itself: entries are created, pushed to, removed from and drained in place
  // ---------------------------------------------------------------------

  class StateStore {
    var schema: nat
    var flows: map<string, FlowState>

    function Snapshot(): State
      reads this
    {
      State(schema, flows)
    }

    constructor (initial: State)
      ensures Snapshot() == initial
    {
      schema, flows := initial.schema, initial.flows;
    }

    method ApplyUpdate(update: StateUpdate)
      modifies this
      ensures Snapshot() == Apply(old(Snapshot()), update)
    {
      match update
      case PollObservation(flow, sha, at, dispatchedAt, cooldownUntil) =>
        ApplyPollObservation(flow, sha, at, dispatchedAt, cooldownUntil);
      case PollTimestamp(flow, at) => ApplyPollTimestamp(flow, at);
      case RunStarted(flow, runId, startedAt) => ApplyRunStarted(flow, runId, startedAt);
      case RunFinished(flow, runId, conclusion, completedAt) =>
        ApplyRunFinished(flow, runId, conclusion, completedAt);
      case FlowRemoved(flow) => ApplyFlowRemoved(flow);
    }

    /** The `entry(flow).or_default()` idiom: afterwards the flow has an entry. */
    method EnsureEntry(flow: string)
      modifies this`flows
      ensures flow in flows && flows == old(flows)[flow := Lookup(old(Snapshot()), flow).GetOr(DEFAULT_FLOW)]
    {
      if flow !in flows {
        flows := flows[flow := DEFAULT_FLOW];
      }
    }

    method ApplyPollObservation(flow: string, sha: string, at: Time, dispatchedAt: Option<Time>, cooldownUntil: Option<Time>)
      modifies this`flows
      ensures Snapshot() == Apply(old(Snapshot()), PollObservation(flow, sha, at, dispatchedAt, cooldownUntil))
    {
      EnsureEntry(flow);
      var entry := flows[flow];
      entry := entry.(lastSha := Some(sha));
      entry := entry.(lastPollAt := Some(at));
      if dispatchedAt.Some? {
        entry := entry.(lastDispatchedAt := dispatchedAt);
      }
      if cooldownUntil.Some? {
        entry := entry.(cooldownUntil := cooldownUntil);
      }
      flows := flows[flow := entry];
    }

    method ApplyPollTimestamp(flow: string, at: Time)
      modifies this`flows
      ensures Snapshot() == Apply(old(Snapshot()), PollTimestamp(flow, at))
    {
      EnsureEntry(flow);
      flows := flows[flow := flows[flow].(lastPollAt := Some(at))];
    }

    method ApplyRunStarted(flow: string, runId: RunId, startedAt: Time)
      modifies this`flows
      ensures Snapshot() == Apply(old(Snapshot()), RunStarted(flow, runId, startedAt))
    {
      EnsureEntry(flow);
      var pos := Position(flows[flow].activeRuns, runId);
      if pos.Some? {
        return;
      }
      var e := flows[flow];
      flows := flows[flow := e.(activeRuns := e.activeRuns + [RunState(runId, startedAt, None, None)])];
    }

    method ApplyRunFinished(flow: string, runId: RunId, conclusion: string, completedAt: Time)
      modifies this`flows
      ensures Snapshot() == Apply(old(Snapshot()), RunFinished(flow, runId, conclusion, completedAt))
    {
      if flow !in flows {
        return;
      }
      var pos := Position(flows[flow].activeRuns, runId);
      if pos.None? {
        return;
      }
      var e := flows[flow];
      var run := e.activeRuns[pos.value];
      var active := e.activeRuns[..pos.value] + e.activeRuns[pos.value + 1..];
      run := run.(conclusion := Some(conclusion));
      run := run.(completedAt := Some(completedAt));
      var notified := e.notifiedRuns + [run];
      if |notified| > NOTIFIED_RUNS_CAP {
        var excess := |notified| - NOTIFIED_RUNS_CAP;
        notified := notified[excess..];
      }
      flows := flows[flow := e.(activeRuns := active, notifiedRuns := notified)];
    }

    method ApplyFlowRemoved(flow: string)
      modifies this`flows
      ensures Snapshot() == Apply(old(Snapshot()), FlowRemoved(flow))
    {
      flows := flows - {flow};
    }
  }

  /** Linear search for the first run with this id. */
  method Position(runs: seq<RunState>, id: RunId) returns (pos: Option<nat>)
    ensures pos == Find(runs, id)
  {
    var i := 0;
    while i < |runs|
      invariant 0 <= i <= |runs|
      invariant forall j :: 0 <= j < i ==> runs[j].runId != id
    {
      if runs[i].runId == id {
        return Some(i);
      }
      i := i + 1;
    }
    return None;
  }
}
