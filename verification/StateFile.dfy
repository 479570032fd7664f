// The on-disk form of the state and the loader that reads it back
// (src/state/mod.rs, serde attributes of src/state/apply.rs).

module StateFile {
  import opened Prelude
  import opened StateLog

  /** A parsed JSON document; JSON text itself is outside the model. */
  datatype Json =
    | Null
    | Bool(b: bool)
    | Num(n: int)
    | Float(r: real)
    | Str(s: string)
    | Arr(items: seq<Json>)
    | Obj(fields: map<string, Json>)

  /** RFC 3339 rendering and reading of an instant, as supplied by the calendar library. */
  datatype TimeText = TimeText(format: Time -> string, parse: string -> Option<Time>) {
    ghost predicate Faithful() {
      forall t: Time :: parse(format(t)) == Some(t)
    }
  }

  const U32_LIMIT := 0x1_0000_0000
  const U64_LIMIT := 0x1_0000_0000_0000_0000

  // ---------------------------------------------------------------------
  // Writing: absent options and empty lists are omitted
  // ---------------------------------------------------------------------

  function StrOf(s: Option<string>): Option<Json> {
    match s
    case None => None
    case Some(v) => Some(Str(v))
  }

  function TimeOf(tt: TimeText, t: Option<Time>): Option<Json> {
    match t
    case None => None
    case Some(v) => Some(Str(tt.format(v)))
  }

  const RUN_FIELDS := {"run_id", "started_at", "conclusion", "completed_at"}

  function RunField(tt: TimeText, r: RunState, name: string): Option<Json> {
    if name == "run_id" then Some(Num(r.runId))
    else if name == "started_at" then Some(Str(tt.format(r.startedAt)))
    else if name == "conclusion" then StrOf(r.conclusion)
    else if name == "completed_at" then TimeOf(tt, r.completedAt)
    else None
  }

  function EncodeRun(tt: TimeText, r: RunState): Json {
    Obj(map name | name in RUN_FIELDS && RunField(tt, r, name).Some? :: RunField(tt, r, name).value)
  }

  function EncodeRuns(tt: TimeText, runs: seq<RunState>): seq<Json> {
    if runs == [] then [] else [EncodeRun(tt, runs[0])] + EncodeRuns(tt, runs[1..])
  }

  function RunsOf(tt: TimeText, runs: seq<RunState>): Option<Json> {
    if runs == [] then None else Some(Arr(EncodeRuns(tt, runs)))
  }

  const FLOW_FIELDS := {"last_sha", "last_poll_at", "last_dispatched_at", "cooldown_until", "active_runs", "notified_runs"}

  function FlowField(tt: TimeText, f: FlowState, name: string): Option<Json> {
    if name == "last_sha" then StrOf(f.lastSha)
    else if name == "last_poll_at" then TimeOf(tt, f.lastPollAt)
    else if name == "last_dispatched_at" then TimeOf(tt, f.lastDispatchedAt)
    else if name == "cooldown_until" then TimeOf(tt, f.cooldownUntil)
    else if name == "active_runs" then RunsOf(tt, f.activeRuns)
    else if name == "notified_runs" then RunsOf(tt, f.notifiedRuns)
    else None
  }

  function EncodeFlow(tt: TimeText, f: FlowState): Json {
    Obj(map name | name in FLOW_FIELDS && FlowField(tt, f, name).Some? :: FlowField(tt, f, name).value)
  }

  function Encode(tt: TimeText, s: State): Json {
    Obj(map["schema" := Num(s.schema),
            "flows" := Obj(map name | name in s.flows :: EncodeFlow(tt, s.flows[name]))])
  }

  // ---------------------------------------------------------------------
  // Reading: defaults are refilled, unknown fields are refused
  // ---------------------------------------------------------------------

  /** An optional string: the outer None is a decoding error. */
  function ReadStr(m: map<string, Json>, name: string): Option<Option<string>> {
    if name !in m || m[name].Null? then Some(None)
    else if m[name].Str? then Some(Some(m[name].s))
    else None
  }

  function ReadTime(tt: TimeText, m: map<string, Json>, name: string): Option<Option<Time>> {
    match ReadStr(m, name)
    case None => None
    case Some(None) => Some(None)
    case Some(Some(text)) =>
      match tt.parse(text)
      case None => None
      case Some(t) => Some(Some(t))
  }

  function DecodeRun(tt: TimeText, j: Json): Option<RunState> {
    if !j.Obj? || !(j.fields.Keys <= RUN_FIELDS) then None
    else
      var m := j.fields;
      if "run_id" !in m || !m["run_id"].Num? || !(0 <= m["run_id"].n < U64_LIMIT) then None
      else
        var startedAt := ReadTime(tt, m, "started_at");
        var conclusion := ReadStr(m, "conclusion");
        var completedAt := ReadTime(tt, m, "completed_at");
        if startedAt.None? || startedAt.value.None? || conclusion.None? || completedAt.None? then None
        else Some(RunState(m["run_id"].n, startedAt.value.value, conclusion.value, completedAt.value))
  }

  function DecodeRuns(tt: TimeText, items: seq<Json>): Option<seq<RunState>> {
    if items == [] then Some([])
    else
      var head, tail := DecodeRun(tt, items[0]), DecodeRuns(tt, items[1..]);
      if head.None? || tail.None? then None else Some([head.value] + tail.value)
  }

  /** A defaulted list: absent is empty, but an explicit null is an error. */
  function ReadRuns(tt: TimeText, m: map<string, Json>, name: string): Option<seq<RunState>> {
    if name !in m then Some([])
    else if m[name].Arr? then DecodeRuns(tt, m[name].items)
    else None
  }

  function DecodeFlow(tt: TimeText, j: Json): Option<FlowState> {
    if !j.Obj? || !(j.fields.Keys <= FLOW_FIELDS) then None
    else
      var m := j.fields;
      var lastSha := ReadStr(m, "last_sha");
      var lastPollAt := ReadTime(tt, m, "last_poll_at");
      var lastDispatchedAt := ReadTime(tt, m, "last_dispatched_at");
      var cooldownUntil := ReadTime(tt, m, "cooldown_until");
      var activeRuns := ReadRuns(tt, m, "active_runs");
      var notifiedRuns := ReadRuns(tt, m, "notified_runs");
      if lastSha.None? || lastPollAt.None? || lastDispatchedAt.None? || cooldownUntil.None?
         || activeRuns.None? || notifiedRuns.None? then None
      else Some(FlowState(lastSha.value, lastPollAt.value, lastDispatchedAt.value, cooldownUntil.value,
                          activeRuns.value, notifiedRuns.value))
  }

  function DecodeFlows(tt: TimeText, m: map<string, Json>): Option<map<string, FlowState>> {
    if forall name :: name in m ==> DecodeFlow(tt, m[name]).Some?
    then Some(map name | name in m :: DecodeFlow(tt, m[name]).value)
    else None
  }

  function Decode(tt: TimeText, j: Json): Option<State> {
    if !j.Obj? || j.fields.Keys != {"schema", "flows"} then None
    else
      var schema, flows := j.fields["schema"], j.fields["flows"];
      if !schema.Num? || !(0 <= schema.n < U32_LIMIT) || !flows.Obj? then None
      else
        match DecodeFlows(tt, flows.fields)
        case None => None
        case Some(decoded) => Some(State(schema.n, decoded))
  }

  // ---------------------------------------------------------------------
  // load_or_init
  // ---------------------------------------------------------------------

  datatype StateError =
    | LoadIo
    | ParseJson
    | MissingSchema
    | SchemaNotUnsigned
    | UnsupportedSchema(version: nat)
    | Deserialize

  datatype LoadResult = Loaded(state: State) | Refused(error: StateError)

  /** What open and read return for the path. */
  datatype FileRead = NotFound | OpenFailed | ReadFailed | NotJson | Document(doc: Json)

  function LoadOrInit(tt: TimeText, file: FileRead): LoadResult {
    match file
    case NotFound => Loaded(DEFAULT_STATE)
    case OpenFailed => Refused(LoadIo)
    case ReadFailed => Refused(LoadIo)
    case NotJson => Refused(ParseJson)
    case Document(doc) =>
      if !doc.Obj? then Refused(ParseJson)
      else if "schema" !in doc.fields || doc.fields["schema"].Null? then Refused(MissingSchema)
      else
        var schema := doc.fields["schema"];
        if !schema.Num? || !(0 <= schema.n < U64_LIMIT) then Refused(SchemaNotUnsigned)
        else if schema.n != SCHEMA_VERSION then Refused(UnsupportedSchema(schema.n))
        else
          match Decode(tt, doc)
          case None => Refused(Deserialize)
          case Some(state) => Loaded(state)
  }

  // ---------------------------------------------------------------------
  // Round trip
  // ---------------------------------------------------------------------

  lemma ReadsBackStr(m: map<string, Json>, name: string, v: Option<string>)
    requires (name in m) == v.Some? && (v.Some? ==> m[name] == Str(v.value))
    ensures ReadStr(m, name) == Some(v)
  {
  }

  lemma ParsesBack(tt: TimeText, t: Time)
    requires tt.Faithful()
    ensures tt.parse(tt.format(t)) == Some(t)
  {
  }

  lemma ReadsBackTime(tt: TimeText, m: map<string, Json>, name: string, t: Option<Time>)
    requires tt.Faithful()
    requires (name in m) == t.Some? && (t.Some? ==> m[name] == Str(tt.format(t.value)))
    ensures ReadTime(tt, m, name) == Some(t)
  {
    ReadsBackStr(m, name, if t.Some? then Some(tt.format(t.value)) else None);
    if t.Some? {
      ParsesBack(tt, t.value);
    }
  }

  lemma ReadsBackRuns(tt: TimeText, m: map<string, Json>, name: string, runs: seq<RunState>)
    requires tt.Faithful()
    requires (name in m) == RunsOf(tt, runs).Some? && (name in m ==> m[name] == RunsOf(tt, runs).value)
    ensures ReadRuns(tt, m, name) == Some(runs)
  {
    RunsRoundTrip(tt, runs);
  }

  lemma RunRoundTrip(tt: TimeText, r: RunState)
    requires tt.Faithful()
    ensures DecodeRun(tt, EncodeRun(tt, r)) == Some(r)
  {
    var m := EncodeRun(tt, r).fields;
    ReadsBackTime(tt, m, "started_at", Some(r.startedAt));
    ReadsBackStr(m, "conclusion", r.conclusion);
    ReadsBackTime(tt, m, "completed_at", r.completedAt);
  }

  lemma {:induction false} RunsRoundTrip(tt: TimeText, runs: seq<RunState>)
    requires tt.Faithful()
    ensures DecodeRuns(tt, EncodeRuns(tt, runs)) == Some(runs)
  {
    if runs != [] {
      var tail := EncodeRuns(tt, runs[1..]);
      RunRoundTrip(tt, runs[0]);
      RunsRoundTrip(tt, runs[1..]);
      DecodeCons(tt, EncodeRun(tt, runs[0]), tail, runs[0], runs[1..]);
      assert [runs[0]] + runs[1..] == runs;
    }
  }

  lemma DecodeCons(tt: TimeText, head: Json, tail: seq<Json>, r: RunState, rs: seq<RunState>)
    requires DecodeRun(tt, head) == Some(r) && DecodeRuns(tt, tail) == Some(rs)
    ensures DecodeRuns(tt, [head] + tail) == Some([r] + rs)
  {
    var items := [head] + tail;
    assert items[0] == head && items[1..] == tail;
  }

  lemma FlowRoundTrip(tt: TimeText, f: FlowState)
    requires tt.Faithful()
    ensures DecodeFlow(tt, EncodeFlow(tt, f)) == Some(f)
  {
    var m := EncodeFlow(tt, f).fields;
    ReadsBackStr(m, "last_sha", f.lastSha);
    ReadsBackTime(tt, m, "last_poll_at", f.lastPollAt);
    ReadsBackTime(tt, m, "last_dispatched_at", f.lastDispatchedAt);
    ReadsBackTime(tt, m, "cooldown_until", f.cooldownUntil);
    ReadsBackRuns(tt, m, "active_runs", f.activeRuns);
    ReadsBackRuns(tt, m, "notified_runs", f.notifiedRuns);
  }

  /** Every state the daemon can hold survives a save and a load unchanged. */
  lemma StateRoundTrip(tt: TimeText, s: State)
    requires tt.Faithful() && s.schema == SCHEMA_VERSION
    ensures LoadOrInit(tt, Document(Encode(tt, s))) == Loaded(s)
  {
    var m := Encode(tt, s).fields["flows"].fields;
    forall name | name in s.flows
      ensures DecodeFlow(tt, m[name]) == Some(s.flows[name])
    {
      FlowRoundTrip(tt, s.flows[name]);
    }
    assert DecodeFlows(tt, m).value == s.flows;
  }

  /** A run is written without the fields it has no value for. */
  predicate RunOmits(j: Json, r: RunState) {
    j.Obj? && ("conclusion" in j.fields <==> r.conclusion.Some?) && ("completed_at" in j.fields <==> r.completedAt.Some?)
  }

  predicate RunsOmit(m: map<string, Json>, name: string, runs: seq<RunState>) {
    && (name in m <==> runs != [])
    && (runs != [] ==> m[name].Arr? && |m[name].items| == |runs|
                       && forall i :: 0 <= i < |runs| ==> RunOmits(m[name].items[i], runs[i]))
  }

  /** What is absent is not written: neither a missing value nor an empty list. */
  predicate FlowOmits(m: map<string, Json>, f: FlowState) {
    && ("last_sha" in m <==> f.lastSha.Some?) && ("last_poll_at" in m <==> f.lastPollAt.Some?)
    && ("last_dispatched_at" in m <==> f.lastDispatchedAt.Some?) && ("cooldown_until" in m <==> f.cooldownUntil.Some?)
    && RunsOmit(m, "active_runs", f.activeRuns) && RunsOmit(m, "notified_runs", f.notifiedRuns)
  }

  lemma {:induction false} EncodeRunsAt(tt: TimeText, runs: seq<RunState>, i: nat)
    requires i < |runs|
    ensures |EncodeRuns(tt, runs)| == |runs| && EncodeRuns(tt, runs)[i] == EncodeRun(tt, runs[i])
  {
    if |runs| > 1 {
      EncodeRunsAt(tt, runs[1..], if i > 0 then i - 1 else 0);
    }
  }

  lemma RunsEncodeOmits(tt: TimeText, m: map<string, Json>, name: string, runs: seq<RunState>)
    requires (name in m) == RunsOf(tt, runs).Some? && (name in m ==> m[name] == RunsOf(tt, runs).value)
    ensures RunsOmit(m, name, runs)
  {
    forall i | 0 <= i < |runs|
      ensures |EncodeRuns(tt, runs)| == |runs| && RunOmits(EncodeRuns(tt, runs)[i], runs[i])
    {
      EncodeRunsAt(tt, runs, i);
    }
    if runs != [] {
      EncodeRunsAt(tt, runs, 0);
    }
  }

  /** The file of a state holds nothing for what the state lacks. */
  lemma EncodeOmits(tt: TimeText, s: State, name: string)
    requires name in s.flows
    ensures var flows := Encode(tt, s).fields["flows"].fields;
            name in flows && flows[name].Obj? && FlowOmits(flows[name].fields, s.flows[name])
  {
    var f, m := s.flows[name], Encode(tt, s).fields["flows"].fields[name].fields;
    RunsEncodeOmits(tt, m, "active_runs", f.activeRuns);
    RunsEncodeOmits(tt, m, "notified_runs", f.notifiedRuns);
  }

  /** Different states have different files. */
  lemma EncodeInjective(tt: TimeText, s: State, t: State)
    requires tt.Faithful() && s.schema == t.schema == SCHEMA_VERSION
    requires Encode(tt, s) == Encode(tt, t)
    ensures s == t
  {
    StateRoundTrip(tt, s);
    StateRoundTrip(tt, t);
  }

  // ---------------------------------------------------------------------
  // Strictness
  // ---------------------------------------------------------------------

  predicate OnlyFields(j: Json, allowed: set<string>) {
    j.Obj? && j.fields.Keys <= allowed
  }

  predicate RunListKnown(m: map<string, Json>, name: string) {
    name in m ==>
      m[name].Arr? && forall i :: 0 <= i < |m[name].items| ==>
        OnlyFields(m[name].items[i], RUN_FIELDS)
  }

  /** No field at any level of the document is unknown to this schema. */
  predicate KnownFieldsOnly(j: Json) {
    && OnlyFields(j, {"schema", "flows"})
    && "flows" in j.fields && j.fields["flows"].Obj?
    && forall name :: name in j.fields["flows"].fields ==>
         var flow := j.fields["flows"].fields[name];
         && OnlyFields(flow, FLOW_FIELDS)
         && RunListKnown(flow.fields, "active_runs")
         && RunListKnown(flow.fields, "notified_runs")
  }

  lemma {:induction false} DecodedRunsKnown(tt: TimeText, items: seq<Json>)
    requires DecodeRuns(tt, items).Some?
    ensures forall i :: 0 <= i < |items| ==> OnlyFields(items[i], RUN_FIELDS)
  {
    if items != [] {
      DecodedRunsKnown(tt, items[1..]);
      forall i | 0 <= i < |items|
        ensures OnlyFields(items[i], RUN_FIELDS)
      {
        if i > 0 {
          assert items[i] == items[1..][i - 1];
        }
      }
    }
  }

  /** An accepted document has schema 1 and no unknown field anywhere; a missing file is a fresh state. */
  lemma AcceptedIsStrict(tt: TimeText, file: FileRead, s: State)
    requires LoadOrInit(tt, file) == Loaded(s)
    ensures s.schema == SCHEMA_VERSION
    ensures file.NotFound? || file.Document?
    ensures file.NotFound? ==> s == DEFAULT_STATE
    ensures file.Document? ==> KnownFieldsOnly(file.doc) && s.flows.Keys == file.doc.fields["flows"].fields.Keys
  {
    if file.Document? {
      var flows := file.doc.fields["flows"].fields;
      forall name | name in flows
        ensures var flow := flows[name];
                && OnlyFields(flow, FLOW_FIELDS)
                && RunListKnown(flow.fields, "active_runs")
                && RunListKnown(flow.fields, "notified_runs")
      {
        var flow := flows[name];
        assert DecodeFlow(tt, flow).Some?;
        if "active_runs" in flow.fields {
          DecodedRunsKnown(tt, flow.fields["active_runs"].items);
        }
        if "notified_runs" in flow.fields {
          DecodedRunsKnown(tt, flow.fields["notified_runs"].items);
        }
      }
    }
  }

  /**
   * The schema gate: for anything but the number 1 in `schema`, the verdict is a schema error and
   * is the same whatever the rest of the document holds.
   */
  lemma SchemaGate(tt: TimeText, a: map<string, Json>, b: map<string, Json>)
    requires ("schema" in a) == ("schema" in b)
    requires "schema" in a ==> a["schema"] == b["schema"]
    requires "schema" in a ==> a["schema"] != Num(SCHEMA_VERSION)
    ensures LoadOrInit(tt, Document(Obj(a))) == LoadOrInit(tt, Document(Obj(b)))
    ensures LoadOrInit(tt, Document(Obj(a))).Refused?
    ensures !LoadOrInit(tt, Document(Obj(a))).error.Deserialize?
  {
  }

  // ---------------------------------------------------------------------
  // What a document means
  // ---------------------------------------------------------------------

  /** An optional string: absent or null, or that string. */
  predicate ShowsText(m: map<string, Json>, name: string, v: Option<string>) {
    if v.Some? then name in m && m[name] == Str(v.value) else name !in m || m[name].Null?
  }

  /** An optional instant: absent or null, or a text the calendar library reads as it. */
  predicate ShowsTime(tt: TimeText, m: map<string, Json>, name: string, v: Option<Time>) {
    if v.Some? then name in m && m[name].Str? && tt.parse(m[name].s) == v else name !in m || m[name].Null?
  }

  predicate ShowsRun(tt: TimeText, j: Json, r: RunState) {
    && j.Obj? && j.fields.Keys <= {"run_id", "started_at", "conclusion", "completed_at"}
    && "run_id" in j.fields && j.fields["run_id"] == Num(r.runId)
    && ShowsTime(tt, j.fields, "started_at", Some(r.startedAt))
    && ShowsText(j.fields, "conclusion", r.conclusion)
    && ShowsTime(tt, j.fields, "completed_at", r.completedAt)
  }

  /** A list of runs: absent when empty, or an array of them in order; never null. */
  predicate ShowsRuns(tt: TimeText, m: map<string, Json>, name: string, runs: seq<RunState>) {
    if name !in m then runs == []
    else m[name].Arr? && ShowsEach(tt, m[name].items, runs)
  }

  predicate ShowsEach(tt: TimeText, items: seq<Json>, runs: seq<RunState>) {
    |items| == |runs| && forall i :: 0 <= i < |runs| ==> ShowsRun(tt, items[i], runs[i])
  }

  lemma ShowsEachCons(tt: TimeText, items: seq<Json>, runs: seq<RunState>)
    requires items != [] && runs != []
    ensures ShowsEach(tt, items, runs) <==> ShowsRun(tt, items[0], runs[0]) && ShowsEach(tt, items[1..], runs[1..])
  {
    if ShowsRun(tt, items[0], runs[0]) && ShowsEach(tt, items[1..], runs[1..]) {
      forall i | 0 <= i < |runs|
        ensures ShowsRun(tt, items[i], runs[i])
      {
        if i > 0 {
          assert items[i] == items[1..][i - 1] && runs[i] == runs[1..][i - 1];
        }
      }
    }
  }

  predicate ShowsFlow(tt: TimeText, j: Json, f: FlowState) {
    && j.Obj?
    && j.fields.Keys <= {"last_sha", "last_poll_at", "last_dispatched_at", "cooldown_until", "active_runs", "notified_runs"}
    && ShowsText(j.fields, "last_sha", f.lastSha)
    && ShowsTime(tt, j.fields, "last_poll_at", f.lastPollAt)
    && ShowsTime(tt, j.fields, "last_dispatched_at", f.lastDispatchedAt)
    && ShowsTime(tt, j.fields, "cooldown_until", f.cooldownUntil)
    && ShowsRuns(tt, j.fields, "active_runs", f.activeRuns)
    && ShowsRuns(tt, j.fields, "notified_runs", f.notifiedRuns)
  }

  /** The document shows the state: schema 1 and exactly its flows, no field missing, unknown or of another type. */
  ghost predicate ShowsState(tt: TimeText, doc: Json, s: State) {
    && doc.Obj? && doc.fields.Keys == {"schema", "flows"}
    && doc.fields["schema"] == Num(1) && s.schema == 1
    && doc.fields["flows"].Obj? && doc.fields["flows"].fields.Keys == s.flows.Keys
    && forall name :: name in s.flows ==> ShowsFlow(tt, doc.fields["flows"].fields[name], s.flows[name])
  }

  lemma ReadTimeIff(tt: TimeText, m: map<string, Json>, name: string, v: Option<Time>)
    ensures ReadTime(tt, m, name) == Some(v) <==> ShowsTime(tt, m, name, v)
  {
  }

  lemma ReadStrIff(m: map<string, Json>, name: string, v: Option<string>)
    ensures ReadStr(m, name) == Some(v) <==> ShowsText(m, name, v)
  {
  }

  lemma DecodeRunIff(tt: TimeText, j: Json, r: RunState)
    ensures DecodeRun(tt, j) == Some(r) <==> ShowsRun(tt, j, r)
  {
    if j.Obj? {
      ReadTimeIff(tt, j.fields, "started_at", Some(r.startedAt));
      ReadStrIff(j.fields, "conclusion", r.conclusion);
      ReadTimeIff(tt, j.fields, "completed_at", r.completedAt);
    }
  }

  lemma {:induction false} DecodeRunsIff(tt: TimeText, items: seq<Json>, runs: seq<RunState>)
    ensures DecodeRuns(tt, items) == Some(runs) <==> ShowsEach(tt, items, runs)
  {
    if items != [] && runs != [] {
      DecodeRunIff(tt, items[0], runs[0]);
      DecodeRunsIff(tt, items[1..], runs[1..]);
      assert runs == [runs[0]] + runs[1..];
      ShowsEachCons(tt, items, runs);
    }
  }

  lemma ReadRunsIff(tt: TimeText, m: map<string, Json>, name: string, runs: seq<RunState>)
    ensures ReadRuns(tt, m, name) == Some(runs) <==> ShowsRuns(tt, m, name, runs)
  {
    if name in m && m[name].Arr? {
      DecodeRunsIff(tt, m[name].items, runs);
    }
  }

  lemma DecodeFlowIff(tt: TimeText, j: Json, f: FlowState)
    ensures DecodeFlow(tt, j) == Some(f) <==> ShowsFlow(tt, j, f)
  {
    if j.Obj? {
      ReadStrIff(j.fields, "last_sha", f.lastSha);
      ReadTimeIff(tt, j.fields, "last_poll_at", f.lastPollAt);
      ReadTimeIff(tt, j.fields, "last_dispatched_at", f.lastDispatchedAt);
      ReadTimeIff(tt, j.fields, "cooldown_until", f.cooldownUntil);
      ReadRunsIff(tt, j.fields, "active_runs", f.activeRuns);
      ReadRunsIff(tt, j.fields, "notified_runs", f.notifiedRuns);
    }
  }

  lemma DecodeFlowsIff(tt: TimeText, m: map<string, Json>, flows: map<string, FlowState>)
    ensures DecodeFlows(tt, m) == Some(flows)
            <==> m.Keys == flows.Keys && forall name :: name in flows ==> ShowsFlow(tt, m[name], flows[name])
  {
    forall name | name in m && name in flows
      ensures DecodeFlow(tt, m[name]) == Some(flows[name]) <==> ShowsFlow(tt, m[name], flows[name])
    {
      DecodeFlowIff(tt, m[name], flows[name]);
    }
    if m.Keys == flows.Keys && forall name :: name in flows ==> ShowsFlow(tt, m[name], flows[name]) {
      assert DecodeFlows(tt, m).value == flows;
    }
    if DecodeFlows(tt, m) == Some(flows) {
      assert forall name :: name in m <==> name in flows;
    }
  }

  lemma DecodeIff(tt: TimeText, doc: Json, s: State)
    requires doc.Obj? && "schema" in doc.fields && doc.fields["schema"] == Num(1)
    ensures Decode(tt, doc) == Some(s) <==> ShowsState(tt, doc, s)
  {
    if "flows" in doc.fields && doc.fields["flows"].Obj? {
      DecodeFlowsIff(tt, doc.fields["flows"].fields, s.flows);
    }
  }

  /** Exactly what a file loads as: nothing there is a fresh state, and a document is the state it shows. */
  lemma LoadedIff(tt: TimeText, file: FileRead, s: State)
    ensures LoadOrInit(tt, file) == Loaded(s)
            <==> || (file.NotFound? && s == State(1, map[]))
                 || (file.Document? && ShowsState(tt, file.doc, s))
  {
    if file.Document? && file.doc.Obj? && "schema" in file.doc.fields && file.doc.fields["schema"] == Num(1) {
      DecodeIff(tt, file.doc, s);
    }
  }

  /** The document is an object with this schema value. */
  predicate HasSchema(file: FileRead, value: Json) {
    file.Document? && file.doc.Obj? && "schema" in file.doc.fields && file.doc.fields["schema"] == value
  }

  /** Why a file is refused. */
  ghost predicate Faulty(tt: TimeText, file: FileRead, error: StateError) {
    match error
    case LoadIo => file.OpenFailed? || file.ReadFailed?
    case ParseJson => file.NotJson? || (file.Document? && !file.doc.Obj?)
    case MissingSchema => file.Document? && file.doc.Obj? && ("schema" !in file.doc.fields || HasSchema(file, Null))
    case SchemaNotUnsigned =>
      && file.Document? && file.doc.Obj? && "schema" in file.doc.fields && !HasSchema(file, Null)
      && forall n: nat :: HasSchema(file, Num(n)) ==> n >= U64_LIMIT
    case UnsupportedSchema(version) => HasSchema(file, Num(version)) && version != 1 && version < U64_LIMIT
    case Deserialize => HasSchema(file, Num(1)) && forall s :: !ShowsState(tt, file.doc, s)
  }

  /** Every file that does not load is refused with exactly its fault. */
  lemma RefusedIff(tt: TimeText, file: FileRead, error: StateError)
    ensures LoadOrInit(tt, file) == Refused(error) <==> Faulty(tt, file, error)
  {
    if HasSchema(file, Num(1)) {
      forall s
        ensures Decode(tt, file.doc) == Some(s) <==> ShowsState(tt, file.doc, s)
      {
        DecodeIff(tt, file.doc, s);
      }
      if Decode(tt, file.doc).Some? {
        assert ShowsState(tt, file.doc, Decode(tt, file.doc).value);
      }
    } else if file.Document? && file.doc.Obj? && "schema" in file.doc.fields && file.doc.fields["schema"].Num? {
      var n := file.doc.fields["schema"].n;
      assert n >= 0 ==> HasSchema(file, Num(n));
    }
  }
}
