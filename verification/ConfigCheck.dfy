// The entry point of validation, proved sound and complete (src/config/validate/mod.rs).

module ConfigCheck {
  import opened Prelude
  import opened ConfigModel
  import opened CredentialId
  import opened ConfigRules
  import opened ConfigValidator
  import opened ConfigSpec
  import opened Index
  import ConfigReports

  // ---------------------------------------------------------------------
  // What is reported
  // ---------------------------------------------------------------------

  function GlobalCtx(env: Env, source: string): Ctx {
    Ctx(env, source, None)
  }

  function GlobalErrors(env: Env, source: string, raw: RawConfig): seq<Violation> {
    PollErrors(GlobalCtx(env, source), raw.poll)
    + TimeoutErrors(GlobalCtx(env, source), raw.requestTimeout)
    + When(raw.flows == [], Report([], None, FlowField, NoFlows))
  }

  /** Everything reported without comparing flows. */
  function OwnErrors(env: Env, source: string, raw: RawConfig): seq<Violation> {
    GlobalErrors(env, source, raw) + FlatMap(FlowReporter(env, source), raw.flows)
  }

  function NameIndex(source: string, raw: RawConfig): map<string, seq<nat>> {
    Gather(FlatMap(NameEntry(source), raw.flows))
  }

  function EnvIndex(env: Env, source: string, raw: RawConfig): map<string, seq<Occurrence>> {
    Gather(EnvEntries(AllSeen(env, source, raw)))
  }

  /** Repeated names in byte order of the name. */
  ghost function DuplicateErrors(source: string, raw: RawConfig): seq<Violation> {
    FlatMap(DuplicateReporter(NameIndex(source, raw)), InOrder(NameIndex(source, raw).Keys))
  }

  /** Shared variables in byte order of the variable. */
  ghost function CollisionErrors(env: Env, source: string, raw: RawConfig): seq<Violation> {
    FlatMap(CollisionReporter(EnvIndex(env, source, raw)), InOrder(EnvIndex(env, source, raw).Keys))
  }

  /** Everything reported, in order. */
  ghost function Reports(env: Env, source: string, raw: RawConfig): seq<Violation> {
    OwnErrors(env, source, raw) + DuplicateErrors(source, raw) + CollisionErrors(env, source, raw)
  }

  lemma OwnErrorsSplit(env: Env, source: string, before: seq<RawFlow>, flow: RawFlow, after: seq<RawFlow>, raw: RawConfig)
    requires raw.flows == before + [flow] + after
    ensures OwnErrors(env, source, raw)
            == GlobalErrors(env, source, raw) + FlatMap(FlowReporter(env, source), before)
               + FlowErrors(env, source, flow) + FlatMap(FlowReporter(env, source), after)
  {
    var f := FlowReporter(env, source);
    FlatMapAt(f, raw.flows, |before|);
    assert raw.flows[..|before|] == before && raw.flows[|before| + 1..] == after;
    Regroup3(GlobalErrors(env, source, raw), FlatMap(f, before), f(flow), FlatMap(f, after));
  }

  /**
   * A flow's own reports stand together and depend on nothing but its own text: wherever that text stands
   * in a source and whatever the other flows and the rest of the source hold, they are the reports the
   * flow gets in its text alone, moved by the newlines in front of it.
   */
  lemma FlowReportsStand(env: Env, text: string, flow: RawFlow, prefix: string, suffix: string,
                         before: seq<RawFlow>, after: seq<RawFlow>, raw: RawConfig)
    requires forall o :: o in ConfigReports.FlowSpans(flow) ==> o <= |text|
    requires raw.flows == before + [ConfigReports.LaterFlow(flow, |prefix|)] + after
    ensures var source := prefix + text + suffix;
            OwnErrors(env, source, raw)
            == GlobalErrors(env, source, raw) + FlatMap(FlowReporter(env, source), before)
               + Map(ConfigReports.Down(Newlines(prefix)), FlowErrors(env, text, flow))
               + FlatMap(FlowReporter(env, source), after)
  {
    OwnErrorsSplit(env, prefix + text + suffix, before, ConfigReports.LaterFlow(flow, |prefix|), after, raw);
    ConfigReports.FlowReportsMove(env, prefix, text, suffix, flow);
  }

  // ---------------------------------------------------------------------
  // Nothing is reported exactly when the rules hold
  // ---------------------------------------------------------------------

  lemma FlowsCleanIffValid(env: Env, source: string, flows: seq<RawFlow>)
    ensures FlatMap(FlowReporter(env, source), flows) == [] <==> forall i :: 0 <= i < |flows| ==> ValidFlow(env, flows[i])
  {
    FlatMapEmpty(FlowReporter(env, source), flows);
    forall i | 0 <= i < |flows|
      ensures FlowReporter(env, source)(flows[i]) == [] <==> ValidFlow(env, flows[i])
    {
      FlowCleanIffValid(env, source, flows[i]);
    }
  }

  lemma GlobalCleanIffValid(env: Env, source: string, raw: RawConfig)
    ensures GlobalErrors(env, source, raw) == []
            <==> ValidPoll(env, raw.poll)
                 && ValidDuration(env, raw.requestTimeout, 1, 300, false)
                 && raw.flows != []
  {
    PollCleanIffValid(GlobalCtx(env, source), raw.poll);
  }

  lemma OwnCleanIffPartsValid(env: Env, source: string, raw: RawConfig)
    ensures OwnErrors(env, source, raw) == [] <==> PartsValid(env, raw)
  {
    GlobalCleanIffValid(env, source, raw);
    FlowsCleanIffValid(env, source, raw.flows);
  }

  lemma {:induction false} NamesFiled(source: string, flows: seq<RawFlow>)
    requires forall i :: 0 <= i < |flows| ==> ValidToken(flows[i].name.value, 64)
    ensures var entries := FlatMap(NameEntry(source), flows);
            |entries| == |flows| && forall i :: 0 <= i < |flows| ==> entries[i].0 == flows[i].name.value
  {
    FlatMapSingletons(NameEntry(source), flows);
  }

  /** A key has two values or more exactly when two entries bear it. */
  lemma {:induction false} ManyUnderIff(entries: seq<(string, nat)>, k: string)
    ensures |Under(entries, k)| > 1 <==> exists i, j :: 0 <= i < j < |entries| && entries[i].0 == k && entries[j].0 == k
  {
    if entries != [] {
      var n := |entries| - 1;
      var init := entries[..n];
      ManyUnderIff(init, k);
      SomeUnderIff(init, k);
      if entries[n].0 == k && Under(init, k) != [] {
        var i :| 0 <= i < n && init[i].0 == k;
        assert entries[i].0 == k;
      } else if |Under(init, k)| > 1 {
        var i, j :| 0 <= i < j < n && init[i].0 == k && init[j].0 == k;
        assert entries[i].0 == k && entries[j].0 == k;
      }
      if exists i, j :: 0 <= i < j < |entries| && entries[i].0 == k && entries[j].0 == k {
        var i, j :| 0 <= i < j < |entries| && entries[i].0 == k && entries[j].0 == k;
        assert init[i].0 == k;
        if j < n {
          assert init[j].0 == k;
        }
      }
    }
  }

  lemma {:induction false} SomeUnderIff(entries: seq<(string, nat)>, k: string)
    ensures Under(entries, k) != [] <==> exists i :: 0 <= i < |entries| && entries[i].0 == k
  {
    if entries != [] {
      SomeUnderIff(entries[..|entries| - 1], k);
    }
  }

  lemma UniqueIsClean(source: string, raw: RawConfig, order: seq<string>, k: nat)
    requires forall i :: 0 <= i < |raw.flows| ==> ValidToken(raw.flows[i].name.value, 64)
    requires NamesUnique(raw.flows) && k < |order|
    ensures DuplicateReporter(NameIndex(source, raw))(order[k]) == []
  {
    var entries := FlatMap(NameEntry(source), raw.flows);
    NamesFiled(source, raw.flows);
    GatherIsUnder(entries, order[k]);
    ManyUnderIff(entries, order[k]);
  }

  lemma DuplicateIsReported(entries: seq<(string, nat)>, order: seq<string>, i: nat, j: nat) returns (k: nat)
    requires (forall k :: k in Gather(entries) ==> k in order) && i < j < |entries| && entries[i].0 == entries[j].0
    ensures k < |order| && DuplicateReporter(Gather(entries))(order[k]) != []
  {
    var name := entries[i].0;
    ManyUnderIff(entries, name);
    GatherIsUnder(entries, name);
    assert name in order;
    k :| 0 <= k < |order| && order[k] == name;
  }

  lemma DuplicatesCleanIffUnique(source: string, raw: RawConfig)
    requires forall i :: 0 <= i < |raw.flows| ==> ValidToken(raw.flows[i].name.value, 64)
    ensures DuplicateErrors(source, raw) == [] <==> NamesUnique(raw.flows)
  {
    var order := InOrder(NameIndex(source, raw).Keys);
    InOrderHolds(NameIndex(source, raw).Keys);
    FlatMapEmpty(DuplicateReporter(NameIndex(source, raw)), order);
    if NamesUnique(raw.flows) {
      forall k | 0 <= k < |order|
        ensures DuplicateReporter(NameIndex(source, raw))(order[k]) == []
      {
        UniqueIsClean(source, raw, order, k);
      }
    } else {
      var i, j :| 0 <= i < j < |raw.flows| && raw.flows[i].name.value == raw.flows[j].name.value;
      NamesFiled(source, raw.flows);
      var k := DuplicateIsReported(FlatMap(NameEntry(source), raw.flows), order, i, j);
    }
  }

  // ---------------------------------------------------------------------
  // Shared variables
  // ---------------------------------------------------------------------

  predicate NoSharedSeen(seen: seq<Occurrence>) {
    forall a, b :: a in seen && b in seen && IdToEnv(a.id) == IdToEnv(b.id) ==> a.id == b.id
  }

  /** What is filed under a variable is what maps to it. */
  lemma FiledUnderVariable(seen: seq<Occurrence>, variable: string, o: Occurrence)
    ensures o in Under(EnvEntries(seen), variable) <==> o in seen && IdToEnv(o.id) == variable
  {
    var entry := (o: Occurrence) => (IdToEnv(o.id), o);
    UnderHolds(EnvEntries(seen), variable, o);
    if (variable, o) in EnvEntries(seen) {
      var i :| 0 <= i < |EnvEntries(seen)| && EnvEntries(seen)[i] == (variable, o);
      assert seen[i] == o;
    }
    if o in seen && IdToEnv(o.id) == variable {
      var i :| 0 <= i < |seen| && seen[i] == o;
      assert EnvEntries(seen)[i] == (variable, o);
    }
  }

  lemma NoCollisionUnder(seen: seq<Occurrence>, variable: string)
    requires NoSharedSeen(seen)
    ensures !Collide(Under(EnvEntries(seen), variable))
  {
    var filed := Under(EnvEntries(seen), variable);
    forall i, j | 0 <= i < |filed| && 0 <= j < |filed|
      ensures filed[i].id == filed[j].id
    {
      FiledUnderVariable(seen, variable, filed[i]);
      FiledUnderVariable(seen, variable, filed[j]);
      assert filed[i] in filed && filed[j] in filed;
    }
  }

  lemma CollisionIsReported(seen: seq<Occurrence>, order: seq<string>, a: Occurrence, b: Occurrence)
    requires forall k :: k in Gather(EnvEntries(seen)) ==> k in order
    requires forall k :: 0 <= k < |order| ==> CollisionReporter(Gather(EnvEntries(seen)))(order[k]) == []
    requires a in seen && b in seen && IdToEnv(a.id) == IdToEnv(b.id)
    ensures a.id == b.id
  {
    var variable, entries := IdToEnv(a.id), EnvEntries(seen);
    var filed := Under(entries, variable);
    FiledUnderVariable(seen, variable, a);
    FiledUnderVariable(seen, variable, b);
    GatherIsUnder(entries, variable);
    var i :| 0 <= i < |filed| && filed[i] == a;
    var j :| 0 <= j < |filed| && filed[j] == b;
    assert variable in order;
    var k :| 0 <= k < |order| && order[k] == variable;
    assert CollisionReporter(Gather(entries))(order[k]) == [];
    assert !Collide(filed);
  }

  lemma CollisionsCleanIffSeparate(seen: seq<Occurrence>)
    ensures var index := Gather(EnvEntries(seen));
            FlatMap(CollisionReporter(index), InOrder(index.Keys)) == [] <==> NoSharedSeen(seen)
  {
    var index := Gather(EnvEntries(seen));
    var order := InOrder(index.Keys);
    InOrderHolds(index.Keys);
    FlatMapEmpty(CollisionReporter(index), order);
    if NoSharedSeen(seen) {
      forall k | 0 <= k < |order|
        ensures CollisionReporter(index)(order[k]) == []
      {
        GatherIsUnder(EnvEntries(seen), order[k]);
        NoCollisionUnder(seen, order[k]);
      }
    }
    if FlatMap(CollisionReporter(index), order) == [] {
      forall a, b | a in seen && b in seen && IdToEnv(a.id) == IdToEnv(b.id)
        ensures a.id == b.id
      {
        CollisionIsReported(seen, order, a, b);
      }
    }
  }

  lemma SeenSeparateIffRefsSeparate(env: Env, source: string, raw: RawConfig)
    requires forall i :: 0 <= i < |raw.flows| ==> ValidFlow(env, raw.flows[i])
    ensures NoSharedSeen(AllSeen(env, source, raw)) <==> NoSharedVariable(AllRefs(raw))
  {
    var seen, refs := AllSeen(env, source, raw), AllRefs(raw);
    if NoSharedSeen(seen) {
      forall a, b | a in refs && b in refs && IdToEnv(a.value) == IdToEnv(b.value)
        ensures a.value == b.value
      {
        MetIffReferenced(env, source, raw, a.value, LineOf(source, a.start));
        MetIffReferenced(env, source, raw, b.value, LineOf(source, b.start));
        var x :| x in seen && x.id == a.value && x.line == LineOf(source, a.start);
        var y :| y in seen && y.id == b.value && y.line == LineOf(source, b.start);
      }
    }
    if NoSharedVariable(refs) {
      forall x, y | x in seen && y in seen && IdToEnv(x.id) == IdToEnv(y.id)
        ensures x.id == y.id
      {
        MetIffReferenced(env, source, raw, x.id, x.line);
        MetIffReferenced(env, source, raw, y.id, y.line);
        var a :| a in refs && a.value == x.id && LineOf(source, a.start) == x.line;
        var b :| b in refs && b.value == y.id && LineOf(source, b.start) == y.line;
      }
    }
  }

  lemma CrossChecksClean(env: Env, source: string, raw: RawConfig)
    requires PartsValid(env, raw)
    ensures DuplicateErrors(source, raw) == [] <==> NamesUnique(raw.flows)
    ensures CollisionErrors(env, source, raw) == [] <==> NoSharedVariable(AllRefs(raw))
  {
    assert forall i :: 0 <= i < |raw.flows| ==> ValidFlow(env, raw.flows[i]);
    DuplicatesCleanIffUnique(source, raw);
    CollisionsCleanIffSeparate(AllSeen(env, source, raw));
    SeenSeparateIffRefsSeparate(env, source, raw);
  }

  lemma EmptyThree<T>(a: seq<T>, b: seq<T>, c: seq<T>)
    ensures a + b + c == [] <==> a == [] && b == [] && c == []
  {
  }

  /** Soundness and completeness: nothing is reported exactly for a valid configuration. */
  lemma CleanIffValid(env: Env, source: string, raw: RawConfig)
    ensures Reports(env, source, raw) == [] <==> ValidConfig(env, raw)
  {
    OwnCleanIffPartsValid(env, source, raw);
    EmptyThree(OwnErrors(env, source, raw), DuplicateErrors(source, raw), CollisionErrors(env, source, raw));
    if PartsValid(env, raw) {
      CrossChecksClean(env, source, raw);
    }
  }

  // ---------------------------------------------------------------------
  // The accepted configuration
  // ---------------------------------------------------------------------

  function Typed(env: Env, source: string, raw: RawConfig): Config {
    Config(TypedDefaults(env, raw.poll), raw.logFilter, TypedTimeout(env, raw.requestTimeout),
           TypedFlows(env, raw.flows), SortedLines(Gather(LineEntries(AllSeen(env, source, raw)))))
  }

  lemma TypedAsWritten(env: Env, source: string, raw: RawConfig)
    requires PartsValid(env, raw)
    ensures AsWritten(env, raw, Typed(env, source, raw))
  {
    forall i | 0 <= i < |raw.flows|
      ensures FlowAsWritten(env, raw.flows[i], TypedFlow(env, raw.flows[i]))
    {
      FlowTyped(env, raw.flows[i]);
    }
  }

  /** The lines kept for one id. */
  lemma LinesKept(env: Env, source: string, raw: RawConfig, id: string)
    requires PartsValid(env, raw)
    ensures var lines := Typed(env, source, raw).credentialLines;
            && (id in lines <==> exists r :: r in AllRefs(raw) && r.value == id)
            && (id in lines ==> lines[id] != [] && Increasing(lines[id]))
            && (forall line: nat :: id in lines ==>
                  (line in lines[id] <==> exists r :: r in AllRefs(raw) && r.value == id && LineOf(source, r.start) == line))
  {
    var entries := LineEntries(AllSeen(env, source, raw));
    var under := Under(entries, id);
    GatherIsUnder(entries, id);
    SortDedupIs(under);
    forall line: nat
      ensures line in under <==> exists r :: r in AllRefs(raw) && r.value == id && LineOf(source, r.start) == line
    {
      MetIffReferenced(env, source, raw, id, line);
    }
    if under != [] {
      assert under[0] in under && under[0] in SortDedup(under);
    }
    if exists r :: r in AllRefs(raw) && r.value == id {
      var r :| r in AllRefs(raw) && r.value == id;
      assert LineOf(source, r.start) in under;
    }
  }

  lemma TypedKeepsLines(env: Env, source: string, raw: RawConfig)
    requires PartsValid(env, raw)
    ensures LinesAreReferences(source, raw, Typed(env, source, raw))
  {
    forall id, line: nat | id in Typed(env, source, raw).credentialLines
      ensures line in Typed(env, source, raw).credentialLines[id]
              <==> exists r :: r in AllRefs(raw) && r.value == id && LineOf(source, r.start) == line
    {
      LinesKept(env, source, raw, id);
    }
  }

  lemma WalkSeparate(env: Env, raw: RawConfig, c: Config)
    requires AsWritten(env, raw, c) && NoSharedVariable(AllRefs(raw))
    ensures VariablesDistinct(WalkCredentials(c))
  {
    forall a, b | a in WalkCredentials(c) && b in WalkCredentials(c) && IdToEnv(a.id) == IdToEnv(b.id)
      ensures a.id == b.id
    {
      WalkedIffReferenced(env, raw, c, a.id);
      WalkedIffReferenced(env, raw, c, b.id);
    }
  }

  lemma WalkKeepsLines(env: Env, source: string, raw: RawConfig)
    requires PartsValid(env, raw)
    ensures LinesComplete(Typed(env, source, raw).credentialLines, WalkCredentials(Typed(env, source, raw)))
  {
    TypedAsWritten(env, source, raw);
    var c := Typed(env, source, raw);
    forall id
      ensures id in c.credentialLines <==> exists r :: r in WalkCredentials(c) && r.id == id
      ensures id in c.credentialLines ==> c.credentialLines[id] != [] && Increasing(c.credentialLines[id])
    {
      LinesKept(env, source, raw, id);
      WalkedIffReferenced(env, raw, c, id);
    }
  }

  lemma NamesKept(env: Env, raw: RawConfig, c: Config)
    requires AsWritten(env, raw, c) && NamesUnique(raw.flows)
    ensures NamesDistinct(c)
  {
    assert forall i :: 0 <= i < |c.flows| ==> FlowAsWritten(env, raw.flows[i], c.flows[i]);
  }

  /** A valid configuration is unambiguous. */
  lemma ValidIsUnambiguous(env: Env, source: string, raw: RawConfig)
    requires ValidConfig(env, raw)
    ensures Unambiguous(Typed(env, source, raw))
  {
    TypedAsWritten(env, source, raw);
    NamesKept(env, raw, Typed(env, source, raw));
    WalkSeparate(env, raw, Typed(env, source, raw));
    WalkKeepsLines(env, source, raw);
  }

  // ---------------------------------------------------------------------
  // The entry point
  // ---------------------------------------------------------------------

  datatype Outcome = Valid(config: Config) | Invalid(reports: seq<Violation>)

  method CollectGlobal(v: Validator, c: Ctx, raw: RawConfig) returns (poll: PollDefaults, timeout: Duration)
    requires v.errors == [] && c == GlobalCtx(c.env, c.source)
    modifies v`errors
    ensures v.errors == GlobalErrors(c.env, c.source, raw)
    ensures poll == TypedDefaults(c.env, raw.poll) && timeout == TypedTimeout(c.env, raw.requestTimeout)
  {
    poll := v.ValidatePollDefaults(c, raw.poll);
    timeout := v.ValidateHttp(c, raw.requestTimeout);
    if raw.flows == [] {
      v.errors := v.errors + [Report([], None, FlowField, NoFlows)];
    }
  }

  /** The whole pass: global parts, flows in order, then the cross-flow checks. */
  method Collect(v: Validator, env: Env, source: string, raw: RawConfig)
    returns (config: Config)
    requires v.errors == [] && v.nameIndex == map[] && v.seen == [] && v.Indexed()
    modifies v
    ensures v.errors == Reports(env, source, raw)
    ensures config == Typed(env, source, raw)
  {
    var poll, timeout := CollectGlobal(v, GlobalCtx(env, source), raw);
    var flows := v.VisitFlows(env, source, raw.flows);
    assert v.seen == AllSeen(env, source, raw);
    v.ReportDuplicateNames();
    v.ReportCollisions();
    v.SortCredentialLines();
    config := Config(poll, raw.logFilter, timeout, flows, v.credentialLines);
  }

  /**
   * Accepts exactly the valid configurations. The accepted one has every field as written and is
   * unambiguous; a refused one is returned with every report.
   */
  method Validate(env: Env, source: string, raw: RawConfig) returns (r: Outcome)
    ensures r.Valid? <==> ValidConfig(env, raw)
    ensures r.Valid? ==> AsWritten(env, raw, r.config) && Unambiguous(r.config) && LinesAreReferences(source, raw, r.config)
    ensures r.Invalid? ==> r.reports == Reports(env, source, raw)
  {
    var v := new Validator();
    var config := Collect(v, env, source, raw);
    CleanIffValid(env, source, raw);
    if v.errors == [] {
      TypedAsWritten(env, source, raw);
      TypedKeepsLines(env, source, raw);
      ValidIsUnambiguous(env, source, raw);
      r := Valid(config);
    } else {
      r := Invalid(v.errors);
    }
  }
}
