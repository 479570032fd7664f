// Validation end to end: which configurations are accepted, what the accepted one says, and why
// it is unambiguous (src/config/validate/mod.rs, src/config/mod.rs).

module ConfigSpec {
  import opened Prelude
  import opened ConfigModel
  import opened CredentialId
  import opened ConfigRules
  import opened ConfigValidator
  import opened Index

  // ---------------------------------------------------------------------
  // The valid configurations
  // ---------------------------------------------------------------------

  function GivenRef(id: Option<Spanned<string>>): seq<Spanned<string>> {
    if id.Some? then [id.value] else []
  }

  function DestinationRef(d: RawDestination): seq<Spanned<string>> {
    if d.kind.value == "discord_webhook" then GivenRef(d.credentialId) else []
  }

  /** Where a flow names a credential: source, action, webhooks. */
  function RawRefs(raw: RawFlow): seq<Spanned<string>> {
    GivenRef(raw.source.credentialId) + GivenRef(raw.action.credentialId) + FlatMap(DestinationRef, raw.destinations)
  }

  function AllRefs(raw: RawConfig): seq<Spanned<string>> {
    FlatMap(RawRefs, raw.flows)
  }

  ghost predicate PartsValid(env: Env, raw: RawConfig) {
    && ValidPoll(env, raw.poll)
    && ValidDuration(env, raw.requestTimeout, 1, 300, false)
    && raw.flows != []
    && forall i :: 0 <= i < |raw.flows| ==> ValidFlow(env, raw.flows[i])
  }

  predicate NamesUnique(flows: seq<RawFlow>) {
    forall i, j :: 0 <= i < j < |flows| ==> flows[i].name.value != flows[j].name.value
  }

  predicate NoSharedVariable(refs: seq<Spanned<string>>) {
    forall a, b :: a in refs && b in refs && IdToEnv(a.value) == IdToEnv(b.value) ==> a.value == b.value
  }

  /** The whole-configuration rules. */
  ghost predicate ValidConfig(env: Env, raw: RawConfig) {
    PartsValid(env, raw) && NamesUnique(raw.flows) && NoSharedVariable(AllRefs(raw))
  }

  // ---------------------------------------------------------------------
  // What the typed configuration must say
  // ---------------------------------------------------------------------

  function Text(value: Option<Spanned<string>>): Option<string> {
    if value.Some? then Some(value.value.value) else None
  }

  function Length(env: Env, value: Option<Spanned<string>>): Option<Duration> {
    if value.Some? then env.duration(value.value.value) else None
  }

  function Number(value: Option<Spanned<Float>>): Option<Float> {
    if value.Some? then Some(value.value.value) else None
  }

  predicate FiresAsWritten(fireOn: Option<seq<Spanned<FireEvent>>>, typed: seq<FireEvent>) {
    typed == if fireOn.Some? then Events(fireOn.value) else [RunComplete]
  }

  predicate DestinationAsWritten(d: RawDestination, typed: Destination) {
    match typed
    case DiscordWebhook(id, fireOn, t) =>
      && d.kind.value == "discord_webhook" && Some(id) == Text(d.credentialId) && FiresAsWritten(d.fireOn, fireOn)
      && t == DiscordTemplate(Text(d.template.title), Text(d.template.description), Text(d.template.fieldName),
                              Text(d.template.fieldValue), Text(d.template.collapsedSummary))
    case LocalMail(user, fireOn, t) =>
      && d.kind.value == "local_mail" && Some(user) == Text(d.user) && FiresAsWritten(d.fireOn, fireOn)
      && t == MailTemplate(Text(d.template.subject), Text(d.template.body))
  }

  predicate ActionAsWritten(raw: RawAction, typed: ActionConfig) {
    && raw.kind.value == "github_workflow_dispatch"
    && Some(typed.repo) == Text(raw.repo)
    && Some(typed.workflow) == Text(raw.workflow)
    && Some(typed.refName) == Text(raw.refName)
    && Some(typed.credentialId) == Text(raw.credentialId)
    && typed.inputs == raw.inputs
  }

  predicate FlowAsWritten(env: Env, raw: RawFlow, typed: FlowConfig) {
    && typed.name == raw.name.value && typed.enabled == raw.enabled && typed.description == raw.description
    && typed.source == SourceConfig(raw.source.url.value, raw.source.refName.value, Text(raw.source.credentialId))
    && ActionAsWritten(raw.action, typed.action)
    && |typed.destinations| == |raw.destinations|
    && (forall i :: 0 <= i < |typed.destinations| ==> DestinationAsWritten(raw.destinations[i], typed.destinations[i]))
    && typed.poll == PollOverride(Length(env, raw.poll.sourceInterval), Length(env, raw.poll.jobInterval),
                                  Number(raw.poll.jitter), Length(env, raw.poll.cooldown))
  }

  /** Every field is the one written, or its documented default where none was. */
  predicate AsWritten(env: Env, raw: RawConfig, typed: Config) {
    && typed.logFilter == raw.logFilter
    && typed.requestTimeout == Length(env, raw.requestTimeout).GetOr(30_000_000_000)
    && typed.poll == PollDefaults(Length(env, raw.poll.sourceInterval), Length(env, raw.poll.jobInterval).GetOr(30_000_000_000),
                                  Number(raw.poll.jitter).GetOr(Finite(0.1)), Length(env, raw.poll.cooldown).GetOr(300_000_000_000))
    && |typed.flows| == |raw.flows|
    && forall i :: 0 <= i < |typed.flows| ==> FlowAsWritten(env, raw.flows[i], typed.flows[i])
  }

  predicate NamesDistinct(c: Config) {
    forall i, j :: 0 <= i < j < |c.flows| ==> c.flows[i].name != c.flows[j].name
  }

  /** Credentials that are walked share a variable only if they are the same. */
  predicate VariablesDistinct(refs: seq<CredentialRef>) {
    forall a, b :: a in refs && b in refs && IdToEnv(a.id) == IdToEnv(b.id) ==> a.id == b.id
  }

  /** The line table has exactly the ids that are walked, each with at least one line, in increasing order. */
  ghost predicate LinesComplete(lines: map<string, seq<nat>>, refs: seq<CredentialRef>) {
    && (forall id :: id in lines <==> exists r :: r in refs && r.id == id)
    && (forall id :: id in lines ==> lines[id] != [] && Increasing(lines[id]))
  }

  /** Names, credentials and their environment variables stand for one thing each. */
  ghost predicate Unambiguous(c: Config) {
    && NamesDistinct(c)
    && VariablesDistinct(WalkCredentials(c))
    && LinesComplete(c.credentialLines, WalkCredentials(c))
  }

  /** The lines kept for an id are exactly the lines that name it. */
  ghost predicate LinesAreReferences(source: string, raw: RawConfig, c: Config) {
    forall id, line: nat :: id in c.credentialLines ==>
      (line in c.credentialLines[id] <==> exists r :: r in AllRefs(raw) && r.value == id && LineOf(source, r.start) == line)
  }

  // ---------------------------------------------------------------------
  // A valid flow is typed as written
  // ---------------------------------------------------------------------

  lemma DestinationTyped(env: Env, d: RawDestination)
    requires ValidDestination(env, d)
    ensures |Typer(env)(d)| == 1 && DestinationAsWritten(d, Typer(env)(d)[0])
  {
    if d.fireOn.Some? {
      DedupedKeeps(d.fireOn.value);
    }
    if d.credentialId.Some? {
      AcceptedIsValid(d.credentialId.value.value);
    }
  }

  lemma DestinationsTyped(env: Env, ds: seq<RawDestination>)
    requires forall i :: 0 <= i < |ds| ==> ValidDestination(env, ds[i])
    ensures var typed := FlatMap(Typer(env), ds);
            |typed| == |ds| && forall i :: 0 <= i < |ds| ==> DestinationAsWritten(ds[i], typed[i])
  {
    forall i | 0 <= i < |ds|
      ensures |Typer(env)(ds[i])| == 1 && DestinationAsWritten(ds[i], Typer(env)(ds[i])[0])
    {
      DestinationTyped(env, ds[i]);
    }
    FlatMapSingletons(Typer(env), ds);
  }

  lemma FlowTyped(env: Env, raw: RawFlow)
    requires ValidFlow(env, raw)
    ensures FlowAsWritten(env, raw, TypedFlow(env, raw))
  {
    DestinationsTyped(env, raw.destinations);
    AcceptedIsValid(raw.action.credentialId.value.value);
    if raw.source.credentialId.Some? {
      AcceptedIsValid(raw.source.credentialId.value.value);
    }
  }

  // ---------------------------------------------------------------------
  // What was met is what is referenced
  // ---------------------------------------------------------------------

  function LineEntry(source: string): Spanned<string> -> (string, nat) {
    (s: Spanned<string>) => (s.value, LineOf(source, s.start))
  }

  function FlowEntries(source: string): RawFlow -> seq<(string, nat)> {
    (raw: RawFlow) => Map(LineEntry(source), RawRefs(raw))
  }

  function DestinationEntries(source: string): RawDestination -> seq<(string, nat)> {
    (d: RawDestination) => Map(LineEntry(source), DestinationRef(d))
  }

  function SeenEntry(): Occurrence -> (string, nat) {
    (o: Occurrence) => (o.id, o.line)
  }

  lemma SeenIsRef(c: Ctx, id: Option<Spanned<string>>)
    requires id.Some? ==> ValidId(id.value.value)
    ensures Map(SeenEntry(), CredentialSeen(c, id)) == Map(LineEntry(c.source), GivenRef(id))
  {
    if id.Some? {
      AcceptedIsValid(id.value.value);
    }
  }

  lemma DestinationsSeenAreRefs(c: Ctx, ds: seq<RawDestination>)
    requires forall i :: 0 <= i < |ds| ==> ValidDestination(c.env, ds[i])
    ensures Map(SeenEntry(), FlatMap(Observer(c), ds)) == Map(LineEntry(c.source), FlatMap(DestinationRef, ds))
  {
    var entries := DestinationEntries(c.source);
    forall i | 0 <= i < |ds|
      ensures entries(ds[i]) == Map(SeenEntry(), Observer(c)(ds[i]))
    {
      SeenIsRef(c, ds[i].credentialId);
    }
    FlatMapMap(entries, SeenEntry(), Observer(c), ds);
    FlatMapMap(entries, LineEntry(c.source), DestinationRef, ds);
  }

  lemma FlowSeenAreRefs(env: Env, source: string, raw: RawFlow)
    requires ValidFlow(env, raw)
    ensures Map(SeenEntry(), FlowSeen(env, source, raw)) == FlowEntries(source)(raw)
  {
    var c := FlowCtx(env, source, raw);
    var s, a, d := CredentialSeen(c, raw.source.credentialId), ActionSeen(c, raw.action), FlatMap(Observer(c), raw.destinations);
    SeenIsRef(c, raw.source.credentialId);
    SeenIsRef(c, raw.action.credentialId);
    DestinationsSeenAreRefs(c, raw.destinations);
    MapAppend(SeenEntry(), s + a, d);
    MapAppend(SeenEntry(), s, a);
    var x, y := GivenRef(raw.source.credentialId), GivenRef(raw.action.credentialId);
    MapAppend(LineEntry(source), x + y, FlatMap(DestinationRef, raw.destinations));
    MapAppend(LineEntry(source), x, y);
  }

  function AllSeen(env: Env, source: string, raw: RawConfig): seq<Occurrence> {
    FlatMap(FlowObserver(env, source), raw.flows)
  }

  lemma AllSeenAreRefs(env: Env, source: string, raw: RawConfig)
    requires forall i :: 0 <= i < |raw.flows| ==> ValidFlow(env, raw.flows[i])
    ensures LineEntries(AllSeen(env, source, raw)) == Map(LineEntry(source), AllRefs(raw))
  {
    forall i | 0 <= i < |raw.flows|
      ensures FlowEntries(source)(raw.flows[i]) == Map(SeenEntry(), FlowObserver(env, source)(raw.flows[i]))
    {
      FlowSeenAreRefs(env, source, raw.flows[i]);
    }
    FlatMapMap(FlowEntries(source), SeenEntry(), FlowObserver(env, source), raw.flows);
    FlatMapMap(FlowEntries(source), LineEntry(source), RawRefs, raw.flows);
    assert LineEntries(AllSeen(env, source, raw)) == Map(SeenEntry(), AllSeen(env, source, raw));
  }

  /** An id and line were met exactly when some reference says so. */
  lemma MetIffReferenced(env: Env, source: string, raw: RawConfig, id: string, line: nat)
    requires forall i :: 0 <= i < |raw.flows| ==> ValidFlow(env, raw.flows[i])
    ensures (exists o :: o in AllSeen(env, source, raw) && o.id == id && o.line == line)
            <==> exists r :: r in AllRefs(raw) && r.value == id && LineOf(source, r.start) == line
    ensures (exists r :: r in AllRefs(raw) && r.value == id && LineOf(source, r.start) == line)
            <==> line in Under(LineEntries(AllSeen(env, source, raw)), id)
  {
    var seen, refs := AllSeen(env, source, raw), AllRefs(raw);
    AllSeenAreRefs(env, source, raw);
    MapHolds(LineEntry(source), refs, (id, line));
    MapHolds(SeenEntry(), seen, (id, line));
    assert LineEntries(seen) == Map(SeenEntry(), seen);
    UnderHolds(LineEntries(seen), id, line);
    EntryIffRef(source, refs, id, line);
    EntryIffSeen(seen, id, line);
  }

  lemma EntryIffRef(source: string, refs: seq<Spanned<string>>, id: string, line: nat)
    ensures (exists i :: 0 <= i < |refs| && LineEntry(source)(refs[i]) == (id, line))
            <==> exists r :: r in refs && r.value == id && LineOf(source, r.start) == line
  {
    if exists i :: 0 <= i < |refs| && LineEntry(source)(refs[i]) == (id, line) {
      var i :| 0 <= i < |refs| && LineEntry(source)(refs[i]) == (id, line);
      assert refs[i] in refs;
    }
    if exists r :: r in refs && r.value == id && LineOf(source, r.start) == line {
      var r :| r in refs && r.value == id && LineOf(source, r.start) == line;
      var i :| 0 <= i < |refs| && refs[i] == r;
      assert LineEntry(source)(refs[i]) == (id, line);
    }
  }

  lemma EntryIffSeen(seen: seq<Occurrence>, id: string, line: nat)
    ensures (exists i :: 0 <= i < |seen| && SeenEntry()(seen[i]) == (id, line))
            <==> exists o :: o in seen && o.id == id && o.line == line
  {
    if exists i :: 0 <= i < |seen| && SeenEntry()(seen[i]) == (id, line) {
      var i :| 0 <= i < |seen| && SeenEntry()(seen[i]) == (id, line);
      assert seen[i] in seen;
    }
    if exists o :: o in seen && o.id == id && o.line == line {
      var o :| o in seen && o.id == id && o.line == line;
      var i :| 0 <= i < |seen| && seen[i] == o;
      assert SeenEntry()(seen[i]) == (id, line);
    }
  }

  // ---------------------------------------------------------------------
  // The typed configuration refers to the same credentials
  // ---------------------------------------------------------------------

  function IdOf(): CredentialRef -> string {
    (r: CredentialRef) => r.id
  }

  function ValueOf(): Spanned<string> -> string {
    (s: Spanned<string>) => s.value
  }

  lemma {:induction false} DestinationRefsAre(flow: string, ds: seq<RawDestination>, typed: seq<Destination>)
    requires |typed| == |ds| && forall i :: 0 <= i < |ds| ==> DestinationAsWritten(ds[i], typed[i])
    ensures Map(IdOf(), FlatMap(DestinationRefs(flow), typed)) == Map(ValueOf(), FlatMap(DestinationRef, ds))
  {
    if ds != [] {
      var n := |ds| - 1;
      DestinationRefsAre(flow, ds[..n], typed[..n]);
      MapAppend(IdOf(), FlatMap(DestinationRefs(flow), typed[..n]), DestinationRefs(flow)(typed[n]));
      MapAppend(ValueOf(), FlatMap(DestinationRef, ds[..n]), DestinationRef(ds[n]));
      assert Map(IdOf(), DestinationRefs(flow)(typed[n])) == Map(ValueOf(), DestinationRef(ds[n]));
    }
  }

  lemma FlowRefsAre(env: Env, raw: RawFlow, typed: FlowConfig)
    requires FlowAsWritten(env, raw, typed)
    ensures Map(IdOf(), FlowRefs(typed)) == Map(ValueOf(), RawRefs(raw))
  {
    var d := FlatMap(DestinationRefs(typed.name), typed.destinations);
    var x, y := GivenRef(raw.source.credentialId), GivenRef(raw.action.credentialId);
    var head := FlowRefs(typed)[..|FlowRefs(typed)| - |d|];
    assert FlowRefs(typed) == head + d;
    DestinationRefsAre(typed.name, raw.destinations, typed.destinations);
    MapAppend(IdOf(), head, d);
    MapAppend(ValueOf(), x + y, FlatMap(DestinationRef, raw.destinations));
    assert Map(IdOf(), head) == Map(ValueOf(), x + y);
  }

  lemma {:induction false} WalkIsRefs(env: Env, raws: seq<RawFlow>, typed: seq<FlowConfig>)
    requires |typed| == |raws| && forall i :: 0 <= i < |raws| ==> FlowAsWritten(env, raws[i], typed[i])
    ensures Map(IdOf(), FlatMap(FlowRefs, typed)) == Map(ValueOf(), FlatMap(RawRefs, raws))
  {
    if raws != [] {
      var n := |raws| - 1;
      WalkIsRefs(env, raws[..n], typed[..n]);
      FlowRefsAre(env, raws[n], typed[n]);
      MapAppend(IdOf(), FlatMap(FlowRefs, typed[..n]), FlowRefs(typed[n]));
      MapAppend(ValueOf(), FlatMap(RawRefs, raws[..n]), RawRefs(raws[n]));
    }
  }

  /** An id is walked exactly when it is referenced. */
  lemma WalkedIffReferenced(env: Env, raw: RawConfig, c: Config, id: string)
    requires AsWritten(env, raw, c)
    ensures (exists r :: r in WalkCredentials(c) && r.id == id) <==> exists s :: s in AllRefs(raw) && s.value == id
  {
    WalkIsRefs(env, raw.flows, c.flows);
    var walk, refs := WalkCredentials(c), AllRefs(raw);
    assert Map(IdOf(), walk) == Map(ValueOf(), refs);
    if exists r :: r in walk && r.id == id {
      var i :| 0 <= i < |walk| && walk[i].id == id;
      assert Map(IdOf(), walk)[i] == id == Map(ValueOf(), refs)[i];
      assert refs[i] in refs && refs[i].value == id;
    }
    if exists s :: s in refs && s.value == id {
      var i :| 0 <= i < |refs| && refs[i].value == id;
      assert Map(ValueOf(), refs)[i] == id == Map(IdOf(), walk)[i];
      assert walk[i] in walk && walk[i].id == id;
    }
  }
}
