// The configuration as parsed, with source positions, and as the daemon uses it
// (src/config/parse.rs, src/config/mod.rs). A char stands for one byte.

module ConfigModel {
  import opened Prelude

  /** Nanoseconds. */
  type Duration = nat

  /** A float as far as range checks can tell. */
  datatype Float = NotANumber | Infinite(negative: bool) | Finite(value: real)

  datatype Spanned<+T> = Spanned(value: T, start: nat)

  datatype FireEvent = RunStart | JobComplete | RunComplete

  // ---------------------------------------------------------------------
  // As parsed
  // ---------------------------------------------------------------------

  /** The poll table, global or of one flow. */
  datatype RawPoll = RawPoll(
    sourceInterval: Option<Spanned<string>>,
    jobInterval: Option<Spanned<string>>,
    jitter: Option<Spanned<Float>>,
    cooldown: Option<Spanned<string>>)

  /** The templates of both kinds of destination. */
  datatype RawTemplate = RawTemplate(
    title: Option<Spanned<string>>,
    description: Option<Spanned<string>>,
    fieldName: Option<Spanned<string>>,
    fieldValue: Option<Spanned<string>>,
    collapsedSummary: Option<Spanned<string>>,
    subject: Option<Spanned<string>>,
    body: Option<Spanned<string>>)

  datatype RawDestination = RawDestination(
    kind: Spanned<string>,
    credentialId: Option<Spanned<string>>,
    user: Option<Spanned<string>>,
    fireOn: Option<seq<Spanned<FireEvent>>>,
    template: RawTemplate)

  datatype RawSource = RawSource(url: Spanned<string>, refName: Spanned<string>, credentialId: Option<Spanned<string>>)

  datatype RawAction = RawAction(
    kind: Spanned<string>,
    repo: Option<Spanned<string>>,
    workflow: Option<Spanned<string>>,
    refName: Option<Spanned<string>>,
    credentialId: Option<Spanned<string>>,
    inputs: map<string, string>)

  datatype RawFlow = RawFlow(
    name: Spanned<string>,
    enabled: bool,
    description: Option<string>,
    source: RawSource,
    action: RawAction,
    destinations: seq<RawDestination>,
    poll: RawPoll)

  datatype RawConfig = RawConfig(
    poll: RawPoll,
    logFilter: Option<string>,
    requestTimeout: Option<Spanned<string>>,
    flows: seq<RawFlow>)

  // ---------------------------------------------------------------------
  // As used
  // ---------------------------------------------------------------------

  datatype PollDefaults = PollDefaults(
    sourceInterval: Option<Duration>,
    jobInterval: Duration,
    jitter: Float,
    cooldown: Duration)

  datatype PollOverride = PollOverride(
    sourceInterval: Option<Duration>,
    jobInterval: Option<Duration>,
    jitter: Option<Float>,
    cooldown: Option<Duration>)

  datatype SourceConfig = SourceConfig(url: string, refName: string, credentialId: Option<string>)

  datatype ActionConfig = GithubWorkflowDispatch(
    repo: string,
    workflow: string,
    refName: string,
    credentialId: string,
    inputs: map<string, string>)

  datatype DiscordTemplate = DiscordTemplate(
    title: Option<string>,
    description: Option<string>,
    fieldName: Option<string>,
    fieldValue: Option<string>,
    collapsedSummary: Option<string>)

  datatype MailTemplate = MailTemplate(subject: Option<string>, body: Option<string>)

  datatype Destination =
    | DiscordWebhook(credentialId: string, fireOn: seq<FireEvent>, discord: DiscordTemplate)
    | LocalMail(user: string, fireOn: seq<FireEvent>, mail: MailTemplate)

  datatype FlowConfig = FlowConfig(
    name: string,
    enabled: bool,
    description: Option<string>,
    source: SourceConfig,
    action: ActionConfig,
    destinations: seq<Destination>,
    poll: PollOverride)

  datatype Config = Config(
    poll: PollDefaults,
    logFilter: Option<string>,
    requestTimeout: Duration,
    flows: seq<FlowConfig>,
    credentialLines: map<string, seq<nat>>)

  // ---------------------------------------------------------------------
  // Every reference to a credential
  // ---------------------------------------------------------------------

  datatype KindHint = SourceFetch | GithubPat(repo: string) | Webhook

  datatype CredentialRef = CredentialRef(id: string, flow: string, hint: KindHint)

  function DestinationRefs(flow: string): Destination -> seq<CredentialRef> {
    (d: Destination) => if d.DiscordWebhook? then [CredentialRef(d.credentialId, flow, Webhook)] else []
  }

  function FlowRefs(f: FlowConfig): seq<CredentialRef> {
    (if f.source.credentialId.Some? then [CredentialRef(f.source.credentialId.value, f.name, SourceFetch)] else [])
    + [CredentialRef(f.action.credentialId, f.name, GithubPat(f.action.repo))]
    + FlatMap(DestinationRefs(f.name), f.destinations)
  }

  /** Flow by flow; within a flow the source, the action, then the destinations. */
  function WalkCredentials(c: Config): seq<CredentialRef> {
    FlatMap(FlowRefs, c.flows)
  }

  /** The references of one flow, pushed one by one. */
  method CollectRefs(f: FlowConfig) returns (refs: seq<CredentialRef>)
    ensures refs == FlowRefs(f)
  {
    refs := [];
    if f.source.credentialId.Some? {
      refs := refs + [CredentialRef(f.source.credentialId.value, f.name, SourceFetch)];
    }
    refs := refs + [CredentialRef(f.action.credentialId, f.name, GithubPat(f.action.repo))];
    ghost var before := refs;
    for i := 0 to |f.destinations|
      invariant refs == before + FlatMap(DestinationRefs(f.name), f.destinations[..i])
    {
      FlatMapSnoc(DestinationRefs(f.name), f.destinations, i);
      match f.destinations[i] {
        case DiscordWebhook(id, _, _) => refs := refs + [CredentialRef(id, f.name, Webhook)];
        case LocalMail(_, _, _) =>
      }
    }
    assert f.destinations[..|f.destinations|] == f.destinations;
  }

  /** The flow names the id there: as its source credential, as its action's for that repository, or as a webhook. */
  predicate Names(f: FlowConfig, id: string, hint: KindHint) {
    match hint
    case SourceFetch => f.source.credentialId == Some(id)
    case GithubPat(repo) => f.action.credentialId == id && f.action.repo == repo
    case Webhook => exists i :: 0 <= i < |f.destinations| && f.destinations[i].DiscordWebhook? && f.destinations[i].credentialId == id
  }

  function Rank(hint: KindHint): nat {
    match hint
    case SourceFetch => 0
    case GithubPat(_) => 1
    case Webhook => 2
  }

  lemma DestinationRefsRank(f: FlowConfig, r: CredentialRef)
    requires r in FlatMap(DestinationRefs(f.name), f.destinations)
    ensures r.hint == Webhook
  {
    FlatMapHolds(DestinationRefs(f.name), f.destinations, r);
  }

  /** Within a flow the source comes first, then the action, then the webhooks. */
  lemma RefsRanked(f: FlowConfig, i: nat, j: nat)
    requires i < j < |FlowRefs(f)|
    ensures Rank(FlowRefs(f)[i].hint) <= Rank(FlowRefs(f)[j].hint)
  {
    var refs, tail := FlowRefs(f), FlatMap(DestinationRefs(f.name), f.destinations);
    var head := |refs| - |tail|;
    if j >= head {
      assert refs[j] == tail[j - head] && tail[j - head] in tail;
      DestinationRefsRank(f, refs[j]);
    }
  }

  lemma FlowRefsAre(f: FlowConfig, r: CredentialRef)
    ensures r in FlowRefs(f) <==> r.flow == f.name && Names(f, r.id, r.hint)
  {
    var refs := DestinationRefs(f.name);
    FlatMapHolds(refs, f.destinations, r);
    forall i | 0 <= i < |f.destinations|
      ensures r in refs(f.destinations[i])
              <==> r.flow == f.name && r.hint == Webhook && f.destinations[i].DiscordWebhook? && f.destinations[i].credentialId == r.id
    {
    }
  }

  /** The walk meets exactly the credentials that some flow names, each with its flow and its use. */
  lemma WalkedIffNamed(c: Config, r: CredentialRef)
    ensures r in WalkCredentials(c) <==> exists i :: 0 <= i < |c.flows| && r.flow == c.flows[i].name && Names(c.flows[i], r.id, r.hint)
  {
    FlatMapHolds(FlowRefs, c.flows, r);
    forall i | 0 <= i < |c.flows|
      ensures r in FlowRefs(c.flows[i]) <==> r.flow == c.flows[i].name && Names(c.flows[i], r.id, r.hint)
    {
      FlowRefsAre(c.flows[i], r);
    }
  }

  // ---------------------------------------------------------------------
  // Lines
  // ---------------------------------------------------------------------

  function Newlines(text: string): nat {
    if text == "" then 0
    else Newlines(text[..|text| - 1]) + if text[|text| - 1] == '\n' then 1 else 0
  }

  /** The 1-based line of a byte offset; offsets past the end belong to the last line. */
  function LineOf(source: string, offset: nat): nat {
    1 + Newlines(source[..Min(offset, |source|)])
  }

  /** The positions of newline characters. */
  function NewlinesAt(text: string): set<nat> {
    set i: nat | i < |text| && text[i] == '\n'
  }

  lemma {:induction false} NewlinesAre(text: string)
    ensures Newlines(text) == |NewlinesAt(text)|
  {
    if text == "" {
      assert NewlinesAt(text) == {};
    } else {
      var n := |text| - 1;
      NewlinesAre(text[..n]);
      var before := NewlinesAt(text[..n]);
      assert NewlinesAt(text) == if text[n] == '\n' then before + {n} else before;
    }
  }

  /** A line number counts the newline characters in front, and starts at one. */
  lemma LineCounts(source: string, offset: nat)
    ensures LineOf(source, offset) == 1 + |set i | i in NewlinesAt(source) && i < offset|
  {
    var front := source[..Min(offset, |source|)];
    NewlinesAre(front);
    assert NewlinesAt(front) == set i | i in NewlinesAt(source) && i < offset;
  }

  method ByteOffsetToLine(source: string, offset: nat) returns (line: nat)
    ensures line == LineOf(source, offset)
  {
    var limit := Min(offset, |source|);
    line := 1;
    for i := 0 to limit
      invariant line == 1 + Newlines(source[..i])
    {
      assert source[..i + 1][..i] == source[..i];
      if source[i] == '\n' {
        line := line + 1;
      }
    }
  }

  /** Later offsets are never on earlier lines, and no line lies past the last. */
  lemma {:induction false} LineMonotone(source: string, a: nat, b: nat)
    requires a <= b
    ensures 1 <= LineOf(source, a) <= LineOf(source, b) <= 1 + Newlines(source)
    decreases b
  {
    if b > |source| {
      assert source[..|source|] == source;
      LineMonotone(source, Min(a, |source|), |source|);
    } else {
      NewlinesGrow(source, b);
      if a < b {
        LineMonotone(source, a, b - 1);
        assert source[..b][..b - 1] == source[..b - 1];
      }
    }
  }

  lemma {:induction false} NewlinesGrow(source: string, n: nat)
    requires n <= |source|
    ensures Newlines(source[..n]) <= Newlines(source)
    decreases |source|
  {
    if n < |source| {
      assert source[..|source| - 1][..n] == source[..n];
      NewlinesGrow(source[..|source| - 1], n);
    } else {
      assert source[..n] == source;
    }
  }
}
