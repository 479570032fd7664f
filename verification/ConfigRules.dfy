// What each part of a configuration is reported for and turned into (src/config/validate), and,
// independently, which configurations are valid and what their typed form must say.

module ConfigRules {
  import opened Prelude
  import opened ConfigModel
  import opened CredentialId

  const SECOND: nat := 1_000_000_000
  const MIN_INTERVAL: nat := 15 * SECOND
  const MAX_INTERVAL: nat := 24 * 60 * 60 * SECOND
  const MIN_HTTP_TIMEOUT: nat := SECOND
  const MAX_HTTP_TIMEOUT: nat := 300 * SECOND
  const MAX_FLOW_NAME_LEN: nat := 64
  const MAX_LOCAL_MAIL_USER_LEN: nat := 32
  const DISPATCH_KIND := "github_workflow_dispatch"
  const DISCORD_KIND := "discord_webhook"
  const MAIL_KIND := "local_mail"
  const GCIT_RUN_ID_INPUT := "gcit_run_id"
  const PLACEHOLDER := "placeholder"
  const DEFAULT_POLL := PollDefaults(None, 30 * SECOND, Finite(0.1), 300 * SECOND)
  const DEFAULT_TIMEOUT: nat := 30 * SECOND

  // ---------------------------------------------------------------------
  // The libraries the validator calls
  // ---------------------------------------------------------------------

  datatype TemplateCheck = Accepted | CompileFails | BareName | RenderFails

  /** URL parsing down to the scheme, duration parsing, and the template engine's verdict. */
  datatype Env = Env(
    scheme: string -> Option<string>,
    duration: string -> Option<Duration>,
    template: string -> TemplateCheck)

  // ---------------------------------------------------------------------
  // Reports
  // ---------------------------------------------------------------------

  datatype TemplateName = Title | Description | FieldName | FieldValue | CollapsedSummary | Subject | Body

  datatype Field =
    | FlowField | FlowNameField
    | SourceUrl | SourceRef | SourceCredential
    | ActionKind | ActionRepo | ActionWorkflow | ActionRef | ActionCredential | ActionInputs
    | DestinationKind | DestinationUser | DestinationCredential
    | DiscordCredential | DiscordFireOn | MailUser | MailFireOn | TemplateField(name: TemplateName)
    | SourceInterval | JobInterval | Jitter | Cooldown | RequestTimeout
    | CredentialIds

  datatype Rule =
    | EmptyText | TooLongText | BadChar
    | BadUrl | BadScheme | NoRefsPrefix | Missing | BadRepo | EmptyWorkflow | PathInWorkflow | InjectedInput
    | UnknownKind | WrongKind | RepeatedEvent | BadId(error: IdError)
    | BadDuration | OutOfRange | Template(check: TemplateCheck)
    | NoFlows | DuplicateName | SameVariable(env: string, ids: seq<string>)

  datatype Violation = Violation(lines: seq<nat>, flow: Option<string>, field: Field, rule: Rule)

  /** A report without lines points at line 1. */
  function Report(lines: seq<nat>, flow: Option<string>, field: Field, rule: Rule): Violation {
    Violation(if lines == [] then [1] else lines, flow, field, rule)
  }

  /** Where a part stands: the source text and the flow it belongs to, if any. */
  datatype Ctx = Ctx(env: Env, source: string, flow: Option<string>)

  function Line<T>(c: Ctx, s: Spanned<T>): nat {
    LineOf(c.source, s.start)
  }

  function At<T>(c: Ctx, s: Spanned<T>, field: Field, rule: Rule): Violation {
    Report([Line(c, s)], c.flow, field, rule)
  }

  function When(bad: bool, v: Violation): seq<Violation> {
    if bad then [v] else []
  }

  // ---------------------------------------------------------------------
  // Names, users, credentials
  // ---------------------------------------------------------------------

  function TokenRule(s: string, max: nat): Option<Rule> {
    if s == "" then Some(EmptyText)
    else if |s| > max then Some(TooLongText)
    else if FirstBad(s).Some? then Some(BadChar)
    else None
  }

  predicate ValidToken(s: string, max: nat) {
    0 < |s| <= max && forall i :: 0 <= i < |s| ==> IsToken(s[i] as int)
  }

  lemma TokenRuleIff(s: string, max: nat)
    ensures TokenRule(s, max).None? <==> ValidToken(s, max)
  {
    assert forall i :: 0 <= i < |s| ==> (TokenChar(s[i]) <==> IsToken(s[i] as int));
  }

  /** The empty name is reported without a flow. */
  function NameErrors(env: Env, source: string, name: Spanned<string>): seq<Violation> {
    match TokenRule(name.value, MAX_FLOW_NAME_LEN)
    case None => []
    case Some(rule) =>
      [At(Ctx(env, source, if rule.EmptyText? then None else Some(name.value)), name, FlowNameField, rule)]
  }

  /** A valid id seen at a line, while validating a flow. */
  datatype Occurrence = Occurrence(id: string, line: nat, flow: string)

  predicate Usable(id: Option<Spanned<string>>) {
    id.Some? && ValidateIdStr(id.value.value).None?
  }

  function CredentialErrors(c: Ctx, id: Option<Spanned<string>>, field: Field): seq<Violation> {
    if id.None? || Usable(id) then [] else [At(c, id.value, field, BadId(ValidateIdStr(id.value.value).value))]
  }

  function CredentialSeen(c: Ctx, id: Option<Spanned<string>>): seq<Occurrence> {
    if Usable(id) then [Occurrence(id.value.value, Line(c, id.value), c.flow.GetOr(""))] else []
  }

  function CredentialValue(id: Option<Spanned<string>>): Option<string> {
    if Usable(id) then Some(id.value.value) else None
  }

  // ---------------------------------------------------------------------
  // Source
  // ---------------------------------------------------------------------

  predicate AllowedScheme(s: string) {
    s == "http" || s == "https" || s == "ssh" || s == "git" || s == "file"
  }

  function UrlErrors(c: Ctx, url: Spanned<string>): seq<Violation> {
    match c.env.scheme(url.value)
    case None => [At(c, url, SourceUrl, BadUrl)]
    case Some(scheme) => When(!AllowedScheme(scheme), At(c, url, SourceUrl, BadScheme))
  }

  predicate IsRef(s: string) {
    "refs/" <= s
  }

  function SourceErrors(c: Ctx, raw: RawSource): seq<Violation> {
    UrlErrors(c, raw.url)
    + When(!IsRef(raw.refName.value), At(c, raw.refName, SourceRef, NoRefsPrefix))
    + CredentialErrors(c, raw.credentialId, SourceCredential)
  }

  function TypedSource(raw: RawSource): SourceConfig {
    SourceConfig(raw.url.value, raw.refName.value, CredentialValue(raw.credentialId))
  }

  predicate FullRef(s: string) {
    |s| >= 5 && s[..5] == "refs/"
  }

  predicate ValidUrl(env: Env, url: string) {
    env.scheme(url) in {Some("http"), Some("https"), Some("ssh"), Some("git"), Some("file")}
  }

  predicate ValidSource(env: Env, raw: RawSource) {
    && ValidUrl(env, raw.url.value)
    && FullRef(raw.refName.value)
    && (raw.credentialId.Some? ==> ValidId(raw.credentialId.value.value))
  }

  lemma SourceCleanIffValid(c: Ctx, raw: RawSource)
    ensures SourceErrors(c, raw) == [] <==> ValidSource(c.env, raw)
  {
    if raw.credentialId.Some? {
      AcceptedIsValid(raw.credentialId.value.value);
    }
  }

  // ---------------------------------------------------------------------
  // Action
  // ---------------------------------------------------------------------

  predicate RepoAccepted(s: string) {
    var parts := Split(s, '/');
    |parts| == 2 && parts[0] != "" && parts[1] != ""
  }

  /** Exactly one '/', with something on both sides. */
  ghost predicate IsOwnerRepo(s: string) {
    exists i :: 0 < i < |s| - 1 && s[i] == '/' && forall j :: 0 <= j < |s| && j != i ==> s[j] != '/'
  }

  /** How many pieces, and the first two of them, by the separators. */
  lemma {:induction false} PiecesAre(s: string, sep: char)
    ensures |Split(s, sep)| == 1 <==> sep !in s
    ensures |Split(s, sep)| == 1 ==> Split(s, sep)[0] == s
    ensures |Split(s, sep)| == 2 ==> |s| == |Split(s, sep)[0]| + 1 + |Split(s, sep)[1]|
                                      && s == Split(s, sep)[0] + [sep] + Split(s, sep)[1]
                                      && sep !in Split(s, sep)[0] && sep !in Split(s, sep)[1]
  {
    if s != "" {
      var init, c := s[..|s| - 1], s[|s| - 1];
      PiecesAre(init, sep);
      assert s == init + [c];
    }
  }

  lemma OneSeparator(a: string, sep: char, b: string)
    requires sep !in a && sep !in b
    ensures Split(a + [sep] + b, sep) == [a, b]
  {
    SplitAppend(a, sep, b);
    SplitOnePiece(a, sep);
    SplitOnePiece(b, sep);
  }

  lemma TwoPiecesIsOwnerRepo(a: string, b: string)
    requires '/' !in a && '/' !in b && a != "" && b != ""
    ensures IsOwnerRepo(a + ['/'] + b)
  {
    var s := a + ['/'] + b;
    assert s[|a|] == '/';
    assert forall j :: 0 <= j < |a| ==> s[j] == a[j];
    assert forall j :: |a| < j < |s| ==> s[j] == b[j - |a| - 1];
  }

  lemma RepoAcceptedIffOwnerRepo(s: string)
    ensures RepoAccepted(s) <==> IsOwnerRepo(s)
  {
    PiecesAre(s, '/');
    if RepoAccepted(s) {
      TwoPiecesIsOwnerRepo(Split(s, '/')[0], Split(s, '/')[1]);
    }
    if IsOwnerRepo(s) {
      var i :| 0 < i < |s| - 1 && s[i] == '/' && forall j :: 0 <= j < |s| && j != i ==> s[j] != '/';
      assert s == s[..i] + ['/'] + s[i + 1..];
      OneSeparator(s[..i], '/', s[i + 1..]);
    }
  }

  /** A file name without any path: no separator and no two dots in a row. */
  predicate IsBareFile(s: string) {
    s != "" && forall i :: 0 <= i < |s| ==> s[i] != '/' && s[i] != '\\' && (i > 0 && s[i] == '.' ==> s[i - 1] != '.')
  }

  function Required(c: Ctx, kind: Spanned<string>, value: Option<Spanned<string>>, field: Field): seq<Violation> {
    When(value.None?, At(c, kind, field, Missing))
  }

  function RepoErrors(c: Ctx, repo: Option<Spanned<string>>): seq<Violation> {
    match repo
    case None => []
    case Some(s) => When(!RepoAccepted(s.value), At(c, s, ActionRepo, BadRepo))
  }

  function WorkflowErrors(c: Ctx, workflow: Option<Spanned<string>>): seq<Violation> {
    match workflow
    case None => []
    case Some(s) =>
      if s.value == "" then [At(c, s, ActionWorkflow, EmptyWorkflow)]
      else When('/' in s.value || '\\' in s.value || HasDots(s.value), At(c, s, ActionWorkflow, PathInWorkflow))
  }

  function ActionRefErrors(c: Ctx, refName: Option<Spanned<string>>): seq<Violation> {
    match refName
    case None => []
    case Some(s) => When(!IsRef(s.value), At(c, s, ActionRef, NoRefsPrefix))
  }

  /** A credential that must be given. */
  function RequiredCredentialErrors(c: Ctx, kind: Spanned<string>, id: Option<Spanned<string>>, missing: Field, field: Field): seq<Violation> {
    if id.None? then [At(c, kind, missing, Missing)] else CredentialErrors(c, id, field)
  }

  function DispatchErrors(c: Ctx, raw: RawAction): seq<Violation> {
    (Required(c, raw.kind, raw.repo, ActionRepo)
     + Required(c, raw.kind, raw.workflow, ActionWorkflow)
     + Required(c, raw.kind, raw.refName, ActionRef))
    + (RepoErrors(c, raw.repo) + WorkflowErrors(c, raw.workflow) + ActionRefErrors(c, raw.refName))
    + RequiredCredentialErrors(c, raw.kind, raw.credentialId, ActionCredential, ActionCredential)
    + When(GCIT_RUN_ID_INPUT in raw.inputs, At(c, raw.kind, ActionInputs, InjectedInput))
  }

  function ActionErrors(c: Ctx, raw: RawAction): seq<Violation> {
    if raw.kind.value == DISPATCH_KIND then DispatchErrors(c, raw) else [At(c, raw.kind, ActionKind, UnknownKind)]
  }

  function ActionSeen(c: Ctx, raw: RawAction): seq<Occurrence> {
    if raw.kind.value == DISPATCH_KIND then CredentialSeen(c, raw.credentialId) else []
  }

  function TextOf(value: Option<Spanned<string>>): string {
    if value.Some? then value.value.value else ""
  }

  function TypedAction(raw: RawAction): ActionConfig {
    if raw.kind.value == DISPATCH_KIND then
      GithubWorkflowDispatch(TextOf(raw.repo), TextOf(raw.workflow), TextOf(raw.refName),
                             CredentialValue(raw.credentialId).GetOr(PLACEHOLDER), raw.inputs)
    else GithubWorkflowDispatch("", "", "", PLACEHOLDER, map[])
  }

  ghost predicate ValidAction(raw: RawAction) {
    && raw.kind.value == "github_workflow_dispatch"
    && raw.repo.Some? && IsOwnerRepo(raw.repo.value.value)
    && raw.workflow.Some? && IsBareFile(raw.workflow.value.value)
    && raw.refName.Some? && FullRef(raw.refName.value.value)
    && raw.credentialId.Some? && ValidId(raw.credentialId.value.value)
    && "gcit_run_id" !in raw.inputs
  }

  lemma ActionCleanIffValid(c: Ctx, raw: RawAction)
    ensures ActionErrors(c, raw) == [] <==> ValidAction(raw)
  {
    if raw.repo.Some? {
      RepoAcceptedIffOwnerRepo(raw.repo.value.value);
    }
    if raw.credentialId.Some? {
      AcceptedIsValid(raw.credentialId.value.value);
    }
  }

  // ---------------------------------------------------------------------
  // Destinations
  // ---------------------------------------------------------------------

  function Events(events: seq<Spanned<FireEvent>>): (r: seq<FireEvent>)
    ensures |r| == |events| && forall i :: 0 <= i < |r| ==> r[i] == events[i].value
  {
    seq(|events|, i requires 0 <= i < |events| => events[i].value)
  }

  /** First occurrences, in order. */
  function Deduped(events: seq<Spanned<FireEvent>>): seq<FireEvent> {
    if events == [] then []
    else
      var init, last := Deduped(events[..|events| - 1]), events[|events| - 1].value;
      if last in init then init else init + [last]
  }

  function RepeatErrors(c: Ctx, events: seq<Spanned<FireEvent>>, field: Field): seq<Violation> {
    if events == [] then []
    else
      var init, last := events[..|events| - 1], events[|events| - 1];
      RepeatErrors(c, init, field) + When(last.value in Deduped(init), At(c, last, field, RepeatedEvent))
  }

  function FireErrors(c: Ctx, fireOn: Option<seq<Spanned<FireEvent>>>, field: Field): seq<Violation> {
    match fireOn
    case None => []
    case Some(events) => RepeatErrors(c, events, field)
  }

  function FireOn(fireOn: Option<seq<Spanned<FireEvent>>>): seq<FireEvent> {
    match fireOn
    case None => [RunComplete]
    case Some(events) => Deduped(events)
  }

  predicate EachOnce(fireOn: Option<seq<Spanned<FireEvent>>>) {
    fireOn.Some? ==> forall i, j :: 0 <= i < j < |fireOn.value| ==> fireOn.value[i].value != fireOn.value[j].value
  }

  predicate Occurs(events: seq<Spanned<FireEvent>>, e: FireEvent) {
    exists i :: 0 <= i < |events| && events[i].value == e
  }

  lemma {:induction false} DedupedHolds(events: seq<Spanned<FireEvent>>, e: FireEvent)
    ensures e in Deduped(events) <==> Occurs(events, e)
  {
    if events != [] {
      DedupedHolds(events[..|events| - 1], e);
    }
  }

  lemma EachOnceSnoc(events: seq<Spanned<FireEvent>>)
    requires events != []
    ensures var init, last := events[..|events| - 1], events[|events| - 1];
            EachOnce(Some(events)) <==> EachOnce(Some(init)) && !Occurs(init, last.value)
  {
    var n := |events| - 1;
    assert forall i :: 0 <= i < n ==> events[..n][i] == events[i];
    if Occurs(events[..n], events[n].value) {
      var i :| 0 <= i < n && events[..n][i].value == events[n].value;
      assert events[i].value == events[n].value;
    }
  }

  lemma RepeatsSnoc(c: Ctx, events: seq<Spanned<FireEvent>>, field: Field)
    requires events != []
    ensures var init, last := events[..|events| - 1], events[|events| - 1];
            RepeatErrors(c, events, field) == [] <==> RepeatErrors(c, init, field) == [] && last.value !in Deduped(init)
  {
  }

  /** No repeat is reported exactly when there is none. */
  lemma {:induction false} RepeatsIff(c: Ctx, events: seq<Spanned<FireEvent>>, field: Field)
    ensures RepeatErrors(c, events, field) == [] <==> EachOnce(Some(events))
  {
    if events != [] {
      var init, last := events[..|events| - 1], events[|events| - 1];
      RepeatsIff(c, init, field);
      DedupedHolds(init, last.value);
      RepeatsSnoc(c, events, field);
      EachOnceSnoc(events);
    }
  }

  /** Without repeats, nothing is dropped. */
  lemma {:induction false} DedupedKeeps(events: seq<Spanned<FireEvent>>)
    requires EachOnce(Some(events))
    ensures Deduped(events) == Events(events)
  {
    if events != [] {
      var n := |events| - 1;
      EachOnceSnoc(events);
      DedupedKeeps(events[..n]);
      DedupedHolds(events[..n], events[n].value);
    }
  }

  /** A field of the other kind is reported where it stands. */
  function Foreign(c: Ctx, value: Option<Spanned<string>>, field: Field): seq<Violation> {
    match value
    case None => []
    case Some(s) => [At(c, s, field, WrongKind)]
  }

  function TemplateErrors(c: Ctx, value: Option<Spanned<string>>, name: TemplateName): seq<Violation> {
    match value
    case None => []
    case Some(s) =>
      var check := c.env.template(s.value);
      When(check != Accepted, At(c, s, TemplateField(name), Template(check)))
  }

  function TemplateValue(env: Env, value: Option<Spanned<string>>): Option<string> {
    match value
    case None => None
    case Some(s) => if env.template(s.value) == Accepted then Some(s.value) else None
  }

  predicate ValidTemplate(env: Env, value: Option<Spanned<string>>) {
    value.Some? ==> env.template(value.value.value) == Accepted
  }

  /** Template fields of the other kind. */
  function ForeignTemplates(c: Ctx): ((TemplateName, Option<Spanned<string>>)) -> seq<Violation> {
    (field: (TemplateName, Option<Spanned<string>>)) => Foreign(c, field.1, TemplateField(field.0))
  }

  function MailFields(t: RawTemplate): seq<(TemplateName, Option<Spanned<string>>)> {
    [(Subject, t.subject), (Body, t.body)]
  }

  function DiscordFields(t: RawTemplate): seq<(TemplateName, Option<Spanned<string>>)> {
    [(Title, t.title), (Description, t.description), (FieldName, t.fieldName),
     (FieldValue, t.fieldValue), (CollapsedSummary, t.collapsedSummary)]
  }

  function DiscordFieldErrors(c: Ctx, t: RawTemplate): seq<Violation> {
    TemplateErrors(c, t.title, Title)
    + TemplateErrors(c, t.description, Description)
    + TemplateErrors(c, t.fieldName, FieldName)
    + TemplateErrors(c, t.fieldValue, FieldValue)
    + TemplateErrors(c, t.collapsedSummary, CollapsedSummary)
  }

  function DiscordTemplateErrors(c: Ctx, t: RawTemplate): seq<Violation> {
    FlatMap(ForeignTemplates(c), MailFields(t)) + DiscordFieldErrors(c, t)
  }

  function TypedDiscordTemplate(env: Env, t: RawTemplate): DiscordTemplate {
    DiscordTemplate(TemplateValue(env, t.title), TemplateValue(env, t.description), TemplateValue(env, t.fieldName),
                    TemplateValue(env, t.fieldValue), TemplateValue(env, t.collapsedSummary))
  }

  predicate ValidDiscordTemplate(env: Env, t: RawTemplate) {
    && t.subject.None? && t.body.None?
    && ValidTemplate(env, t.title) && ValidTemplate(env, t.description) && ValidTemplate(env, t.fieldName)
    && ValidTemplate(env, t.fieldValue) && ValidTemplate(env, t.collapsedSummary)
  }

  function MailTemplateErrors(c: Ctx, t: RawTemplate): seq<Violation> {
    FlatMap(ForeignTemplates(c), DiscordFields(t))
    + (TemplateErrors(c, t.subject, Subject) + TemplateErrors(c, t.body, Body))
  }

  function TypedMailTemplate(env: Env, t: RawTemplate): MailTemplate {
    MailTemplate(TemplateValue(env, t.subject), TemplateValue(env, t.body))
  }

  predicate ValidMailTemplate(env: Env, t: RawTemplate) {
    && t.title.None? && t.description.None? && t.fieldName.None? && t.fieldValue.None? && t.collapsedSummary.None?
    && ValidTemplate(env, t.subject) && ValidTemplate(env, t.body)
  }

  function DiscordErrors(c: Ctx, d: RawDestination): seq<Violation> {
    Foreign(c, d.user, DestinationUser)
    + RequiredCredentialErrors(c, d.kind, d.credentialId, DestinationCredential, DiscordCredential)
    + FireErrors(c, d.fireOn, DiscordFireOn)
    + DiscordTemplateErrors(c, d.template)
  }

  function UserTextErrors(c: Ctx, user: Spanned<string>): seq<Violation> {
    match TokenRule(user.value, MAX_LOCAL_MAIL_USER_LEN)
    case None => []
    case Some(rule) => [At(c, user, MailUser, rule)]
  }

  /** A missing user is also validated, as an empty one at the kind's line. */
  function UserErrors(c: Ctx, d: RawDestination): seq<Violation> {
    Required(c, d.kind, d.user, DestinationUser) + UserTextErrors(c, UserText(d))
  }

  function UserText(d: RawDestination): Spanned<string> {
    if d.user.Some? then d.user.value else Spanned("", d.kind.start)
  }

  function MailErrors(c: Ctx, d: RawDestination): seq<Violation> {
    Foreign(c, d.credentialId, DestinationCredential)
    + UserErrors(c, d)
    + FireErrors(c, d.fireOn, MailFireOn)
    + MailTemplateErrors(c, d.template)
  }

  function DestinationErrors(c: Ctx, d: RawDestination): seq<Violation> {
    if d.kind.value == DISCORD_KIND then DiscordErrors(c, d)
    else if d.kind.value == MAIL_KIND then MailErrors(c, d)
    else [At(c, d.kind, DestinationKind, UnknownKind)]
  }

  function DestinationSeen(c: Ctx, d: RawDestination): seq<Occurrence> {
    if d.kind.value == DISCORD_KIND then CredentialSeen(c, d.credentialId) else []
  }

  /** A destination of unknown kind is dropped. */
  function TypedDestination(env: Env, d: RawDestination): seq<Destination> {
    if d.kind.value == DISCORD_KIND then
      [DiscordWebhook(CredentialValue(d.credentialId).GetOr(PLACEHOLDER), FireOn(d.fireOn), TypedDiscordTemplate(env, d.template))]
    else if d.kind.value == MAIL_KIND then
      [LocalMail(TextOf(d.user), FireOn(d.fireOn), TypedMailTemplate(env, d.template))]
    else []
  }

  predicate ValidDiscord(env: Env, d: RawDestination) {
    && d.user.None?
    && d.credentialId.Some? && ValidId(d.credentialId.value.value)
    && EachOnce(d.fireOn)
    && ValidDiscordTemplate(env, d.template)
  }

  predicate ValidMail(env: Env, d: RawDestination) {
    && d.credentialId.None?
    && d.user.Some? && ValidToken(d.user.value.value, 32)
    && EachOnce(d.fireOn)
    && ValidMailTemplate(env, d.template)
  }

  predicate ValidDestination(env: Env, d: RawDestination) {
    || (d.kind.value == "discord_webhook" && ValidDiscord(env, d))
    || (d.kind.value == "local_mail" && ValidMail(env, d))
  }

  lemma DiscordCleanIffValid(c: Ctx, d: RawDestination)
    ensures DiscordErrors(c, d) == [] <==> ValidDiscord(c.env, d)
  {
    if d.fireOn.Some? {
      RepeatsIff(c, d.fireOn.value, DiscordFireOn);
    }
    if d.credentialId.Some? {
      AcceptedIsValid(d.credentialId.value.value);
    }
    DiscordTemplateCleanIffValid(c, d.template);
  }

  lemma MailCleanIffValid(c: Ctx, d: RawDestination)
    ensures MailErrors(c, d) == [] <==> ValidMail(c.env, d)
  {
    TokenRuleIff(UserText(d).value, 32);
    if d.fireOn.Some? {
      RepeatsIff(c, d.fireOn.value, MailFireOn);
    }
    MailTemplateCleanIffValid(c, d.template);
  }

  lemma DestinationCleanIffValid(c: Ctx, d: RawDestination)
    ensures DestinationErrors(c, d) == [] <==> ValidDestination(c.env, d)
  {
    DiscordCleanIffValid(c, d);
    MailCleanIffValid(c, d);
  }

  lemma NoForeignIff(c: Ctx, fields: seq<(TemplateName, Option<Spanned<string>>)>)
    ensures FlatMap(ForeignTemplates(c), fields) == [] <==> forall i :: 0 <= i < |fields| ==> fields[i].1.None?
  {
    FlatMapEmpty(ForeignTemplates(c), fields);
    forall i | 0 <= i < |fields|
      ensures ForeignTemplates(c)(fields[i]) == [] <==> fields[i].1.None?
    {
    }
  }

  lemma DiscordTemplateCleanIffValid(c: Ctx, t: RawTemplate)
    ensures DiscordTemplateErrors(c, t) == [] <==> ValidDiscordTemplate(c.env, t)
  {
    NoForeignIff(c, MailFields(t));
    assert MailFields(t)[0].1 == t.subject && MailFields(t)[1].1 == t.body;
  }

  lemma MailTemplateCleanIffValid(c: Ctx, t: RawTemplate)
    ensures MailTemplateErrors(c, t) == [] <==> ValidMailTemplate(c.env, t)
  {
    NoForeignIff(c, DiscordFields(t));
    assert DiscordFields(t)[0].1 == t.title && DiscordFields(t)[1].1 == t.description;
    assert DiscordFields(t)[2].1 == t.fieldName && DiscordFields(t)[3].1 == t.fieldValue;
    assert DiscordFields(t)[4].1 == t.collapsedSummary;
  }

  function Reporter(c: Ctx): RawDestination -> seq<Violation> {
    d => DestinationErrors(c, d)
  }

  function Observer(c: Ctx): RawDestination -> seq<Occurrence> {
    d => DestinationSeen(c, d)
  }

  function Typer(env: Env): RawDestination -> seq<Destination> {
    d => TypedDestination(env, d)
  }

  lemma DestinationsCleanIffValid(c: Ctx, ds: seq<RawDestination>)
    ensures FlatMap(Reporter(c), ds) == [] <==> forall i :: 0 <= i < |ds| ==> ValidDestination(c.env, ds[i])
  {
    FlatMapEmpty(Reporter(c), ds);
    forall i | 0 <= i < |ds|
      ensures Reporter(c)(ds[i]) == [] <==> ValidDestination(c.env, ds[i])
    {
      DestinationCleanIffValid(c, ds[i]);
    }
  }

  // ---------------------------------------------------------------------
  // Cadence
  // ---------------------------------------------------------------------

  /** Durations a cooldown may have: none, or a poll interval. */
  predicate InBounds(d: Duration, min: nat, max: nat, zeroAllowed: bool) {
    (zeroAllowed && d == 0) || min <= d <= max
  }

  /** A text that is no duration is a parse failure, which names no flow even inside one. */
  function Unparsed(c: Ctx, s: Spanned<string>, field: Field): Violation {
    Report([Line(c, s)], None, field, BadDuration)
  }

  function DurationErrors(c: Ctx, value: Option<Spanned<string>>, field: Field, min: nat, max: nat, zeroAllowed: bool): seq<Violation> {
    match value
    case None => []
    case Some(s) =>
      match c.env.duration(s.value)
      case None => [Unparsed(c, s, field)]
      case Some(d) => When(!InBounds(d, min, max, zeroAllowed), At(c, s, field, OutOfRange))
  }

  function DurationValue(env: Env, value: Option<Spanned<string>>, min: nat, max: nat, zeroAllowed: bool): Option<Duration> {
    match value
    case None => None
    case Some(s) =>
      match env.duration(s.value)
      case None => None
      case Some(d) => if InBounds(d, min, max, zeroAllowed) then Some(d) else None
  }

  /** A duration in nanoseconds within bounds given in seconds, or zero where that is allowed. */
  predicate ValidDuration(env: Env, value: Option<Spanned<string>>, min: nat, max: nat, zeroAllowed: bool) {
    value.Some? ==>
      var d := env.duration(value.value.value);
      d.Some? && (min * 1_000_000_000 <= d.value <= max * 1_000_000_000 || (d.value == 0 && zeroAllowed))
  }

  /** A float that is not a number is in no range. */
  predicate JitterInRange(f: Float) {
    f.Finite? && 0.0 <= f.value <= 0.5
  }

  function JitterErrors(c: Ctx, value: Option<Spanned<Float>>): seq<Violation> {
    match value
    case None => []
    case Some(s) => When(!JitterInRange(s.value), At(c, s, Jitter, OutOfRange))
  }

  function JitterValue(value: Option<Spanned<Float>>): Option<Float> {
    if value.Some? && JitterInRange(value.value.value) then Some(value.value.value) else None
  }

  function PollErrors(c: Ctx, raw: RawPoll): seq<Violation> {
    DurationErrors(c, raw.sourceInterval, SourceInterval, MIN_INTERVAL, MAX_INTERVAL, false)
    + DurationErrors(c, raw.jobInterval, JobInterval, MIN_INTERVAL, MAX_INTERVAL, false)
    + JitterErrors(c, raw.jitter)
    + DurationErrors(c, raw.cooldown, Cooldown, MIN_INTERVAL, MAX_INTERVAL, true)
  }

  function TypedOverride(env: Env, raw: RawPoll): PollOverride {
    PollOverride(
      DurationValue(env, raw.sourceInterval, MIN_INTERVAL, MAX_INTERVAL, false),
      DurationValue(env, raw.jobInterval, MIN_INTERVAL, MAX_INTERVAL, false),
      JitterValue(raw.jitter),
      DurationValue(env, raw.cooldown, MIN_INTERVAL, MAX_INTERVAL, true))
  }

  function TypedDefaults(env: Env, raw: RawPoll): PollDefaults {
    var o := TypedOverride(env, raw);
    PollDefaults(o.sourceInterval, o.jobInterval.GetOr(DEFAULT_POLL.jobInterval),
                 o.jitter.GetOr(DEFAULT_POLL.jitter), o.cooldown.GetOr(DEFAULT_POLL.cooldown))
  }

  predicate ValidJitter(jitter: Option<Spanned<Float>>) {
    jitter.Some? ==> jitter.value.value.Finite? && 0.0 <= jitter.value.value.value <= 0.5
  }

  predicate ValidPoll(env: Env, raw: RawPoll) {
    && ValidDuration(env, raw.sourceInterval, 15, 86400, false)
    && ValidDuration(env, raw.jobInterval, 15, 86400, false)
    && ValidJitter(raw.jitter)
    && ValidDuration(env, raw.cooldown, 15, 86400, true)
  }

  lemma PollCleanIffValid(c: Ctx, raw: RawPoll)
    ensures PollErrors(c, raw) == [] <==> ValidPoll(c.env, raw)
  {
  }

  function TimeoutErrors(c: Ctx, timeout: Option<Spanned<string>>): seq<Violation> {
    DurationErrors(c, timeout, RequestTimeout, MIN_HTTP_TIMEOUT, MAX_HTTP_TIMEOUT, false)
  }

  function TypedTimeout(env: Env, timeout: Option<Spanned<string>>): Duration {
    DurationValue(env, timeout, MIN_HTTP_TIMEOUT, MAX_HTTP_TIMEOUT, false).GetOr(DEFAULT_TIMEOUT)
  }

  // ---------------------------------------------------------------------
  // One flow
  // ---------------------------------------------------------------------

  function FlowCtx(env: Env, source: string, raw: RawFlow): Ctx {
    Ctx(env, source, Some(raw.name.value))
  }

  /** All reports of a flow but those about its name. */
  function BodyErrors(c: Ctx, raw: RawFlow): seq<Violation> {
    SourceErrors(c, raw.source) + ActionErrors(c, raw.action) + FlatMap(Reporter(c), raw.destinations) + PollErrors(c, raw.poll)
  }

  function FlowErrors(env: Env, source: string, raw: RawFlow): seq<Violation> {
    NameErrors(env, source, raw.name) + BodyErrors(FlowCtx(env, source, raw), raw)
  }

  function FlowSeen(env: Env, source: string, raw: RawFlow): seq<Occurrence> {
    var c := FlowCtx(env, source, raw);
    CredentialSeen(c, raw.source.credentialId) + ActionSeen(c, raw.action) + FlatMap(Observer(c), raw.destinations)
  }

  function TypedFlow(env: Env, raw: RawFlow): FlowConfig {
    FlowConfig(raw.name.value, raw.enabled, raw.description, TypedSource(raw.source), TypedAction(raw.action),
               FlatMap(Typer(env), raw.destinations), TypedOverride(env, raw.poll))
  }

  ghost predicate ValidFlow(env: Env, raw: RawFlow) {
    && ValidToken(raw.name.value, 64)
    && ValidSource(env, raw.source)
    && ValidAction(raw.action)
    && (forall i :: 0 <= i < |raw.destinations| ==> ValidDestination(env, raw.destinations[i]))
    && ValidPoll(env, raw.poll)
  }

  lemma NameCleanIffValid(env: Env, source: string, name: Spanned<string>)
    ensures NameErrors(env, source, name) == [] <==> ValidToken(name.value, 64)
  {
    TokenRuleIff(name.value, 64);
  }

  lemma AllEmpty<T>(a: seq<T>, b: seq<T>, c: seq<T>, d: seq<T>, e: seq<T>)
    ensures a + (b + c + d + e) == [] <==> a == [] && b == [] && c == [] && d == [] && e == []
  {
  }

  /** A flow is reported for nothing exactly when it is valid. */
  lemma FlowCleanIffValid(env: Env, source: string, raw: RawFlow)
    ensures FlowErrors(env, source, raw) == [] <==> ValidFlow(env, raw)
  {
    var c := FlowCtx(env, source, raw);
    NameCleanIffValid(env, source, raw.name);
    SourceCleanIffValid(c, raw.source);
    ActionCleanIffValid(c, raw.action);
    DestinationsCleanIffValid(c, raw.destinations);
    PollCleanIffValid(c, raw.poll);
    AllEmpty(NameErrors(env, source, raw.name), SourceErrors(c, raw.source), ActionErrors(c, raw.action),
             FlatMap(Reporter(c), raw.destinations), PollErrors(c, raw.poll));
  }
}
