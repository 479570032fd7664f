// Which reports are due (src/config/validate): for every rule on its own, what breaks it and where the
// report points. A flow gets exactly the reports that are due, whatever else is wrong with it.

module ConfigDue {
  import opened Prelude
  import opened ConfigModel
  import opened CredentialId
  import opened ConfigRules
  import opened ConfigValidator
  import opened ConfigSpec
  import opened ConfigCheck
  import opened Index

  // ---------------------------------------------------------------------
  // The rules, one by one
  // ---------------------------------------------------------------------

  /** The report that `rule` is broken in `field`, at the line of one span, for the flow at hand. */
  predicate Tells(c: Ctx, v: Violation, start: nat, field: Field, rule: Rule) {
    v.lines == [LineOf(c.source, start)] && v.flow == c.flow && v.field == field && v.rule == rule
  }

  /** A duration that does not parse is told without the flow. */
  predicate TellsUnparsed(c: Ctx, v: Violation, start: nat, field: Field) {
    v.lines == [LineOf(c.source, start)] && v.flow == None && v.field == field && v.rule == BadDuration
  }

  /** A text of at most `max` token characters: empty, else too long, else with another character. */
  ghost predicate TextDue(c: Ctx, text: Spanned<string>, max: nat, field: Field, v: Violation) {
    || (text.value == "" && Tells(c, v, text.start, field, EmptyText))
    || (|text.value| > max && Tells(c, v, text.start, field, TooLongText))
    || (0 < |text.value| <= max && (exists i :: 0 <= i < |text.value| && !IsToken(text.value[i] as int))
        && Tells(c, v, text.start, field, BadChar))
  }

  ghost predicate IdDue(c: Ctx, id: Option<Spanned<string>>, field: Field, v: Violation) {
    id.Some? && v.rule.BadId? && Refusal(id.value.value, v.rule.error) && Tells(c, v, id.value.start, field, v.rule)
  }

  ghost predicate SourceDue(c: Ctx, raw: RawSource, v: Violation) {
    || (c.env.scheme(raw.url.value).None? && Tells(c, v, raw.url.start, SourceUrl, BadUrl))
    || (c.env.scheme(raw.url.value).Some? && !ValidUrl(c.env, raw.url.value) && Tells(c, v, raw.url.start, SourceUrl, BadScheme))
    || (!FullRef(raw.refName.value) && Tells(c, v, raw.refName.start, SourceRef, NoRefsPrefix))
    || IdDue(c, raw.credentialId, SourceCredential, v)
  }

  /** A field that its kind demands, told at the kind when it is missing. */
  predicate MissingDue<T>(c: Ctx, kind: Spanned<string>, value: Option<T>, field: Field, v: Violation) {
    value.None? && Tells(c, v, kind.start, field, Missing)
  }

  ghost predicate ActionDue(c: Ctx, raw: RawAction, v: Violation) {
    if raw.kind.value != "github_workflow_dispatch" then Tells(c, v, raw.kind.start, ActionKind, UnknownKind)
    else
      || MissingDue(c, raw.kind, raw.repo, ActionRepo, v)
      || MissingDue(c, raw.kind, raw.workflow, ActionWorkflow, v)
      || MissingDue(c, raw.kind, raw.refName, ActionRef, v)
      || (raw.repo.Some? && !IsOwnerRepo(raw.repo.value.value) && Tells(c, v, raw.repo.value.start, ActionRepo, BadRepo))
      || (raw.workflow.Some? && !IsBareFile(raw.workflow.value.value)
          && Tells(c, v, raw.workflow.value.start, ActionWorkflow, if raw.workflow.value.value == "" then EmptyWorkflow else PathInWorkflow))
      || (raw.refName.Some? && !FullRef(raw.refName.value.value) && Tells(c, v, raw.refName.value.start, ActionRef, NoRefsPrefix))
      || MissingDue(c, raw.kind, raw.credentialId, ActionCredential, v)
      || IdDue(c, raw.credentialId, ActionCredential, v)
      || ("gcit_run_id" in raw.inputs && Tells(c, v, raw.kind.start, ActionInputs, InjectedInput))
  }

  /** Event j repeats an earlier one. */
  predicate Repeats(events: seq<Spanned<FireEvent>>, j: nat) {
    j < |events| && exists i :: 0 <= i < j && events[i].value == events[j].value
  }

  /** Every event that repeats one. */
  ghost predicate RepeatDue(c: Ctx, fireOn: Option<seq<Spanned<FireEvent>>>, field: Field, v: Violation) {
    fireOn.Some? && exists j: nat :: Repeats(fireOn.value, j) && Tells(c, v, fireOn.value[j].start, field, RepeatedEvent)
  }

  /** A field of the other kind. */
  predicate ForeignDue(c: Ctx, value: Option<Spanned<string>>, field: Field, v: Violation) {
    value.Some? && Tells(c, v, value.value.start, field, WrongKind)
  }

  predicate TemplateDue(c: Ctx, value: Option<Spanned<string>>, name: TemplateName, v: Violation) {
    value.Some? && c.env.template(value.value.value) != Accepted
    && Tells(c, v, value.value.start, TemplateField(name), Template(c.env.template(value.value.value)))
  }

  predicate DiscordTemplateDue(c: Ctx, t: RawTemplate, v: Violation) {
    || ForeignDue(c, t.subject, TemplateField(Subject), v) || ForeignDue(c, t.body, TemplateField(Body), v)
    || TemplateDue(c, t.title, Title, v) || TemplateDue(c, t.description, Description, v)
    || TemplateDue(c, t.fieldName, FieldName, v) || TemplateDue(c, t.fieldValue, FieldValue, v)
    || TemplateDue(c, t.collapsedSummary, CollapsedSummary, v)
  }

  predicate MailTemplateDue(c: Ctx, t: RawTemplate, v: Violation) {
    || ForeignDue(c, t.title, TemplateField(Title), v) || ForeignDue(c, t.description, TemplateField(Description), v)
    || ForeignDue(c, t.fieldName, TemplateField(FieldName), v) || ForeignDue(c, t.fieldValue, TemplateField(FieldValue), v)
    || ForeignDue(c, t.collapsedSummary, TemplateField(CollapsedSummary), v)
    || TemplateDue(c, t.subject, Subject, v) || TemplateDue(c, t.body, Body, v)
  }

  ghost predicate DiscordDue(c: Ctx, d: RawDestination, v: Violation) {
    || ForeignDue(c, d.user, DestinationUser, v)
    || MissingDue(c, d.kind, d.credentialId, DestinationCredential, v)
    || IdDue(c, d.credentialId, DiscordCredential, v)
    || RepeatDue(c, d.fireOn, DiscordFireOn, v)
    || DiscordTemplateDue(c, d.template, v)
  }

  /** A missing user is told as missing and, at the same line, as an empty one. */
  ghost predicate MailDue(c: Ctx, d: RawDestination, v: Violation) {
    || ForeignDue(c, d.credentialId, DestinationCredential, v)
    || MissingDue(c, d.kind, d.user, DestinationUser, v)
    || (d.user.None? && Tells(c, v, d.kind.start, MailUser, EmptyText))
    || (d.user.Some? && TextDue(c, d.user.value, 32, MailUser, v))
    || RepeatDue(c, d.fireOn, MailFireOn, v)
    || MailTemplateDue(c, d.template, v)
  }

  ghost predicate DestinationDue(c: Ctx, d: RawDestination, v: Violation) {
    if d.kind.value == "discord_webhook" then DiscordDue(c, d, v)
    else if d.kind.value == "local_mail" then MailDue(c, d, v)
    else Tells(c, v, d.kind.start, DestinationKind, UnknownKind)
  }

  /** Bounds in seconds. */
  predicate DurationDue(c: Ctx, value: Option<Spanned<string>>, field: Field, min: nat, max: nat, zeroAllowed: bool, v: Violation) {
    value.Some? &&
    if c.env.duration(value.value.value).None? then TellsUnparsed(c, v, value.value.start, field)
    else !ValidDuration(c.env, value, min, max, zeroAllowed) && Tells(c, v, value.value.start, field, OutOfRange)
  }

  predicate PollDue(c: Ctx, raw: RawPoll, v: Violation) {
    || DurationDue(c, raw.sourceInterval, SourceInterval, 15, 86400, false, v)
    || DurationDue(c, raw.jobInterval, JobInterval, 15, 86400, false, v)
    || (!ValidJitter(raw.jitter) && Tells(c, v, raw.jitter.value.start, Jitter, OutOfRange))
    || DurationDue(c, raw.cooldown, Cooldown, 15, 86400, true, v)
  }

  /** An empty name is told without a flow. */
  ghost predicate NameDue(env: Env, source: string, name: Spanned<string>, v: Violation) {
    TextDue(Ctx(env, source, if name.value == "" then None else Some(name.value)), name, 64, FlowNameField, v)
  }

  /** The reports due for one flow. */
  ghost predicate FlowDue(env: Env, source: string, raw: RawFlow, v: Violation) {
    var c := Ctx(env, source, Some(raw.name.value));
    || NameDue(env, source, raw.name, v)
    || SourceDue(c, raw.source, v)
    || ActionDue(c, raw.action, v)
    || (exists i :: 0 <= i < |raw.destinations| && DestinationDue(c, raw.destinations[i], v))
    || PollDue(c, raw.poll, v)
  }

  // ---------------------------------------------------------------------
  // Exactly these are reported
  // ---------------------------------------------------------------------

  lemma TextReported(c: Ctx, text: Spanned<string>, max: nat, field: Field, v: Violation)
    ensures (TokenRule(text.value, max).Some? && v == At(c, text, field, TokenRule(text.value, max).value))
            <==> TextDue(c, text, max, field, v)
  {
    TokenRuleIff(text.value, max);
  }

  lemma NameReported(env: Env, source: string, name: Spanned<string>, v: Violation)
    ensures v in NameErrors(env, source, name) <==> NameDue(env, source, name, v)
  {
    TextReported(Ctx(env, source, if name.value == "" then None else Some(name.value)), name, 64, FlowNameField, v);
  }

  lemma IdReported(c: Ctx, id: Option<Spanned<string>>, field: Field, v: Violation)
    ensures v in CredentialErrors(c, id, field) <==> IdDue(c, id, field, v)
  {
    if id.Some? {
      if ValidateIdStr(id.value.value).Some? {
        RefusalIff(id.value.value, ValidateIdStr(id.value.value).value);
      }
      if v.rule.BadId? {
        RefusalIff(id.value.value, v.rule.error);
      }
    }
  }

  lemma SourceReported(c: Ctx, raw: RawSource, v: Violation)
    ensures v in SourceErrors(c, raw) <==> SourceDue(c, raw, v)
  {
    IdReported(c, raw.credentialId, SourceCredential, v);
  }

  lemma DotsIff(s: string)
    ensures HasDots(s) <==> exists k :: 0 < k < |s| && s[k - 1] == '.' && s[k] == '.'
  {
    if HasDots(s) {
      var i :| 0 <= i < |s| - 1 && s[i] == '.' && s[i + 1] == '.';
      var k := i + 1;
      assert s[k - 1] == '.' && s[k] == '.';
    }
    if k :| 0 < k < |s| && s[k - 1] == '.' && s[k] == '.' {
      var i := k - 1;
      assert s[i] == '.' && s[i + 1] == '.';
    }
  }

  lemma WorkflowReported(c: Ctx, workflow: Spanned<string>, v: Violation)
    ensures v in WorkflowErrors(c, Some(workflow))
            <==> !IsBareFile(workflow.value)
                 && Tells(c, v, workflow.start, ActionWorkflow, if workflow.value == "" then EmptyWorkflow else PathInWorkflow)
  {
    DotsIff(workflow.value);
  }

  lemma RepoReported(c: Ctx, repo: Option<Spanned<string>>, v: Violation)
    ensures v in RepoErrors(c, repo)
            <==> repo.Some? && !IsOwnerRepo(repo.value.value) && Tells(c, v, repo.value.start, ActionRepo, BadRepo)
  {
    if repo.Some? {
      RepoAcceptedIffOwnerRepo(repo.value.value);
    }
  }

  lemma RefReported(c: Ctx, refName: Option<Spanned<string>>, v: Violation)
    ensures v in ActionRefErrors(c, refName)
            <==> refName.Some? && !FullRef(refName.value.value) && Tells(c, v, refName.value.start, ActionRef, NoRefsPrefix)
  {
  }

  lemma MissingReported(c: Ctx, kind: Spanned<string>, value: Option<Spanned<string>>, field: Field, v: Violation)
    ensures v in Required(c, kind, value, field) <==> MissingDue(c, kind, value, field, v)
  {
  }

  lemma RequiredIdReported(c: Ctx, kind: Spanned<string>, id: Option<Spanned<string>>, missing: Field, field: Field, v: Violation)
    ensures v in RequiredCredentialErrors(c, kind, id, missing, field)
            <==> MissingDue(c, kind, id, missing, v) || IdDue(c, id, field, v)
  {
    IdReported(c, id, field, v);
  }

  lemma InEight<T>(x: T, a: seq<T>, b: seq<T>, c: seq<T>, d: seq<T>, e: seq<T>, f: seq<T>, g: seq<T>, h: seq<T>)
    ensures x in (a + b + c) + (d + e + f) + g + h
            <==> x in a || x in b || x in c || x in d || x in e || x in f || x in g || x in h
  {
  }

  lemma DispatchReported(c: Ctx, raw: RawAction, v: Violation)
    requires raw.kind.value == "github_workflow_dispatch"
    ensures v in DispatchErrors(c, raw) <==> ActionDue(c, raw, v)
  {
    MissingReported(c, raw.kind, raw.repo, ActionRepo, v);
    MissingReported(c, raw.kind, raw.workflow, ActionWorkflow, v);
    MissingReported(c, raw.kind, raw.refName, ActionRef, v);
    RepoReported(c, raw.repo, v);
    if raw.workflow.Some? {
      WorkflowReported(c, raw.workflow.value, v);
    }
    RefReported(c, raw.refName, v);
    RequiredIdReported(c, raw.kind, raw.credentialId, ActionCredential, ActionCredential, v);
    var injected := When(GCIT_RUN_ID_INPUT in raw.inputs, At(c, raw.kind, ActionInputs, InjectedInput));
    assert v in injected <==> "gcit_run_id" in raw.inputs && Tells(c, v, raw.kind.start, ActionInputs, InjectedInput);
    InEight(v, Required(c, raw.kind, raw.repo, ActionRepo), Required(c, raw.kind, raw.workflow, ActionWorkflow),
            Required(c, raw.kind, raw.refName, ActionRef), RepoErrors(c, raw.repo), WorkflowErrors(c, raw.workflow),
            ActionRefErrors(c, raw.refName),
            RequiredCredentialErrors(c, raw.kind, raw.credentialId, ActionCredential, ActionCredential), injected);
  }

  lemma ActionReported(c: Ctx, raw: RawAction, v: Violation)
    ensures v in ActionErrors(c, raw) <==> ActionDue(c, raw, v)
  {
    if raw.kind.value == DISPATCH_KIND {
      DispatchReported(c, raw, v);
    }
  }

  lemma RepeatsEarlier(events: seq<Spanned<FireEvent>>, n: nat, j: nat)
    requires j < n <= |events|
    ensures Repeats(events[..n], j) <==> Repeats(events, j)
  {
    if Repeats(events, j) {
      var i :| 0 <= i < j && events[i].value == events[j].value;
      assert events[..n][i].value == events[..n][j].value;
    }
  }

  lemma RepeatsLast(events: seq<Spanned<FireEvent>>, n: nat)
    requires n == |events| - 1
    ensures Repeats(events, n) <==> Occurs(events[..n], events[n].value)
  {
    if Repeats(events, n) {
      var i :| 0 <= i < n && events[i].value == events[n].value;
      assert events[..n][i].value == events[n].value;
    }
  }

  lemma RepeatSnoc(c: Ctx, events: seq<Spanned<FireEvent>>, field: Field, v: Violation)
    requires events != []
    ensures var init, last := events[..|events| - 1], events[|events| - 1];
            v in RepeatErrors(c, events, field)
            <==> v in RepeatErrors(c, init, field)
                 || (last.value in Deduped(init) && Tells(c, v, last.start, field, RepeatedEvent))
  {
  }

  lemma RepeatDueInit(c: Ctx, events: seq<Spanned<FireEvent>>, field: Field, v: Violation, n: nat)
    requires n == |events| - 1 && RepeatDue(c, Some(events[..n]), field, v)
    ensures RepeatDue(c, Some(events), field, v)
  {
    var j: nat :| Repeats(events[..n], j) && Tells(c, v, events[..n][j].start, field, RepeatedEvent);
    RepeatsEarlier(events, n, j);
    assert events[..n][j] == events[j];
  }

  lemma RepeatDueLast(c: Ctx, events: seq<Spanned<FireEvent>>, field: Field, v: Violation, n: nat)
    requires n == |events| - 1 && RepeatDue(c, Some(events), field, v)
    ensures RepeatDue(c, Some(events[..n]), field, v) || (Repeats(events, n) && Tells(c, v, events[n].start, field, RepeatedEvent))
  {
    var j: nat :| Repeats(events, j) && Tells(c, v, events[j].start, field, RepeatedEvent);
    if j < n {
      RepeatsEarlier(events, n, j);
      assert events[..n][j] == events[j];
    }
  }

  lemma {:induction false} RepeatReported(c: Ctx, events: seq<Spanned<FireEvent>>, field: Field, v: Violation)
    ensures v in RepeatErrors(c, events, field) <==> RepeatDue(c, Some(events), field, v)
  {
    if events != [] {
      var n := |events| - 1;
      RepeatReported(c, events[..n], field, v);
      DedupedHolds(events[..n], events[n].value);
      RepeatsLast(events, n);
      RepeatSnoc(c, events, field, v);
      if RepeatDue(c, Some(events[..n]), field, v) {
        RepeatDueInit(c, events, field, v, n);
      }
      if RepeatDue(c, Some(events), field, v) {
        RepeatDueLast(c, events, field, v, n);
      }
    }
  }

  lemma FiresReported(c: Ctx, fireOn: Option<seq<Spanned<FireEvent>>>, field: Field, v: Violation)
    ensures v in FireErrors(c, fireOn, field) <==> RepeatDue(c, fireOn, field, v)
  {
    if fireOn.Some? {
      RepeatReported(c, fireOn.value, field, v);
    }
  }

  lemma ForeignsReported(c: Ctx, fields: seq<(TemplateName, Option<Spanned<string>>)>, v: Violation)
    ensures v in FlatMap(ForeignTemplates(c), fields)
            <==> exists i :: 0 <= i < |fields| && ForeignDue(c, fields[i].1, TemplateField(fields[i].0), v)
  {
    FlatMapHolds(ForeignTemplates(c), fields, v);
    forall i | 0 <= i < |fields|
      ensures v in ForeignTemplates(c)(fields[i]) <==> ForeignDue(c, fields[i].1, TemplateField(fields[i].0), v)
    {
    }
  }

  lemma TemplateReported(c: Ctx, value: Option<Spanned<string>>, name: TemplateName, v: Violation)
    ensures v in TemplateErrors(c, value, name) <==> TemplateDue(c, value, name, v)
  {
  }

  lemma InFive<T>(x: T, a: seq<T>, b: seq<T>, c: seq<T>, d: seq<T>, e: seq<T>)
    ensures x in a + b + c + d + e <==> x in a || x in b || x in c || x in d || x in e
  {
  }

  lemma DiscordFieldsReported(c: Ctx, t: RawTemplate, v: Violation)
    ensures v in DiscordFieldErrors(c, t)
            <==> || TemplateDue(c, t.title, Title, v) || TemplateDue(c, t.description, Description, v)
                 || TemplateDue(c, t.fieldName, FieldName, v) || TemplateDue(c, t.fieldValue, FieldValue, v)
                 || TemplateDue(c, t.collapsedSummary, CollapsedSummary, v)
  {
    TemplateReported(c, t.title, Title, v);
    TemplateReported(c, t.description, Description, v);
    TemplateReported(c, t.fieldName, FieldName, v);
    TemplateReported(c, t.fieldValue, FieldValue, v);
    TemplateReported(c, t.collapsedSummary, CollapsedSummary, v);
    InFive(v, TemplateErrors(c, t.title, Title), TemplateErrors(c, t.description, Description),
           TemplateErrors(c, t.fieldName, FieldName), TemplateErrors(c, t.fieldValue, FieldValue),
           TemplateErrors(c, t.collapsedSummary, CollapsedSummary));
  }

  lemma DiscordTemplateReported(c: Ctx, t: RawTemplate, v: Violation)
    ensures v in DiscordTemplateErrors(c, t) <==> DiscordTemplateDue(c, t, v)
  {
    var fields := MailFields(t);
    ForeignsReported(c, fields, v);
    assert fields[0] == (Subject, t.subject) && fields[1] == (Body, t.body);
    DiscordFieldsReported(c, t, v);
  }

  lemma MailForeignReported(c: Ctx, t: RawTemplate, v: Violation)
    ensures v in FlatMap(ForeignTemplates(c), DiscordFields(t))
            <==> || ForeignDue(c, t.title, TemplateField(Title), v) || ForeignDue(c, t.description, TemplateField(Description), v)
                 || ForeignDue(c, t.fieldName, TemplateField(FieldName), v) || ForeignDue(c, t.fieldValue, TemplateField(FieldValue), v)
                 || ForeignDue(c, t.collapsedSummary, TemplateField(CollapsedSummary), v)
  {
    var fields := DiscordFields(t);
    ForeignsReported(c, fields, v);
    assert fields[0] == (Title, t.title) && fields[1] == (Description, t.description);
    assert fields[2] == (FieldName, t.fieldName) && fields[3] == (FieldValue, t.fieldValue);
    assert fields[4] == (CollapsedSummary, t.collapsedSummary);
  }

  lemma MailTemplateReported(c: Ctx, t: RawTemplate, v: Violation)
    ensures v in MailTemplateErrors(c, t) <==> MailTemplateDue(c, t, v)
  {
    MailForeignReported(c, t, v);
    TemplateReported(c, t.subject, Subject, v);
    TemplateReported(c, t.body, Body, v);
  }

  lemma DiscordReported(c: Ctx, d: RawDestination, v: Violation)
    ensures v in DiscordErrors(c, d) <==> DiscordDue(c, d, v)
  {
    IdReported(c, d.credentialId, DiscordCredential, v);
    FiresReported(c, d.fireOn, DiscordFireOn, v);
    DiscordTemplateReported(c, d.template, v);
  }

  lemma MailReported(c: Ctx, d: RawDestination, v: Violation)
    ensures v in MailErrors(c, d) <==> MailDue(c, d, v)
  {
    TextReported(c, UserText(d), 32, MailUser, v);
    FiresReported(c, d.fireOn, MailFireOn, v);
    MailTemplateReported(c, d.template, v);
  }

  lemma DestinationReported(c: Ctx, d: RawDestination, v: Violation)
    ensures v in DestinationErrors(c, d) <==> DestinationDue(c, d, v)
  {
    DiscordReported(c, d, v);
    MailReported(c, d, v);
  }

  lemma DestinationsReported(c: Ctx, ds: seq<RawDestination>, v: Violation)
    ensures v in FlatMap(Reporter(c), ds) <==> exists i :: 0 <= i < |ds| && DestinationDue(c, ds[i], v)
  {
    FlatMapHolds(Reporter(c), ds, v);
    forall i | 0 <= i < |ds|
      ensures v in Reporter(c)(ds[i]) <==> DestinationDue(c, ds[i], v)
    {
      DestinationReported(c, ds[i], v);
    }
  }

  lemma DurationReported(c: Ctx, value: Option<Spanned<string>>, field: Field, min: nat, max: nat, zeroAllowed: bool, v: Violation)
    ensures v in DurationErrors(c, value, field, min * SECOND, max * SECOND, zeroAllowed)
            <==> DurationDue(c, value, field, min, max, zeroAllowed, v)
  {
  }

  lemma JitterReported(c: Ctx, jitter: Option<Spanned<Float>>, v: Violation)
    ensures v in JitterErrors(c, jitter) <==> !ValidJitter(jitter) && Tells(c, v, jitter.value.start, Jitter, OutOfRange)
  {
  }

  lemma InPoll<T>(x: T, a: seq<T>, b: seq<T>, c: seq<T>, d: seq<T>)
    ensures x in a + b + c + d <==> x in a || x in b || x in c || x in d
  {
  }

  lemma PollReported(c: Ctx, raw: RawPoll, v: Violation)
    ensures v in PollErrors(c, raw) <==> PollDue(c, raw, v)
  {
    DurationReported(c, raw.sourceInterval, SourceInterval, 15, 86400, false, v);
    DurationReported(c, raw.jobInterval, JobInterval, 15, 86400, false, v);
    JitterReported(c, raw.jitter, v);
    DurationReported(c, raw.cooldown, Cooldown, 15, 86400, true, v);
    InPoll(v, DurationErrors(c, raw.sourceInterval, SourceInterval, MIN_INTERVAL, MAX_INTERVAL, false),
           DurationErrors(c, raw.jobInterval, JobInterval, MIN_INTERVAL, MAX_INTERVAL, false), JitterErrors(c, raw.jitter),
           DurationErrors(c, raw.cooldown, Cooldown, MIN_INTERVAL, MAX_INTERVAL, true));
  }

  lemma InFour<T>(x: T, a: seq<T>, b: seq<T>, c: seq<T>, d: seq<T>, e: seq<T>)
    ensures x in a + (b + c + d + e) <==> x in a || x in b || x in c || x in d || x in e
  {
  }

  /** For any flow, however many rules it breaks: exactly the due reports are made. */
  lemma FlowReportedIff(env: Env, source: string, raw: RawFlow, v: Violation)
    ensures v in FlowErrors(env, source, raw) <==> FlowDue(env, source, raw, v)
  {
    var c := FlowCtx(env, source, raw);
    NameReported(env, source, raw.name, v);
    SourceReported(c, raw.source, v);
    ActionReported(c, raw.action, v);
    DestinationsReported(c, raw.destinations, v);
    PollReported(c, raw.poll, v);
    InFour(v, NameErrors(env, source, raw.name), SourceErrors(c, raw.source), ActionErrors(c, raw.action),
           FlatMap(Reporter(c), raw.destinations), PollErrors(c, raw.poll));
  }

  // ---------------------------------------------------------------------
  // The whole configuration
  // ---------------------------------------------------------------------

  /** The reports due for the parts outside the flows. */
  predicate GlobalDue(env: Env, source: string, raw: RawConfig, v: Violation) {
    var c := Ctx(env, source, None);
    || PollDue(c, raw.poll, v)
    || DurationDue(c, raw.requestTimeout, RequestTimeout, 1, 300, false, v)
    || (raw.flows == [] && v == Violation([1], None, FlowField, NoFlows))
  }

  lemma GlobalReported(env: Env, source: string, raw: RawConfig, v: Violation)
    ensures v in GlobalErrors(env, source, raw) <==> GlobalDue(env, source, raw, v)
  {
    var c := GlobalCtx(env, source);
    PollReported(c, raw.poll, v);
    DurationReported(c, raw.requestTimeout, RequestTimeout, 1, 300, false, v);
  }

  lemma OwnReportedIff(env: Env, source: string, raw: RawConfig, v: Violation)
    ensures v in OwnErrors(env, source, raw)
            <==> GlobalDue(env, source, raw, v)
                 || exists i :: 0 <= i < |raw.flows| && FlowDue(env, source, raw.flows[i], v)
  {
    GlobalReported(env, source, raw, v);
    FlatMapHolds(FlowReporter(env, source), raw.flows, v);
    forall i | 0 <= i < |raw.flows|
      ensures v in FlowReporter(env, source)(raw.flows[i]) <==> FlowDue(env, source, raw.flows[i], v)
    {
      FlowReportedIff(env, source, raw.flows[i], v);
    }
  }

  /** The lines of the flows that bear a name, in order. */
  function NamedLines(source: string, flows: seq<RawFlow>, name: string): seq<nat> {
    if flows == [] then []
    else
      var last := flows[|flows| - 1];
      NamedLines(source, flows[..|flows| - 1], name)
      + if last.name.value == name then [LineOf(source, last.name.start)] else []
  }

  lemma {:induction false} NamedAreFiled(source: string, flows: seq<RawFlow>, name: string)
    ensures Under(FlatMap(NameEntry(source), flows), name)
            == if ValidToken(name, 64) then NamedLines(source, flows, name) else []
  {
    if flows != [] {
      var n := |flows| - 1;
      NamedAreFiled(source, flows[..n], name);
      UnderLast(FlatMap(NameEntry(source), flows[..n]), NameEntry(source)(flows[n]), name);
    }
  }

  lemma UnderLast(entries: seq<(string, nat)>, more: seq<(string, nat)>, name: string)
    requires |more| <= 1
    ensures Under(entries + more, name)
            == Under(entries, name) + if more != [] && more[0].0 == name then [more[0].1] else []
  {
    if more == [] {
      assert entries + more == entries;
    } else {
      assert (entries + more)[..|entries|] == entries;
    }
  }

  /** A legal name that two flows or more bear is reported once, at all their lines. */
  lemma DuplicateReportedIff(source: string, raw: RawConfig, v: Violation)
    ensures v in DuplicateErrors(source, raw)
            <==> exists name :: && ValidToken(name, 64) && |NamedLines(source, raw.flows, name)| > 1
                                && v == Violation(NamedLines(source, raw.flows, name), Some(name), FlowNameField, DuplicateName)
  {
    var index := NameIndex(source, raw);
    var order := InOrder(index.Keys);
    InOrderHolds(index.Keys);
    FlatMapHolds(DuplicateReporter(index), order, v);
    forall name
      ensures v in DuplicateReporter(index)(name)
              <==> && ValidToken(name, 64) && |NamedLines(source, raw.flows, name)| > 1
                   && v == Violation(NamedLines(source, raw.flows, name), Some(name), FlowNameField, DuplicateName)
    {
      GatherIsUnder(FlatMap(NameEntry(source), raw.flows), name);
      NamedAreFiled(source, raw.flows, name);
    }
    if exists name :: v in DuplicateReporter(index)(name) {
      var name :| v in DuplicateReporter(index)(name);
      assert name in order;
      var i :| 0 <= i < |order| && order[i] == name;
    }
  }

  // ---------------------------------------------------------------------
  // Shared variables
  // ---------------------------------------------------------------------

  /** The flow names a credential there, where its kind takes one, and the id is legal. */
  ghost predicate Refers(raw: RawFlow, s: Spanned<string>) {
    && ValidId(s.value)
    && (|| raw.source.credentialId == Some(s)
        || (raw.action.kind.value == "github_workflow_dispatch" && raw.action.credentialId == Some(s))
        || exists i :: 0 <= i < |raw.destinations| && raw.destinations[i].kind.value == "discord_webhook"
                       && raw.destinations[i].credentialId == Some(s))
  }

  /** Some flow names the id at that line. */
  ghost predicate Used(source: string, raw: RawConfig, id: string, line: nat) {
    exists i, s :: 0 <= i < |raw.flows| && Refers(raw.flows[i], s) && s.value == id && LineOf(source, s.start) == line
  }

  lemma SeenIs(c: Ctx, id: Option<Spanned<string>>, o: Occurrence)
    ensures o in CredentialSeen(c, id)
            <==> && id.Some? && ValidId(id.value.value)
                 && o == Occurrence(id.value.value, LineOf(c.source, id.value.start), c.flow.GetOr(""))
  {
    if id.Some? {
      AcceptedIsValid(id.value.value);
    }
  }

  /** What one place of a flow contributes. */
  predicate Gives(c: Ctx, s: Spanned<string>, o: Occurrence) {
    ValidId(s.value) && o == Occurrence(s.value, LineOf(c.source, s.start), c.flow.GetOr(""))
  }

  lemma DestinationsSeenAre(c: Ctx, ds: seq<RawDestination>, o: Occurrence)
    ensures o in FlatMap(Observer(c), ds)
            <==> exists i :: 0 <= i < |ds| && ds[i].kind.value == "discord_webhook" && ds[i].credentialId.Some?
                             && Gives(c, ds[i].credentialId.value, o)
  {
    FlatMapHolds(Observer(c), ds, o);
    forall i | 0 <= i < |ds|
      ensures o in Observer(c)(ds[i])
              <==> ds[i].kind.value == "discord_webhook" && ds[i].credentialId.Some? && Gives(c, ds[i].credentialId.value, o)
    {
      SeenIs(c, ds[i].credentialId, o);
    }
  }

  lemma FlowSeenAre(env: Env, source: string, raw: RawFlow, o: Occurrence)
    ensures o in FlowSeen(env, source, raw) <==> exists s :: Refers(raw, s) && Gives(FlowCtx(env, source, raw), s, o)
  {
    var c := FlowCtx(env, source, raw);
    SeenIs(c, raw.source.credentialId, o);
    SeenIs(c, raw.action.credentialId, o);
    DestinationsSeenAre(c, raw.destinations, o);
    if s :| Refers(raw, s) && Gives(c, s, o) {
      if i :| 0 <= i < |raw.destinations| && raw.destinations[i].kind.value == "discord_webhook"
              && raw.destinations[i].credentialId == Some(s) {
        assert Gives(c, raw.destinations[i].credentialId.value, o);
      }
    }
    if o in FlowSeen(env, source, raw) {
      FlowSeenRefers(env, source, raw, o);
    }
  }

  lemma FlowSeenRefers(env: Env, source: string, raw: RawFlow, o: Occurrence)
    requires o in FlowSeen(env, source, raw)
    ensures exists s :: Refers(raw, s) && Gives(FlowCtx(env, source, raw), s, o)
  {
    var c := FlowCtx(env, source, raw);
    SeenIs(c, raw.source.credentialId, o);
    SeenIs(c, raw.action.credentialId, o);
    DestinationsSeenAre(c, raw.destinations, o);
    if o in CredentialSeen(c, raw.source.credentialId) {
      assert Refers(raw, raw.source.credentialId.value);
    } else if o in ActionSeen(c, raw.action) {
      assert Refers(raw, raw.action.credentialId.value);
    } else {
      var i :| 0 <= i < |raw.destinations| && raw.destinations[i].kind.value == "discord_webhook"
               && raw.destinations[i].credentialId.Some? && Gives(c, raw.destinations[i].credentialId.value, o);
      assert Refers(raw, raw.destinations[i].credentialId.value);
    }
  }

  lemma SeenIffUsed(env: Env, source: string, raw: RawConfig, id: string, line: nat)
    ensures (exists o :: o in AllSeen(env, source, raw) && o.id == id && o.line == line) <==> Used(source, raw, id, line)
  {
    var f := FlowObserver(env, source);
    if o :| o in AllSeen(env, source, raw) && o.id == id && o.line == line {
      FlatMapHolds(f, raw.flows, o);
      var i :| 0 <= i < |raw.flows| && o in f(raw.flows[i]);
      FlowSeenRefers(env, source, raw.flows[i], o);
    }
    if i, s :| 0 <= i < |raw.flows| && Refers(raw.flows[i], s) && s.value == id && LineOf(source, s.start) == line {
      var o := Occurrence(id, line, raw.flows[i].name.value);
      FlowSeenAre(env, source, raw.flows[i], o);
      assert Gives(FlowCtx(env, source, raw.flows[i]), s, o);
      FlatMapHolds(f, raw.flows, o);
      assert o in f(raw.flows[i]);
    }
  }

  /** Ids in strictly ascending byte order. */
  predicate Ascends(ids: seq<string>) {
    forall i, j :: 0 <= i < j < |ids| ==> LexLe(ids[i], ids[j]) && ids[i] != ids[j]
  }

  /** A report of a shared variable: all ids that use it, ascending, and all lines that name one of them, ascending. */
  ghost predicate TellsShared(source: string, raw: RawConfig, v: Violation) {
    && v.flow == None && v.field == CredentialIds && v.rule.SameVariable?
    && |v.rule.ids| > 1 && Ascends(v.rule.ids) && Increasing(v.lines)
    && (forall id :: id in v.rule.ids <==> IdToEnv(id) == v.rule.env && exists line :: Used(source, raw, id, line))
    && (forall line: nat :: line in v.lines <==> exists id :: IdToEnv(id) == v.rule.env && Used(source, raw, id, line))
  }

  lemma FiledIsUsed(env: Env, source: string, raw: RawConfig, variable: string, id: string, line: nat)
    ensures (exists o :: o in Under(EnvEntries(AllSeen(env, source, raw)), variable) && o.id == id && o.line == line)
            <==> IdToEnv(id) == variable && Used(source, raw, id, line)
  {
    var seen := AllSeen(env, source, raw);
    SeenIffUsed(env, source, raw, id, line);
    if o :| o in Under(EnvEntries(seen), variable) && o.id == id && o.line == line {
      FiledUnderVariable(seen, variable, o);
    }
    if o :| o in seen && o.id == id && o.line == line && IdToEnv(id) == variable {
      FiledUnderVariable(seen, variable, o);
    }
  }

  /** The ids and lines of a report are those of what was filed under the variable. */
  lemma IdsAreFiled(filed: seq<Occurrence>, id: string)
    ensures id in IdsOf(filed) <==> exists o :: o in filed && o.id == id
  {
    InOrderHolds(set o | o in filed :: o.id);
  }

  lemma LinesAreFiled(filed: seq<Occurrence>, line: nat)
    ensures line in SortDedup(OccurrenceLines(filed)) <==> exists o :: o in filed && o.line == line
  {
    SortDedupIs(OccurrenceLines(filed));
    MapHolds((o: Occurrence) => o.line, filed, line);
    if o :| o in filed && o.line == line {
      var i :| 0 <= i < |filed| && filed[i] == o;
      assert OccurrenceLines(filed)[i] == line;
    }
  }

  lemma ManyIdsOf(filed: seq<Occurrence>)
    requires Collide(filed)
    ensures |IdsOf(filed)| > 1 && Ascends(IdsOf(filed)) && SortDedup(OccurrenceLines(filed)) != []
  {
    var ids := IdsOf(filed);
    var i, j :| 0 <= i < |filed| && 0 <= j < |filed| && filed[i].id != filed[j].id;
    assert filed[i] in filed && filed[j] in filed;
    IdsAreFiled(filed, filed[i].id);
    IdsAreFiled(filed, filed[j].id);
    var a :| 0 <= a < |ids| && ids[a] == filed[i].id;
    var b :| 0 <= b < |ids| && ids[b] == filed[j].id;
    LinesAreFiled(filed, filed[i].line);
    forall a, b | 0 <= a < b < |ids|
      ensures LexLe(ids[a], ids[b]) && ids[a] != ids[b]
    {
      InOrderAscends(set o | o in filed :: o.id, a, b);
    }
  }

  lemma SharedTold(env: Env, source: string, raw: RawConfig, variable: string)
    requires Collide(Under(EnvEntries(AllSeen(env, source, raw)), variable))
    ensures var filed := Under(EnvEntries(AllSeen(env, source, raw)), variable);
            TellsShared(source, raw, Report(SortDedup(OccurrenceLines(filed)), None, CredentialIds, SameVariable(variable, IdsOf(filed))))
  {
    var filed := Under(EnvEntries(AllSeen(env, source, raw)), variable);
    ManyIdsOf(filed);
    SortDedupIs(OccurrenceLines(filed));
    forall id
      ensures id in IdsOf(filed) <==> IdToEnv(id) == variable && exists line :: Used(source, raw, id, line)
    {
      IdsAreFiled(filed, id);
      if o :| o in filed && o.id == id {
        FiledIsUsed(env, source, raw, variable, id, o.line);
      }
      if line :| Used(source, raw, id, line) && IdToEnv(id) == variable {
        FiledIsUsed(env, source, raw, variable, id, line);
      }
    }
    forall line: nat
      ensures line in SortDedup(OccurrenceLines(filed)) <==> exists id :: IdToEnv(id) == variable && Used(source, raw, id, line)
    {
      LinesAreFiled(filed, line);
      if o :| o in filed && o.line == line {
        FiledIsUsed(env, source, raw, variable, o.id, line);
      }
      if id :| IdToEnv(id) == variable && Used(source, raw, id, line) {
        FiledIsUsed(env, source, raw, variable, id, line);
      }
    }
  }

  /** Whatever is reported about shared variables is true and complete. */
  lemma CollisionIsTrue(env: Env, source: string, raw: RawConfig, v: Violation)
    requires v in CollisionErrors(env, source, raw)
    ensures TellsShared(source, raw, v)
  {
    var index := EnvIndex(env, source, raw);
    var order := InOrder(index.Keys);
    FlatMapHolds(CollisionReporter(index), order, v);
    var i :| 0 <= i < |order| && v in CollisionReporter(index)(order[i]);
    GatherIsUnder(EnvEntries(AllSeen(env, source, raw)), order[i]);
    SharedTold(env, source, raw, order[i]);
  }

  predicate AboutVariable(v: Violation, variable: string) {
    v.rule.SameVariable? && v.rule.env == variable
  }

  /** And every variable that two different ids use is reported. */
  lemma SharedIsReported(env: Env, source: string, raw: RawConfig, a: string, la: nat, b: string, lb: nat) returns (v: Violation)
    requires Used(source, raw, a, la) && Used(source, raw, b, lb) && a != b && IdToEnv(a) == IdToEnv(b)
    ensures v in CollisionErrors(env, source, raw)
    ensures AboutVariable(v, IdToEnv(a))
  {
    var variable, index := IdToEnv(a), EnvIndex(env, source, raw);
    var filed := Under(EnvEntries(AllSeen(env, source, raw)), variable);
    FiledIsUsed(env, source, raw, variable, a, la);
    FiledIsUsed(env, source, raw, variable, b, lb);
    GatherIsUnder(EnvEntries(AllSeen(env, source, raw)), variable);
    var x :| x in filed && x.id == a;
    var y :| y in filed && y.id == b;
    var i :| 0 <= i < |filed| && filed[i] == x;
    var j :| 0 <= j < |filed| && filed[j] == y;
    assert Collide(filed);
    InOrderHolds(index.Keys);
    var order := InOrder(index.Keys);
    assert variable in order;
    var k :| 0 <= k < |order| && order[k] == variable;
    v := CollisionReporter(index)(variable)[0];
    FlatMapHolds(CollisionReporter(index), order, v);
  }
}
