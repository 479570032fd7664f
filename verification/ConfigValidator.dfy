// The validator: one pass over the parsed configuration that pushes every report into a shared
// list and fills the lookup tables as it goes (src/config/validate).

module ConfigValidator {
  import opened Prelude
  import opened ConfigModel
  import opened CredentialId
  import opened ConfigRules
  import opened Index

  function EnvEntries(seen: seq<Occurrence>): seq<(string, Occurrence)> {
    Map((o: Occurrence) => (IdToEnv(o.id), o), seen)
  }

  function LineEntries(seen: seq<Occurrence>): seq<(string, nat)> {
    Map((o: Occurrence) => (o.id, o.line), seen)
  }

  /** Names fit for duplicate detection, with their lines. */
  function NameEntry(source: string): RawFlow -> seq<(string, nat)> {
    (raw: RawFlow) =>
      if ValidToken(raw.name.value, MAX_FLOW_NAME_LEN) then [(raw.name.value, LineOf(source, raw.name.start))] else []
  }

  function FlowReporter(env: Env, source: string): RawFlow -> seq<Violation> {
    (raw: RawFlow) => FlowErrors(env, source, raw)
  }

  function FlowObserver(env: Env, source: string): RawFlow -> seq<Occurrence> {
    (raw: RawFlow) => FlowSeen(env, source, raw)
  }

  function TypedFlows(env: Env, flows: seq<RawFlow>): seq<FlowConfig> {
    Map((raw: RawFlow) => TypedFlow(env, raw), flows)
  }

  // ---------------------------------------------------------------------
  // Reports about several flows together
  // ---------------------------------------------------------------------

  function DuplicateReporter(names: map<string, seq<nat>>): string -> seq<Violation> {
    (name: string) =>
      if name in names && |names[name]| > 1 then [Report(names[name], Some(name), FlowNameField, DuplicateName)] else []
  }

  function OccurrenceLines(occurrences: seq<Occurrence>): seq<nat> {
    Map((o: Occurrence) => o.line, occurrences)
  }

  predicate Collide(occurrences: seq<Occurrence>) {
    exists i, j :: 0 <= i < |occurrences| && 0 <= j < |occurrences| && occurrences[i].id != occurrences[j].id
  }

  /** The ids that share a variable, each once, in byte order. */
  ghost function IdsOf(occurrences: seq<Occurrence>): seq<string> {
    InOrder(set o | o in occurrences :: o.id)
  }

  ghost function CollisionReporter(index: map<string, seq<Occurrence>>): string -> seq<Violation> {
    (env: string) =>
      if env in index && Collide(index[env]) then
        [Report(SortDedup(OccurrenceLines(index[env])), None, CredentialIds, SameVariable(env, IdsOf(index[env])))]
      else []
  }

  lemma TwoOf<T>(s: set<T>) returns (a: T, b: T)
    requires |s| > 1
    ensures a in s && b in s && a != b
  {
    a :| a in s;
    var rest := s - {a};
    assert s == {a} + rest;
    b :| b in rest;
  }

  lemma ManyIdsIff(occurrences: seq<Occurrence>, ids: set<string>)
    requires ids == set o | o in occurrences :: o.id
    ensures |ids| > 1 <==> Collide(occurrences)
  {
    if Collide(occurrences) {
      var i, j :| 0 <= i < |occurrences| && 0 <= j < |occurrences| && occurrences[i].id != occurrences[j].id;
      assert occurrences[i] in occurrences && occurrences[j] in occurrences;
      SubsetSize({occurrences[i].id, occurrences[j].id}, ids);
    }
    if |ids| > 1 {
      var a, b := TwoOf(ids);
      var i :| 0 <= i < |occurrences| && occurrences[i].id == a;
      var j :| 0 <= j < |occurrences| && occurrences[j].id == b;
      assert occurrences[i].id != occurrences[j].id;
    }
  }

  lemma SubsetSize<T>(a: set<T>, b: set<T>)
    requires a <= b
    ensures |a| <= |b|
  {
    assert b == a + (b - a);
  }

  // ---------------------------------------------------------------------
  // The pass
  // ---------------------------------------------------------------------

  class Validator {
    var errors: seq<Violation>
    var envVarIndex: map<string, seq<Occurrence>>
    var credentialLines: map<string, seq<nat>>
    var nameIndex: map<string, seq<nat>>
    /** Valid ids in the order they were met. */
    ghost var seen: seq<Occurrence>

    constructor ()
      ensures errors == [] && nameIndex == map[] && seen == [] && Indexed()
    {
      errors, envVarIndex, credentialLines, nameIndex, seen := [], map[], map[], map[], [];
    }

    /** Both tables file exactly what was met. */
    ghost predicate Indexed()
      reads this
    {
      envVarIndex == Gather(EnvEntries(seen)) && credentialLines == Gather(LineEntries(seen))
    }

    // -------------------------------------------------------------------
    // Names and credentials
    // -------------------------------------------------------------------

    method ValidateFlowName(env: Env, source: string, name: Spanned<string>) returns (ok: bool)
      modifies this`errors
      ensures ok <==> ValidToken(name.value, MAX_FLOW_NAME_LEN)
      ensures errors == old(errors) + NameErrors(env, source, name)
    {
      var named := Ctx(env, source, Some(name.value));
      if name.value == "" {
        errors := errors + [At(Ctx(env, source, None), name, FlowNameField, EmptyText)];
        return false;
      }
      if |name.value| > MAX_FLOW_NAME_LEN {
        errors := errors + [At(named, name, FlowNameField, TooLongText)];
        return false;
      }
      for i := 0 to |name.value|
        invariant errors == old(errors) && forall j :: 0 <= j < i ==> TokenChar(name.value[j])
      {
        if !TokenChar(name.value[i]) {
          errors := errors + [At(named, name, FlowNameField, BadChar)];
          return false;
        }
      }
      return true;
    }

    /** A valid id goes into both tables; an invalid one is reported and goes into neither. */
    method ValidateCredentialId(c: Ctx, id: Spanned<string>, field: Field) returns (r: Option<string>)
      requires Indexed()
      modifies this`errors, this`envVarIndex, this`credentialLines, this`seen
      ensures Indexed()
      ensures errors == old(errors) + CredentialErrors(c, Some(id), field)
      ensures seen == old(seen) + CredentialSeen(c, Some(id))
      ensures r == CredentialValue(Some(id))
    {
      match ValidateIdStr(id.value) {
        case None =>
          var o := Occurrence(id.value, Line(c, id), c.flow.GetOr(""));
          IndexSnoc(seen, o);
          envVarIndex := PushAt(envVarIndex, IdToEnv(o.id), o);
          credentialLines := PushAt(credentialLines, o.id, o.line);
          seen := seen + [o];
          return Some(id.value);
        case Some(error) =>
          errors := errors + [At(c, id, field, BadId(error))];
          return None;
      }
    }

    method ValidateOptionalCredential(c: Ctx, id: Option<Spanned<string>>, field: Field) returns (r: Option<string>)
      requires Indexed()
      modifies this`errors, this`envVarIndex, this`credentialLines, this`seen
      ensures Indexed()
      ensures errors == old(errors) + CredentialErrors(c, id, field)
      ensures seen == old(seen) + CredentialSeen(c, id)
      ensures r == CredentialValue(id)
    {
      match id {
        case None => r := None;
        case Some(s) => r := ValidateCredentialId(c, s, field);
      }
    }

    method ValidateRequiredCredential(c: Ctx, kind: Spanned<string>, id: Option<Spanned<string>>, missing: Field, field: Field)
      returns (r: Option<string>)
      requires Indexed()
      modifies this`errors, this`envVarIndex, this`credentialLines, this`seen
      ensures Indexed()
      ensures errors == old(errors) + RequiredCredentialErrors(c, kind, id, missing, field)
      ensures seen == old(seen) + CredentialSeen(c, id)
      ensures r == CredentialValue(id)
    {
      match id {
        case None =>
          errors := errors + [At(c, kind, missing, Missing)];
          r := None;
        case Some(s) => r := ValidateCredentialId(c, s, field);
      }
    }

    // -------------------------------------------------------------------
    // Source and action
    // -------------------------------------------------------------------

    method ValidateUrl(c: Ctx, url: Spanned<string>)
      modifies this`errors
      ensures errors == old(errors) + UrlErrors(c, url)
    {
      match c.env.scheme(url.value) {
        case None => errors := errors + [At(c, url, SourceUrl, BadUrl)];
        case Some(scheme) =>
          if !AllowedScheme(scheme) {
            errors := errors + [At(c, url, SourceUrl, BadScheme)];
          }
      }
    }

    method ValidateSource(c: Ctx, raw: RawSource) returns (r: SourceConfig)
      requires Indexed()
      modifies this`errors, this`envVarIndex, this`credentialLines, this`seen
      ensures Indexed()
      ensures errors == old(errors) + SourceErrors(c, raw)
      ensures seen == old(seen) + CredentialSeen(c, raw.credentialId)
      ensures r == TypedSource(raw)
    {
      Regroup3(errors, UrlErrors(c, raw.url), When(!IsRef(raw.refName.value), At(c, raw.refName, SourceRef, NoRefsPrefix)),
               CredentialErrors(c, raw.credentialId, SourceCredential));
      ValidateUrl(c, raw.url);
      if !IsRef(raw.refName.value) {
        errors := errors + [At(c, raw.refName, SourceRef, NoRefsPrefix)];
      }
      var id := ValidateOptionalCredential(c, raw.credentialId, SourceCredential);
      return SourceConfig(raw.url.value, raw.refName.value, id);
    }

    method RequireField(c: Ctx, kind: Spanned<string>, value: Option<Spanned<string>>, field: Field) returns (text: string)
      modifies this`errors
      ensures errors == old(errors) + Required(c, kind, value, field)
      ensures text == TextOf(value)
    {
      match value {
        case Some(s) => text := s.value;
        case None =>
          errors := errors + [At(c, kind, field, Missing)];
          text := "";
      }
    }

    method CheckRepo(c: Ctx, repo: Option<Spanned<string>>)
      modifies this`errors
      ensures errors == old(errors) + RepoErrors(c, repo)
    {
      if repo.Some? {
        var parts := Split(repo.value.value, '/');
        if !(|parts| == 2 && parts[0] != "" && parts[1] != "") {
          errors := errors + [At(c, repo.value, ActionRepo, BadRepo)];
        }
      }
    }

    method CheckWorkflow(c: Ctx, workflow: Option<Spanned<string>>)
      modifies this`errors
      ensures errors == old(errors) + WorkflowErrors(c, workflow)
    {
      if workflow.Some? {
        var s := workflow.value;
        if s.value == "" {
          errors := errors + [At(c, s, ActionWorkflow, EmptyWorkflow)];
        } else if '/' in s.value || '\\' in s.value || HasDots(s.value) {
          errors := errors + [At(c, s, ActionWorkflow, PathInWorkflow)];
        }
      }
    }

    method CheckActionRef(c: Ctx, refName: Option<Spanned<string>>)
      modifies this`errors
      ensures errors == old(errors) + ActionRefErrors(c, refName)
    {
      if refName.Some? && !IsRef(refName.value.value) {
        errors := errors + [At(c, refName.value, ActionRef, NoRefsPrefix)];
      }
    }

    method ValidateDispatch(c: Ctx, raw: RawAction) returns (r: ActionConfig)
      requires Indexed()
      modifies this`errors, this`envVarIndex, this`credentialLines, this`seen
      ensures Indexed()
      ensures errors == old(errors) + DispatchErrors(c, raw)
      ensures seen == old(seen) + CredentialSeen(c, raw.credentialId)
      ensures r == GithubWorkflowDispatch(TextOf(raw.repo), TextOf(raw.workflow), TextOf(raw.refName),
                                          CredentialValue(raw.credentialId).GetOr(PLACEHOLDER), raw.inputs)
    {
      ghost var e0 := errors;
      var repo := RequireField(c, raw.kind, raw.repo, ActionRepo);
      var workflow := RequireField(c, raw.kind, raw.workflow, ActionWorkflow);
      var refName := RequireField(c, raw.kind, raw.refName, ActionRef);
      Regroup3(e0, Required(c, raw.kind, raw.repo, ActionRepo), Required(c, raw.kind, raw.workflow, ActionWorkflow),
               Required(c, raw.kind, raw.refName, ActionRef));
      ghost var e1 := errors;
      CheckRepo(c, raw.repo);
      CheckWorkflow(c, raw.workflow);
      CheckActionRef(c, raw.refName);
      Regroup3(e1, RepoErrors(c, raw.repo), WorkflowErrors(c, raw.workflow), ActionRefErrors(c, raw.refName));
      var id := ValidateRequiredCredential(c, raw.kind, raw.credentialId, ActionCredential, ActionCredential);
      if GCIT_RUN_ID_INPUT in raw.inputs {
        errors := errors + [At(c, raw.kind, ActionInputs, InjectedInput)];
      }
      DispatchReports(c, raw, e0);
      return GithubWorkflowDispatch(repo, workflow, refName, id.GetOr(PLACEHOLDER), raw.inputs);
    }

    method ValidateAction(c: Ctx, raw: RawAction) returns (r: ActionConfig)
      requires Indexed()
      modifies this`errors, this`envVarIndex, this`credentialLines, this`seen
      ensures Indexed()
      ensures errors == old(errors) + ActionErrors(c, raw)
      ensures seen == old(seen) + ActionSeen(c, raw)
      ensures r == TypedAction(raw)
    {
      if raw.kind.value == DISPATCH_KIND {
        r := ValidateDispatch(c, raw);
      } else {
        errors := errors + [At(c, raw.kind, ActionKind, UnknownKind)];
        r := GithubWorkflowDispatch("", "", "", PLACEHOLDER, map[]);
      }
    }

    // -------------------------------------------------------------------
    // Destinations
    // -------------------------------------------------------------------

    method CollectFireOn(c: Ctx, events: seq<Spanned<FireEvent>>, field: Field) returns (out: seq<FireEvent>)
      modifies this`errors
      ensures errors == old(errors) + RepeatErrors(c, events, field)
      ensures out == Deduped(events)
    {
      out := [];
      for i := 0 to |events|
        invariant errors == old(errors) + RepeatErrors(c, events[..i], field)
        invariant out == Deduped(events[..i])
      {
        assert events[..i + 1][..i] == events[..i];
        Regroup2(old(errors), RepeatErrors(c, events[..i], field), When(events[i].value in out, At(c, events[i], field, RepeatedEvent)));
        if events[i].value in out {
          errors := errors + [At(c, events[i], field, RepeatedEvent)];
        } else {
          out := out + [events[i].value];
        }
      }
      assert events[..|events|] == events;
    }

    method ValidateFireOn(c: Ctx, fireOn: Option<seq<Spanned<FireEvent>>>, field: Field) returns (out: seq<FireEvent>)
      modifies this`errors
      ensures errors == old(errors) + FireErrors(c, fireOn, field)
      ensures out == FireOn(fireOn)
    {
      match fireOn {
        case Some(events) => out := CollectFireOn(c, events, field);
        case None => out := [RunComplete];
      }
    }

    method RejectForeign(c: Ctx, value: Option<Spanned<string>>, field: Field)
      modifies this`errors
      ensures errors == old(errors) + Foreign(c, value, field)
    {
      if value.Some? {
        errors := errors + [At(c, value.value, field, WrongKind)];
      }
    }

    method RejectForeignTemplates(c: Ctx, fields: seq<(TemplateName, Option<Spanned<string>>)>)
      modifies this`errors
      ensures errors == old(errors) + FlatMap(ForeignTemplates(c), fields)
    {
      for i := 0 to |fields|
        invariant errors == old(errors) + FlatMap(ForeignTemplates(c), fields[..i])
      {
        FlatMapSnoc(ForeignTemplates(c), fields, i);
        RejectForeign(c, fields[i].1, TemplateField(fields[i].0));
      }
      assert fields[..|fields|] == fields;
    }

    method CompileTemplateField(c: Ctx, value: Option<Spanned<string>>, name: TemplateName) returns (text: Option<string>)
      modifies this`errors
      ensures errors == old(errors) + TemplateErrors(c, value, name)
      ensures text == TemplateValue(c.env, value)
    {
      if value.None? {
        return None;
      }
      var check := c.env.template(value.value.value);
      if check != Accepted {
        errors := errors + [At(c, value.value, TemplateField(name), Template(check))];
        return None;
      }
      return Some(value.value.value);
    }

    method CompileDiscordFields(c: Ctx, t: RawTemplate) returns (r: DiscordTemplate)
      modifies this`errors
      ensures errors == old(errors) + DiscordFieldErrors(c, t)
      ensures r == TypedDiscordTemplate(c.env, t)
    {
      ghost var e := errors;
      var title := CompileTemplateField(c, t.title, Title);
      var description := CompileTemplateField(c, t.description, Description);
      var fieldName := CompileTemplateField(c, t.fieldName, FieldName);
      var fieldValue := CompileTemplateField(c, t.fieldValue, FieldValue);
      var collapsedSummary := CompileTemplateField(c, t.collapsedSummary, CollapsedSummary);
      Regroup5(e, TemplateErrors(c, t.title, Title), TemplateErrors(c, t.description, Description),
               TemplateErrors(c, t.fieldName, FieldName), TemplateErrors(c, t.fieldValue, FieldValue),
               TemplateErrors(c, t.collapsedSummary, CollapsedSummary));
      r := DiscordTemplate(title, description, fieldName, fieldValue, collapsedSummary);
    }

    method ValidateDiscordTemplate(c: Ctx, t: RawTemplate) returns (r: DiscordTemplate)
      modifies this`errors
      ensures errors == old(errors) + DiscordTemplateErrors(c, t)
      ensures r == TypedDiscordTemplate(c.env, t)
    {
      Regroup2(errors, FlatMap(ForeignTemplates(c), MailFields(t)), DiscordFieldErrors(c, t));
      RejectForeignTemplates(c, MailFields(t));
      r := CompileDiscordFields(c, t);
    }

    method ValidateDiscord(c: Ctx, d: RawDestination) returns (r: Destination)
      requires Indexed()
      modifies this`errors, this`envVarIndex, this`credentialLines, this`seen
      ensures Indexed()
      ensures errors == old(errors) + DiscordErrors(c, d)
      ensures seen == old(seen) + CredentialSeen(c, d.credentialId)
      ensures r == DiscordWebhook(CredentialValue(d.credentialId).GetOr(PLACEHOLDER), FireOn(d.fireOn),
                                  TypedDiscordTemplate(c.env, d.template))
    {
      ghost var e := errors;
      RejectForeign(c, d.user, DestinationUser);
      var id := ValidateRequiredCredential(c, d.kind, d.credentialId, DestinationCredential, DiscordCredential);
      var fireOn := ValidateFireOn(c, d.fireOn, DiscordFireOn);
      var template := ValidateDiscordTemplate(c, d.template);
      Regroup4(e, Foreign(c, d.user, DestinationUser),
               RequiredCredentialErrors(c, d.kind, d.credentialId, DestinationCredential, DiscordCredential),
               FireErrors(c, d.fireOn, DiscordFireOn), DiscordTemplateErrors(c, d.template));
      r := DiscordWebhook(id.GetOr(PLACEHOLDER), fireOn, template);
    }

    method ValidateLocalMailUser(c: Ctx, user: Spanned<string>)
      modifies this`errors
      ensures errors == old(errors) + UserTextErrors(c, user)
    {
      if user.value == "" {
        errors := errors + [At(c, user, MailUser, EmptyText)];
      } else if |user.value| > MAX_LOCAL_MAIL_USER_LEN {
        errors := errors + [At(c, user, MailUser, TooLongText)];
      } else {
        for i := 0 to |user.value|
          invariant errors == old(errors) && forall j :: 0 <= j < i ==> TokenChar(user.value[j])
        {
          if !TokenChar(user.value[i]) {
            errors := errors + [At(c, user, MailUser, BadChar)];
            return;
          }
        }
      }
    }

    method ValidateMailTemplate(c: Ctx, t: RawTemplate) returns (r: MailTemplate)
      modifies this`errors
      ensures errors == old(errors) + MailTemplateErrors(c, t)
      ensures r == TypedMailTemplate(c.env, t)
    {
      RejectForeignTemplates(c, DiscordFields(t));
      ghost var e := errors;
      var subject := CompileTemplateField(c, t.subject, Subject);
      var body := CompileTemplateField(c, t.body, Body);
      Regroup2(e, TemplateErrors(c, t.subject, Subject), TemplateErrors(c, t.body, Body));
      r := MailTemplate(subject, body);
    }

    method ValidateLocalMail(c: Ctx, d: RawDestination) returns (r: Destination)
      modifies this`errors
      ensures errors == old(errors) + MailErrors(c, d)
      ensures r == LocalMail(TextOf(d.user), FireOn(d.fireOn), TypedMailTemplate(c.env, d.template))
    {
      ghost var e := errors;
      RejectForeign(c, d.credentialId, DestinationCredential);
      ghost var e' := errors;
      var user;
      match d.user {
        case Some(s) => user := s;
        case None =>
          errors := errors + [At(c, d.kind, DestinationUser, Missing)];
          user := Spanned("", d.kind.start);
      }
      ValidateLocalMailUser(c, user);
      assert errors == e' + UserErrors(c, d);
      var fireOn := ValidateFireOn(c, d.fireOn, MailFireOn);
      var template := ValidateMailTemplate(c, d.template);
      Regroup4(e, Foreign(c, d.credentialId, DestinationCredential), UserErrors(c, d),
               FireErrors(c, d.fireOn, MailFireOn), MailTemplateErrors(c, d.template));
      r := LocalMail(user.value, fireOn, template);
    }

    method ValidateDestination(c: Ctx, d: RawDestination) returns (out: seq<Destination>)
      requires Indexed()
      modifies this`errors, this`envVarIndex, this`credentialLines, this`seen
      ensures Indexed()
      ensures errors == old(errors) + DestinationErrors(c, d)
      ensures seen == old(seen) + DestinationSeen(c, d)
      ensures out == TypedDestination(c.env, d)
    {
      if d.kind.value == DISCORD_KIND {
        var r := ValidateDiscord(c, d);
        out := [r];
      } else if d.kind.value == MAIL_KIND {
        var r := ValidateLocalMail(c, d);
        out := [r];
      } else {
        errors := errors + [At(c, d.kind, DestinationKind, UnknownKind)];
        out := [];
      }
    }

    /** One turn of the loop over the destinations. */
    method VisitDestination(c: Ctx, ds: seq<RawDestination>, i: nat, before: seq<Destination>,
                            ghost e: seq<Violation>, ghost s: seq<Occurrence>)
      returns (out: seq<Destination>)
      requires Indexed() && i < |ds|
      requires errors == e + FlatMap(Reporter(c), ds[..i])
      requires seen == s + FlatMap(Observer(c), ds[..i])
      requires before == FlatMap(Typer(c.env), ds[..i])
      modifies this`errors, this`envVarIndex, this`credentialLines, this`seen
      ensures Indexed()
      ensures errors == e + FlatMap(Reporter(c), ds[..i + 1])
      ensures seen == s + FlatMap(Observer(c), ds[..i + 1])
      ensures out == FlatMap(Typer(c.env), ds[..i + 1])
    {
      FlatMapSnoc(Reporter(c), ds, i);
      FlatMapSnoc(Observer(c), ds, i);
      FlatMapSnoc(Typer(c.env), ds, i);
      Regroup2(e, FlatMap(Reporter(c), ds[..i]), Reporter(c)(ds[i]));
      Regroup2(s, FlatMap(Observer(c), ds[..i]), Observer(c)(ds[i]));
      out := ValidateDestination(c, ds[i]);
      out := before + out;
    }

    method ValidateDestinations(c: Ctx, ds: seq<RawDestination>) returns (out: seq<Destination>)
      requires Indexed()
      modifies this`errors, this`envVarIndex, this`credentialLines, this`seen
      ensures Indexed()
      ensures errors == old(errors) + FlatMap(Reporter(c), ds)
      ensures seen == old(seen) + FlatMap(Observer(c), ds)
      ensures out == FlatMap(Typer(c.env), ds)
    {
      out := [];
      for i := 0 to |ds|
        invariant Indexed()
        invariant errors == old(errors) + FlatMap(Reporter(c), ds[..i])
        invariant seen == old(seen) + FlatMap(Observer(c), ds[..i])
        invariant out == FlatMap(Typer(c.env), ds[..i])
      {
        out := VisitDestination(c, ds, i, out, old(errors), old(seen));
      }
      assert ds[..|ds|] == ds;
    }

    // -------------------------------------------------------------------
    // Cadence
    // -------------------------------------------------------------------

    method ParseBoundedDuration(c: Ctx, s: Spanned<string>, field: Field, min: nat, max: nat) returns (r: Option<Duration>)
      modifies this`errors
      ensures errors == old(errors) + DurationErrors(c, Some(s), field, min, max, false)
      ensures r == DurationValue(c.env, Some(s), min, max, false)
    {
      match c.env.duration(s.value) {
        case None =>
          errors := errors + [Unparsed(c, s, field)];
          r := None;
        case Some(d) =>
          if d < min || d > max {
            errors := errors + [At(c, s, field, OutOfRange)];
            r := None;
          } else {
            r := Some(d);
          }
      }
    }

    method ParseCooldown(c: Ctx, s: Spanned<string>) returns (r: Option<Duration>)
      modifies this`errors
      ensures errors == old(errors) + DurationErrors(c, Some(s), Cooldown, MIN_INTERVAL, MAX_INTERVAL, true)
      ensures r == DurationValue(c.env, Some(s), MIN_INTERVAL, MAX_INTERVAL, true)
    {
      match c.env.duration(s.value) {
        case None =>
          errors := errors + [Unparsed(c, s, Cooldown)];
          r := None;
        case Some(d) =>
          if d == 0 {
            r := Some(0);
          } else if d < MIN_INTERVAL || d > MAX_INTERVAL {
            errors := errors + [At(c, s, Cooldown, OutOfRange)];
            r := None;
          } else {
            r := Some(d);
          }
      }
    }

    method ParseJitter(c: Ctx, s: Spanned<Float>) returns (r: Option<Float>)
      modifies this`errors
      ensures errors == old(errors) + JitterErrors(c, Some(s))
      ensures r == JitterValue(Some(s))
    {
      if !JitterInRange(s.value) {
        errors := errors + [At(c, s, Jitter, OutOfRange)];
        r := None;
      } else {
        r := Some(s.value);
      }
    }

    method ParseInterval(c: Ctx, value: Option<Spanned<string>>, field: Field) returns (r: Option<Duration>)
      modifies this`errors
      ensures errors == old(errors) + DurationErrors(c, value, field, MIN_INTERVAL, MAX_INTERVAL, false)
      ensures r == DurationValue(c.env, value, MIN_INTERVAL, MAX_INTERVAL, false)
    {
      match value {
        case None => r := None;
        case Some(s) => r := ParseBoundedDuration(c, s, field, MIN_INTERVAL, MAX_INTERVAL);
      }
    }

    method ParseJitterAndCooldown(c: Ctx, raw: RawPoll) returns (jitter: Option<Float>, cooldown: Option<Duration>)
      modifies this`errors
      ensures errors == old(errors) + JitterErrors(c, raw.jitter)
                        + DurationErrors(c, raw.cooldown, Cooldown, MIN_INTERVAL, MAX_INTERVAL, true)
      ensures jitter == JitterValue(raw.jitter)
      ensures cooldown == DurationValue(c.env, raw.cooldown, MIN_INTERVAL, MAX_INTERVAL, true)
    {
      jitter, cooldown := None, None;
      if raw.jitter.Some? {
        jitter := ParseJitter(c, raw.jitter.value);
      }
      if raw.cooldown.Some? {
        cooldown := ParseCooldown(c, raw.cooldown.value);
      }
    }

    method ValidatePollOverride(c: Ctx, raw: RawPoll) returns (r: PollOverride)
      modifies this`errors
      ensures errors == old(errors) + PollErrors(c, raw)
      ensures r == TypedOverride(c.env, raw)
    {
      ghost var e := errors;
      var sourceInterval := ParseInterval(c, raw.sourceInterval, SourceInterval);
      var jobInterval := ParseInterval(c, raw.jobInterval, JobInterval);
      var jitter, cooldown := ParseJitterAndCooldown(c, raw);
      Regroup4(e, DurationErrors(c, raw.sourceInterval, SourceInterval, MIN_INTERVAL, MAX_INTERVAL, false),
               DurationErrors(c, raw.jobInterval, JobInterval, MIN_INTERVAL, MAX_INTERVAL, false),
               JitterErrors(c, raw.jitter),
               DurationErrors(c, raw.cooldown, Cooldown, MIN_INTERVAL, MAX_INTERVAL, true));
      r := PollOverride(sourceInterval, jobInterval, jitter, cooldown);
    }

    method ValidatePollDefaults(c: Ctx, raw: RawPoll) returns (r: PollDefaults)
      modifies this`errors
      ensures errors == old(errors) + PollErrors(c, raw)
      ensures r == TypedDefaults(c.env, raw)
    {
      var o := ValidatePollOverride(c, raw);
      r := PollDefaults(o.sourceInterval, o.jobInterval.GetOr(DEFAULT_POLL.jobInterval),
                        o.jitter.GetOr(DEFAULT_POLL.jitter), o.cooldown.GetOr(DEFAULT_POLL.cooldown));
    }

    method ValidateHttp(c: Ctx, timeout: Option<Spanned<string>>) returns (r: Duration)
      modifies this`errors
      ensures errors == old(errors) + TimeoutErrors(c, timeout)
      ensures r == TypedTimeout(c.env, timeout)
    {
      var parsed := None;
      if timeout.Some? {
        parsed := ParseBoundedDuration(c, timeout.value, RequestTimeout, MIN_HTTP_TIMEOUT, MAX_HTTP_TIMEOUT);
      }
      r := parsed.GetOr(DEFAULT_TIMEOUT);
    }

    // -------------------------------------------------------------------
    // Flows
    // -------------------------------------------------------------------

    method ValidateFlow(c: Ctx, raw: RawFlow) returns (r: FlowConfig)
      requires Indexed() && c == FlowCtx(c.env, c.source, raw)
      modifies this`errors, this`envVarIndex, this`credentialLines, this`seen
      ensures Indexed()
      ensures errors == old(errors) + BodyErrors(c, raw)
      ensures seen == old(seen) + FlowSeen(c.env, c.source, raw)
      ensures r == TypedFlow(c.env, raw)
    {
      Regroup4(errors, SourceErrors(c, raw.source), ActionErrors(c, raw.action), FlatMap(Reporter(c), raw.destinations),
               PollErrors(c, raw.poll));
      Regroup3(seen, CredentialSeen(c, raw.source.credentialId), ActionSeen(c, raw.action),
               FlatMap(Observer(c), raw.destinations));
      var typedSource := ValidateSource(c, raw.source);
      var action := ValidateAction(c, raw.action);
      var destinations := ValidateDestinations(c, raw.destinations);
      var poll := ValidatePollOverride(c, raw.poll);
      r := FlowConfig(raw.name.value, raw.enabled, raw.description, typedSource, action, destinations, poll);
    }

    /** Only a valid name takes part in duplicate detection. */
    method FileName(env: Env, source: string, raw: RawFlow)
      modifies this`errors, this`nameIndex
      ensures errors == old(errors) + NameErrors(env, source, raw.name)
      ensures var entry := NameEntry(source)(raw);
              nameIndex == if entry == [] then old(nameIndex) else PushAt(old(nameIndex), entry[0].0, entry[0].1)
    {
      var ok := ValidateFlowName(env, source, raw.name);
      if ok {
        nameIndex := PushAt(nameIndex, raw.name.value, LineOf(source, raw.name.start));
      }
    }

    /** The name, its table, then the rest of the flow. */
    method VisitFlow(env: Env, source: string, raw: RawFlow) returns (r: FlowConfig)
      requires Indexed()
      modifies this
      ensures Indexed()
      ensures errors == old(errors) + FlowErrors(env, source, raw)
      ensures seen == old(seen) + FlowSeen(env, source, raw)
      ensures var entry := NameEntry(source)(raw);
              nameIndex == if entry == [] then old(nameIndex) else PushAt(old(nameIndex), entry[0].0, entry[0].1)
      ensures r == TypedFlow(env, raw)
    {
      var c := FlowCtx(env, source, raw);
      Regroup2(errors, NameErrors(env, source, raw.name), BodyErrors(c, raw));
      FileName(env, source, raw);
      r := ValidateFlow(c, raw);
    }

    /** One turn of the loop over the flows. */
    method NextFlow(env: Env, source: string, flows: seq<RawFlow>, i: nat, ghost e: seq<Violation>, ghost s: seq<Occurrence>)
      returns (typed: FlowConfig)
      requires Indexed() && i < |flows|
      requires errors == e + FlatMap(FlowReporter(env, source), flows[..i])
      requires seen == s + FlatMap(FlowObserver(env, source), flows[..i])
      requires nameIndex == Gather(FlatMap(NameEntry(source), flows[..i]))
      modifies this
      ensures Indexed()
      ensures errors == e + FlatMap(FlowReporter(env, source), flows[..i + 1])
      ensures seen == s + FlatMap(FlowObserver(env, source), flows[..i + 1])
      ensures nameIndex == Gather(FlatMap(NameEntry(source), flows[..i + 1]))
      ensures typed == TypedFlow(env, flows[i])
    {
      FlatMapSnoc(FlowReporter(env, source), flows, i);
      FlatMapSnoc(FlowObserver(env, source), flows, i);
      NamesSnoc(source, flows, i);
      Regroup2(e, FlatMap(FlowReporter(env, source), flows[..i]), FlowReporter(env, source)(flows[i]));
      Regroup2(s, FlatMap(FlowObserver(env, source), flows[..i]), FlowObserver(env, source)(flows[i]));
      typed := VisitFlow(env, source, flows[i]);
    }

    method VisitFlows(env: Env, source: string, flows: seq<RawFlow>) returns (typed: seq<FlowConfig>)
      requires Indexed() && nameIndex == map[]
      modifies this
      ensures Indexed()
      ensures errors == old(errors) + FlatMap(FlowReporter(env, source), flows)
      ensures seen == old(seen) + FlatMap(FlowObserver(env, source), flows)
      ensures nameIndex == Gather(FlatMap(NameEntry(source), flows))
      ensures typed == TypedFlows(env, flows)
    {
      typed := [];
      for i := 0 to |flows|
        invariant Indexed()
        invariant errors == old(errors) + FlatMap(FlowReporter(env, source), flows[..i])
        invariant seen == old(seen) + FlatMap(FlowObserver(env, source), flows[..i])
        invariant nameIndex == Gather(FlatMap(NameEntry(source), flows[..i]))
        invariant typed == TypedFlows(env, flows[..i])
      {
        var flow := NextFlow(env, source, flows, i, old(errors), old(seen));
        typed := typed + [flow];
        TypedSnoc(env, flows, i);
      }
      assert flows[..|flows|] == flows;
    }

    // -------------------------------------------------------------------
    // Cross-flow checks
    // -------------------------------------------------------------------

    method ReportDuplicate(name: string)
      requires name in nameIndex
      modifies this`errors
      ensures errors == old(errors) + DuplicateReporter(nameIndex)(name)
    {
      if |nameIndex[name]| > 1 {
        errors := errors + [Report(nameIndex[name], Some(name), FlowNameField, DuplicateName)];
      }
    }

    method ReportDuplicateNames()
      modifies this`errors
      ensures errors == old(errors) + FlatMap(DuplicateReporter(nameIndex), InOrder(nameIndex.Keys))
    {
      InOrderHolds(nameIndex.Keys);
      var order := SortKeys(nameIndex.Keys);
      for i := 0 to |order|
        invariant errors == old(errors) + FlatMap(DuplicateReporter(nameIndex), order[..i])
      {
        FlatMapSnoc(DuplicateReporter(nameIndex), order, i);
        Regroup2(old(errors), FlatMap(DuplicateReporter(nameIndex), order[..i]), DuplicateReporter(nameIndex)(order[i]));
        assert order[i] in order;
        ReportDuplicate(order[i]);
      }
      assert order[..|order|] == order;
    }

    method ReportCollision(env: string)
      requires env in envVarIndex
      modifies this`errors
      ensures errors == old(errors) + CollisionReporter(envVarIndex)(env)
    {
      var occurrences := envVarIndex[env];
      var distinctIds := set o | o in occurrences :: o.id;
      ManyIdsIff(occurrences, distinctIds);
      if |distinctIds| > 1 {
        var ids := SortKeys(distinctIds);
        errors := errors + [Report(SortDedup(OccurrenceLines(occurrences)), None, CredentialIds, SameVariable(env, ids))];
      }
    }

    method ReportCollisions()
      modifies this`errors
      ensures errors == old(errors) + FlatMap(CollisionReporter(envVarIndex), InOrder(envVarIndex.Keys))
    {
      InOrderHolds(envVarIndex.Keys);
      var order := SortKeys(envVarIndex.Keys);
      for i := 0 to |order|
        invariant errors == old(errors) + FlatMap(CollisionReporter(envVarIndex), order[..i])
      {
        FlatMapSnoc(CollisionReporter(envVarIndex), order, i);
        Regroup2(old(errors), FlatMap(CollisionReporter(envVarIndex), order[..i]), CollisionReporter(envVarIndex)(order[i]));
        assert order[i] in order;
        ReportCollision(order[i]);
      }
      assert order[..|order|] == order;
    }

    method SortCredentialLines()
      modifies this`credentialLines
      ensures credentialLines == SortedLines(old(credentialLines))
    {
      credentialLines := map id | id in credentialLines :: SortDedup(credentialLines[id]);
    }
  }

  function SortedLines(lines: map<string, seq<nat>>): map<string, seq<nat>> {
    map id | id in lines :: SortDedup(lines[id])
  }

  // ---------------------------------------------------------------------
  // Bookkeeping lemmas
  // ---------------------------------------------------------------------

  lemma IndexSnoc(seen: seq<Occurrence>, o: Occurrence)
    ensures Gather(EnvEntries(seen + [o])) == PushAt(Gather(EnvEntries(seen)), IdToEnv(o.id), o)
    ensures Gather(LineEntries(seen + [o])) == PushAt(Gather(LineEntries(seen)), o.id, o.line)
  {
    assert EnvEntries(seen + [o]) == EnvEntries(seen) + [(IdToEnv(o.id), o)];
    assert LineEntries(seen + [o]) == LineEntries(seen) + [(o.id, o.line)];
    GatherSnoc(EnvEntries(seen), IdToEnv(o.id), o);
    GatherSnoc(LineEntries(seen), o.id, o.line);
  }

  lemma NamesSnoc(source: string, flows: seq<RawFlow>, i: nat)
    requires i < |flows|
    ensures var before, entry := Gather(FlatMap(NameEntry(source), flows[..i])), NameEntry(source)(flows[i]);
            Gather(FlatMap(NameEntry(source), flows[..i + 1]))
            == if entry == [] then before else PushAt(before, entry[0].0, entry[0].1)
  {
    var entry := NameEntry(source)(flows[i]);
    var before := FlatMap(NameEntry(source), flows[..i]);
    FlatMapSnoc(NameEntry(source), flows, i);
    if entry == [] {
      assert before + entry == before;
    } else {
      assert entry == [(entry[0].0, entry[0].1)];
      GatherSnoc(before, entry[0].0, entry[0].1);
    }
  }

  lemma TypedSnoc(env: Env, flows: seq<RawFlow>, i: nat)
    requires i < |flows|
    ensures TypedFlows(env, flows[..i + 1]) == TypedFlows(env, flows[..i]) + [TypedFlow(env, flows[i])]
  {
  }

  lemma DispatchReports(c: Ctx, raw: RawAction, e: seq<Violation>)
    ensures var a := Required(c, raw.kind, raw.repo, ActionRepo)
                     + Required(c, raw.kind, raw.workflow, ActionWorkflow)
                     + Required(c, raw.kind, raw.refName, ActionRef);
            var b := RepoErrors(c, raw.repo) + WorkflowErrors(c, raw.workflow) + ActionRefErrors(c, raw.refName);
            var d := RequiredCredentialErrors(c, raw.kind, raw.credentialId, ActionCredential, ActionCredential);
            var f := When(GCIT_RUN_ID_INPUT in raw.inputs, At(c, raw.kind, ActionInputs, InjectedInput));
            e + a + b + d + f == e + DispatchErrors(c, raw)
  {
    var a := Required(c, raw.kind, raw.repo, ActionRepo)
             + Required(c, raw.kind, raw.workflow, ActionWorkflow)
             + Required(c, raw.kind, raw.refName, ActionRef);
    var b := RepoErrors(c, raw.repo) + WorkflowErrors(c, raw.workflow) + ActionRefErrors(c, raw.refName);
    Regroup4(e, a, b, RequiredCredentialErrors(c, raw.kind, raw.credentialId, ActionCredential, ActionCredential),
             When(GCIT_RUN_ID_INPUT in raw.inputs, At(c, raw.kind, ActionInputs, InjectedInput)));
  }

  lemma Regroup5<T>(s: seq<T>, a: seq<T>, b: seq<T>, c: seq<T>, d: seq<T>, e: seq<T>)
    ensures s + a + b + c + d + e == s + (a + b + c + d + e)
  {
  }
}
