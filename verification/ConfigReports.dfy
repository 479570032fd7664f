// Where the reports of a flow point (src/config/validate): each stands at the line of one of the
// flow's own spans, and all of them move together with the text in front of the flow.

module ConfigReports {
  import opened Prelude
  import opened ConfigModel
  import opened CredentialId
  import opened ConfigRules

  // ---------------------------------------------------------------------
  // The spans of a flow
  // ---------------------------------------------------------------------

  function Given<T>(value: Option<Spanned<T>>): set<nat> {
    if value.Some? then {value.value.start} else {}
  }

  function SourceSpans(raw: RawSource): set<nat> {
    {raw.url.start, raw.refName.start} + Given(raw.credentialId)
  }

  function ActionSpans(raw: RawAction): set<nat> {
    {raw.kind.start} + Given(raw.repo) + Given(raw.workflow) + Given(raw.refName) + Given(raw.credentialId)
  }

  function EventSpans(fireOn: Option<seq<Spanned<FireEvent>>>): set<nat> {
    if fireOn.Some? then set e | e in fireOn.value :: e.start else {}
  }

  function TemplateSpans(t: RawTemplate): set<nat> {
    Given(t.title) + Given(t.description) + Given(t.fieldName) + Given(t.fieldValue) + Given(t.collapsedSummary)
    + Given(t.subject) + Given(t.body)
  }

  function DestinationSpans(d: RawDestination): set<nat> {
    {d.kind.start} + Given(d.credentialId) + Given(d.user) + EventSpans(d.fireOn) + TemplateSpans(d.template)
  }

  function PollSpans(raw: RawPoll): set<nat> {
    Given(raw.sourceInterval) + Given(raw.jobInterval) + Given(raw.jitter) + Given(raw.cooldown)
  }

  function FlowSpans(raw: RawFlow): set<nat> {
    {raw.name.start} + SourceSpans(raw.source) + ActionSpans(raw.action)
    + (set d, o | d in raw.destinations && o in DestinationSpans(d) :: o) + PollSpans(raw.poll)
  }

  // ---------------------------------------------------------------------
  // The same flow further down a text
  // ---------------------------------------------------------------------

  function Later<T>(s: Spanned<T>, off: nat): Spanned<T> {
    Spanned(s.value, s.start + off)
  }

  function LaterIf<T>(value: Option<Spanned<T>>, off: nat): Option<Spanned<T>> {
    if value.Some? then Some(Later(value.value, off)) else None
  }

  function LaterSource(raw: RawSource, off: nat): RawSource {
    RawSource(Later(raw.url, off), Later(raw.refName, off), LaterIf(raw.credentialId, off))
  }

  function LaterAction(raw: RawAction, off: nat): RawAction {
    RawAction(Later(raw.kind, off), LaterIf(raw.repo, off), LaterIf(raw.workflow, off), LaterIf(raw.refName, off),
              LaterIf(raw.credentialId, off), raw.inputs)
  }

  function LaterEvents(events: seq<Spanned<FireEvent>>, off: nat): (r: seq<Spanned<FireEvent>>)
    ensures |r| == |events| && forall i :: 0 <= i < |r| ==> r[i] == Later(events[i], off)
  {
    seq(|events|, i requires 0 <= i < |events| => Later(events[i], off))
  }

  function LaterFire(fireOn: Option<seq<Spanned<FireEvent>>>, off: nat): Option<seq<Spanned<FireEvent>>> {
    if fireOn.Some? then Some(LaterEvents(fireOn.value, off)) else None
  }

  function LaterTemplate(t: RawTemplate, off: nat): RawTemplate {
    RawTemplate(LaterIf(t.title, off), LaterIf(t.description, off), LaterIf(t.fieldName, off), LaterIf(t.fieldValue, off),
                LaterIf(t.collapsedSummary, off), LaterIf(t.subject, off), LaterIf(t.body, off))
  }

  function LaterDestination(d: RawDestination, off: nat): RawDestination {
    RawDestination(Later(d.kind, off), LaterIf(d.credentialId, off), LaterIf(d.user, off), LaterFire(d.fireOn, off),
                   LaterTemplate(d.template, off))
  }

  function LaterDestinations(ds: seq<RawDestination>, off: nat): (r: seq<RawDestination>)
    ensures |r| == |ds| && forall i :: 0 <= i < |r| ==> r[i] == LaterDestination(ds[i], off)
  {
    seq(|ds|, i requires 0 <= i < |ds| => LaterDestination(ds[i], off))
  }

  function LaterPoll(raw: RawPoll, off: nat): RawPoll {
    RawPoll(LaterIf(raw.sourceInterval, off), LaterIf(raw.jobInterval, off), LaterIf(raw.jitter, off), LaterIf(raw.cooldown, off))
  }

  /** The flow with every span `off` bytes further on. */
  function LaterFlow(raw: RawFlow, off: nat): RawFlow {
    RawFlow(Later(raw.name, off), raw.enabled, raw.description, LaterSource(raw.source, off), LaterAction(raw.action, off),
            LaterDestinations(raw.destinations, off), LaterPoll(raw.poll, off))
  }

  // ---------------------------------------------------------------------
  // Reports here and there correspond
  // ---------------------------------------------------------------------

  /** Two texts in which the same flow stands, there `off` bytes further on. */
  datatype Move = Move(here: Ctx, there: Ctx, off: nat)

  type SameFlow = m: Move | m.there.env == m.here.env && m.there.flow == m.here.flow
    witness Move(Ctx(Env(_ => None, _ => None, _ => Accepted), "", None), Ctx(Env(_ => None, _ => None, _ => Accepted), "", None), 0)

  /**
   * Both reports have one line, that of one and the same span of `spans`, and are otherwise equal. They
   * are not about the flow's name, and they name the flow unless they are about an unparsable duration.
   */
  ghost predicate Pair(m: SameFlow, spans: set<nat>, v: Violation, v': Violation) {
    && (exists o :: o in spans && v.lines == [LineOf(m.here.source, o)] && v'.lines == [LineOf(m.there.source, o + m.off)])
    && v' == v.(lines := v'.lines)
    && v.field != FlowNameField
    && v.flow == if v.rule.BadDuration? then None else m.here.flow
  }

  ghost predicate Pairs(m: SameFlow, spans: set<nat>, vs: seq<Violation>, vs': seq<Violation>) {
    |vs| == |vs'| && forall i :: 0 <= i < |vs| ==> Pair(m, spans, vs[i], vs'[i])
  }

  lemma AtPair<T>(m: SameFlow, s: Spanned<T>, field: Field, rule: Rule, spans: set<nat>)
    requires s.start in spans && field != FlowNameField && !rule.BadDuration?
    ensures Pair(m, spans, At(m.here, s, field, rule), At(m.there, Later(s, m.off), field, rule))
  {
    assert s.start in spans;
  }

  lemma UnparsedPair(m: SameFlow, s: Spanned<string>, field: Field, spans: set<nat>)
    requires s.start in spans && field != FlowNameField
    ensures Pair(m, spans, Unparsed(m.here, s, field), Unparsed(m.there, Later(s, m.off), field))
  {
    assert s.start in spans;
  }

  lemma JoinPairs(m: SameFlow, spans: set<nat>, a: seq<Violation>, a': seq<Violation>, b: seq<Violation>, b': seq<Violation>)
    requires Pairs(m, spans, a, a') && Pairs(m, spans, b, b')
    ensures Pairs(m, spans, a + b, a' + b')
  {
  }

  lemma {:induction false} FlatMapPairs<A>(m: SameFlow, spans: set<nat>, f: A -> seq<Violation>, g: A -> seq<Violation>, s: seq<A>, t: seq<A>)
    requires |s| == |t| && forall i :: 0 <= i < |s| ==> Pairs(m, spans, f(s[i]), g(t[i]))
    ensures Pairs(m, spans, FlatMap(f, s), FlatMap(g, t))
  {
    if s != [] {
      var n := |s| - 1;
      FlatMapPairs(m, spans, f, g, s[..n], t[..n]);
      JoinPairs(m, spans, FlatMap(f, s[..n]), FlatMap(g, t[..n]), f(s[n]), g(t[n]));
    }
  }

  lemma CredentialPairs(m: SameFlow, id: Option<Spanned<string>>, field: Field, spans: set<nat>)
    requires Given(id) <= spans && field != FlowNameField
    ensures Pairs(m, spans, CredentialErrors(m.here, id, field), CredentialErrors(m.there, LaterIf(id, m.off), field))
  {
    if id.Some? && !Usable(id) {
      AtPair(m, id.value, field, BadId(ValidateIdStr(id.value.value).value), spans);
    }
  }

  lemma UrlPairs(m: SameFlow, url: Spanned<string>, spans: set<nat>)
    requires url.start in spans
    ensures Pairs(m, spans, UrlErrors(m.here, url), UrlErrors(m.there, Later(url, m.off)))
  {
    AtPair(m, url, SourceUrl, BadUrl, spans);
    AtPair(m, url, SourceUrl, BadScheme, spans);
  }

  lemma WhenPairs<T>(m: SameFlow, bad: bool, s: Spanned<T>, field: Field, rule: Rule, spans: set<nat>)
    requires s.start in spans && field != FlowNameField && !rule.BadDuration?
    ensures Pairs(m, spans, When(bad, At(m.here, s, field, rule)), When(bad, At(m.there, Later(s, m.off), field, rule)))
  {
    AtPair(m, s, field, rule, spans);
  }

  lemma SourcePairs(m: SameFlow, raw: RawSource, spans: set<nat>)
    requires SourceSpans(raw) <= spans
    ensures Pairs(m, spans, SourceErrors(m.here, raw), SourceErrors(m.there, LaterSource(raw, m.off)))
  {
    var raw' := LaterSource(raw, m.off);
    UrlPairs(m, raw.url, spans);
    WhenPairs(m, !IsRef(raw.refName.value), raw.refName, SourceRef, NoRefsPrefix, spans);
    CredentialPairs(m, raw.credentialId, SourceCredential, spans);
    var a, a' := UrlErrors(m.here, raw.url), UrlErrors(m.there, raw'.url);
    var b := When(!IsRef(raw.refName.value), At(m.here, raw.refName, SourceRef, NoRefsPrefix));
    var b' := When(!IsRef(raw'.refName.value), At(m.there, raw'.refName, SourceRef, NoRefsPrefix));
    JoinPairs(m, spans, a, a', b, b');
    JoinPairs(m, spans, a + b, a' + b', CredentialErrors(m.here, raw.credentialId, SourceCredential),
              CredentialErrors(m.there, raw'.credentialId, SourceCredential));
  }

  lemma RequiredPairs(m: SameFlow, kind: Spanned<string>, value: Option<Spanned<string>>, field: Field, spans: set<nat>)
    requires kind.start in spans && field != FlowNameField
    ensures Pairs(m, spans, Required(m.here, kind, value, field),
                  Required(m.there, Later(kind, m.off), LaterIf(value, m.off), field))
  {
    AtPair(m, kind, field, Missing, spans);
  }

  lemma RequiredCredentialPairs(m: SameFlow, kind: Spanned<string>, id: Option<Spanned<string>>, missing: Field, field: Field, spans: set<nat>)
    requires kind.start in spans && Given(id) <= spans && missing != FlowNameField && field != FlowNameField
    ensures Pairs(m, spans, RequiredCredentialErrors(m.here, kind, id, missing, field),
                  RequiredCredentialErrors(m.there, Later(kind, m.off), LaterIf(id, m.off), missing, field))
  {
    AtPair(m, kind, missing, Missing, spans);
    CredentialPairs(m, id, field, spans);
  }

  lemma PresencePairs(m: SameFlow, raw: RawAction, spans: set<nat>)
    requires ActionSpans(raw) <= spans
    ensures var raw' := LaterAction(raw, m.off);
            Pairs(m, spans,
                  Required(m.here, raw.kind, raw.repo, ActionRepo) + Required(m.here, raw.kind, raw.workflow, ActionWorkflow)
                  + Required(m.here, raw.kind, raw.refName, ActionRef),
                  Required(m.there, raw'.kind, raw'.repo, ActionRepo) + Required(m.there, raw'.kind, raw'.workflow, ActionWorkflow)
                  + Required(m.there, raw'.kind, raw'.refName, ActionRef))
  {
    var raw' := LaterAction(raw, m.off);
    RequiredPairs(m, raw.kind, raw.repo, ActionRepo, spans);
    RequiredPairs(m, raw.kind, raw.workflow, ActionWorkflow, spans);
    RequiredPairs(m, raw.kind, raw.refName, ActionRef, spans);
    var a, a' := Required(m.here, raw.kind, raw.repo, ActionRepo), Required(m.there, raw'.kind, raw'.repo, ActionRepo);
    var b, b' := Required(m.here, raw.kind, raw.workflow, ActionWorkflow), Required(m.there, raw'.kind, raw'.workflow, ActionWorkflow);
    JoinPairs(m, spans, a, a', b, b');
    JoinPairs(m, spans, a + b, a' + b', Required(m.here, raw.kind, raw.refName, ActionRef),
              Required(m.there, raw'.kind, raw'.refName, ActionRef));
  }

  lemma RepoPairs(m: SameFlow, repo: Option<Spanned<string>>, spans: set<nat>)
    requires Given(repo) <= spans
    ensures Pairs(m, spans, RepoErrors(m.here, repo), RepoErrors(m.there, LaterIf(repo, m.off)))
  {
    if repo.Some? {
      WhenPairs(m, !RepoAccepted(repo.value.value), repo.value, ActionRepo, BadRepo, spans);
    }
  }

  lemma WorkflowPairs(m: SameFlow, workflow: Option<Spanned<string>>, spans: set<nat>)
    requires Given(workflow) <= spans
    ensures Pairs(m, spans, WorkflowErrors(m.here, workflow), WorkflowErrors(m.there, LaterIf(workflow, m.off)))
  {
    if workflow.Some? {
      AtPair(m, workflow.value, ActionWorkflow, EmptyWorkflow, spans);
      AtPair(m, workflow.value, ActionWorkflow, PathInWorkflow, spans);
    }
  }

  lemma ActionRefPairs(m: SameFlow, refName: Option<Spanned<string>>, spans: set<nat>)
    requires Given(refName) <= spans
    ensures Pairs(m, spans, ActionRefErrors(m.here, refName), ActionRefErrors(m.there, LaterIf(refName, m.off)))
  {
    if refName.Some? {
      WhenPairs(m, !IsRef(refName.value.value), refName.value, ActionRef, NoRefsPrefix, spans);
    }
  }

  lemma ShapePairs(m: SameFlow, raw: RawAction, spans: set<nat>)
    requires ActionSpans(raw) <= spans
    ensures var raw' := LaterAction(raw, m.off);
            Pairs(m, spans, RepoErrors(m.here, raw.repo) + WorkflowErrors(m.here, raw.workflow) + ActionRefErrors(m.here, raw.refName),
                  RepoErrors(m.there, raw'.repo) + WorkflowErrors(m.there, raw'.workflow) + ActionRefErrors(m.there, raw'.refName))
  {
    var raw' := LaterAction(raw, m.off);
    RepoPairs(m, raw.repo, spans);
    WorkflowPairs(m, raw.workflow, spans);
    ActionRefPairs(m, raw.refName, spans);
    var a, a' := RepoErrors(m.here, raw.repo), RepoErrors(m.there, raw'.repo);
    var b, b' := WorkflowErrors(m.here, raw.workflow), WorkflowErrors(m.there, raw'.workflow);
    JoinPairs(m, spans, a, a', b, b');
    JoinPairs(m, spans, a + b, a' + b', ActionRefErrors(m.here, raw.refName), ActionRefErrors(m.there, raw'.refName));
  }

  lemma Join4Pairs(m: SameFlow, spans: set<nat>, a: seq<Violation>, a': seq<Violation>, b: seq<Violation>, b': seq<Violation>,
                   c: seq<Violation>, c': seq<Violation>, d: seq<Violation>, d': seq<Violation>)
    requires Pairs(m, spans, a, a') && Pairs(m, spans, b, b') && Pairs(m, spans, c, c') && Pairs(m, spans, d, d')
    ensures Pairs(m, spans, a + b + c + d, a' + b' + c' + d')
  {
    JoinPairs(m, spans, a, a', b, b');
    JoinPairs(m, spans, a + b, a' + b', c, c');
    JoinPairs(m, spans, a + b + c, a' + b' + c', d, d');
  }

  lemma DispatchPairs(m: SameFlow, raw: RawAction, spans: set<nat>)
    requires ActionSpans(raw) <= spans
    ensures Pairs(m, spans, DispatchErrors(m.here, raw), DispatchErrors(m.there, LaterAction(raw, m.off)))
  {
    var raw' := LaterAction(raw, m.off);
    PresencePairs(m, raw, spans);
    ShapePairs(m, raw, spans);
    RequiredCredentialPairs(m, raw.kind, raw.credentialId, ActionCredential, ActionCredential, spans);
    AtPair(m, raw.kind, ActionInputs, InjectedInput, spans);
    Join4Pairs(m, spans,
               Required(m.here, raw.kind, raw.repo, ActionRepo) + Required(m.here, raw.kind, raw.workflow, ActionWorkflow)
               + Required(m.here, raw.kind, raw.refName, ActionRef),
               Required(m.there, raw'.kind, raw'.repo, ActionRepo) + Required(m.there, raw'.kind, raw'.workflow, ActionWorkflow)
               + Required(m.there, raw'.kind, raw'.refName, ActionRef),
               RepoErrors(m.here, raw.repo) + WorkflowErrors(m.here, raw.workflow) + ActionRefErrors(m.here, raw.refName),
               RepoErrors(m.there, raw'.repo) + WorkflowErrors(m.there, raw'.workflow) + ActionRefErrors(m.there, raw'.refName),
               RequiredCredentialErrors(m.here, raw.kind, raw.credentialId, ActionCredential, ActionCredential),
               RequiredCredentialErrors(m.there, raw'.kind, raw'.credentialId, ActionCredential, ActionCredential),
               When(GCIT_RUN_ID_INPUT in raw.inputs, At(m.here, raw.kind, ActionInputs, InjectedInput)),
               When(GCIT_RUN_ID_INPUT in raw'.inputs, At(m.there, raw'.kind, ActionInputs, InjectedInput)));
  }

  lemma ActionPairs(m: SameFlow, raw: RawAction, spans: set<nat>)
    requires ActionSpans(raw) <= spans
    ensures Pairs(m, spans, ActionErrors(m.here, raw), ActionErrors(m.there, LaterAction(raw, m.off)))
  {
    if raw.kind.value == DISPATCH_KIND {
      DispatchPairs(m, raw, spans);
    } else {
      AtPair(m, raw.kind, ActionKind, UnknownKind, spans);
    }
  }

  lemma {:induction false} DedupedLater(events: seq<Spanned<FireEvent>>, off: nat)
    ensures Deduped(LaterEvents(events, off)) == Deduped(events)
  {
    if events != [] {
      var n := |events| - 1;
      DedupedLater(events[..n], off);
      assert LaterEvents(events, off)[..n] == LaterEvents(events[..n], off);
    }
  }

  lemma {:induction false} RepeatPairs(m: SameFlow, events: seq<Spanned<FireEvent>>, field: Field, spans: set<nat>)
    requires (forall i :: 0 <= i < |events| ==> events[i].start in spans) && field != FlowNameField
    ensures Pairs(m, spans, RepeatErrors(m.here, events, field), RepeatErrors(m.there, LaterEvents(events, m.off), field))
  {
    if events != [] {
      var n := |events| - 1;
      var init, init' := events[..n], LaterEvents(events, m.off)[..n];
      assert init' == LaterEvents(init, m.off);
      RepeatPairs(m, init, field, spans);
      DedupedLater(init, m.off);
      AtPair(m, events[n], field, RepeatedEvent, spans);
      JoinPairs(m, spans, RepeatErrors(m.here, init, field), RepeatErrors(m.there, init', field),
                When(events[n].value in Deduped(init), At(m.here, events[n], field, RepeatedEvent)),
                When(events[n].value in Deduped(init'), At(m.there, Later(events[n], m.off), field, RepeatedEvent)));
    }
  }

  lemma FirePairs(m: SameFlow, fireOn: Option<seq<Spanned<FireEvent>>>, field: Field, spans: set<nat>)
    requires EventSpans(fireOn) <= spans && field != FlowNameField
    ensures Pairs(m, spans, FireErrors(m.here, fireOn, field), FireErrors(m.there, LaterFire(fireOn, m.off), field))
  {
    if fireOn.Some? {
      forall i | 0 <= i < |fireOn.value|
        ensures fireOn.value[i].start in spans
      {
        assert fireOn.value[i] in fireOn.value;
      }
      RepeatPairs(m, fireOn.value, field, spans);
    }
  }

  lemma ForeignPairs(m: SameFlow, value: Option<Spanned<string>>, field: Field, spans: set<nat>)
    requires Given(value) <= spans && field != FlowNameField
    ensures Pairs(m, spans, Foreign(m.here, value, field), Foreign(m.there, LaterIf(value, m.off), field))
  {
    if value.Some? {
      AtPair(m, value.value, field, WrongKind, spans);
    }
  }

  lemma TemplatePairs(m: SameFlow, value: Option<Spanned<string>>, name: TemplateName, spans: set<nat>)
    requires Given(value) <= spans
    ensures Pairs(m, spans, TemplateErrors(m.here, value, name), TemplateErrors(m.there, LaterIf(value, m.off), name))
  {
    if value.Some? {
      AtPair(m, value.value, TemplateField(name), Template(m.here.env.template(value.value.value)), spans);
    }
  }

  lemma ForeignTemplatePairs(m: SameFlow, fields: seq<(TemplateName, Option<Spanned<string>>)>,
                             fields': seq<(TemplateName, Option<Spanned<string>>)>, spans: set<nat>)
    requires |fields| == |fields'| && forall i :: 0 <= i < |fields| ==>
               Given(fields[i].1) <= spans && fields'[i] == (fields[i].0, LaterIf(fields[i].1, m.off))
    ensures Pairs(m, spans, FlatMap(ForeignTemplates(m.here), fields), FlatMap(ForeignTemplates(m.there), fields'))
  {
    forall i | 0 <= i < |fields|
      ensures Pairs(m, spans, ForeignTemplates(m.here)(fields[i]), ForeignTemplates(m.there)(fields'[i]))
    {
      ForeignPairs(m, fields[i].1, TemplateField(fields[i].0), spans);
    }
    FlatMapPairs(m, spans, ForeignTemplates(m.here), ForeignTemplates(m.there), fields, fields');
  }

  lemma DiscordFieldPairs(m: SameFlow, t: RawTemplate, spans: set<nat>)
    requires TemplateSpans(t) <= spans
    ensures Pairs(m, spans, DiscordFieldErrors(m.here, t), DiscordFieldErrors(m.there, LaterTemplate(t, m.off)))
  {
    var t' := LaterTemplate(t, m.off);
    TemplatePairs(m, t.title, Title, spans);
    TemplatePairs(m, t.description, Description, spans);
    TemplatePairs(m, t.fieldName, FieldName, spans);
    TemplatePairs(m, t.fieldValue, FieldValue, spans);
    TemplatePairs(m, t.collapsedSummary, CollapsedSummary, spans);
    var a := TemplateErrors(m.here, t.title, Title) + TemplateErrors(m.here, t.description, Description)
             + TemplateErrors(m.here, t.fieldName, FieldName) + TemplateErrors(m.here, t.fieldValue, FieldValue);
    var a' := TemplateErrors(m.there, t'.title, Title) + TemplateErrors(m.there, t'.description, Description)
              + TemplateErrors(m.there, t'.fieldName, FieldName) + TemplateErrors(m.there, t'.fieldValue, FieldValue);
    Join4Pairs(m, spans, TemplateErrors(m.here, t.title, Title), TemplateErrors(m.there, t'.title, Title),
               TemplateErrors(m.here, t.description, Description), TemplateErrors(m.there, t'.description, Description),
               TemplateErrors(m.here, t.fieldName, FieldName), TemplateErrors(m.there, t'.fieldName, FieldName),
               TemplateErrors(m.here, t.fieldValue, FieldValue), TemplateErrors(m.there, t'.fieldValue, FieldValue));
    JoinPairs(m, spans, a, a', TemplateErrors(m.here, t.collapsedSummary, CollapsedSummary),
              TemplateErrors(m.there, t'.collapsedSummary, CollapsedSummary));
  }

  lemma DiscordTemplatePairs(m: SameFlow, t: RawTemplate, spans: set<nat>)
    requires TemplateSpans(t) <= spans
    ensures Pairs(m, spans, DiscordTemplateErrors(m.here, t), DiscordTemplateErrors(m.there, LaterTemplate(t, m.off)))
  {
    var t' := LaterTemplate(t, m.off);
    ForeignTemplatePairs(m, MailFields(t), MailFields(t'), spans);
    DiscordFieldPairs(m, t, spans);
    JoinPairs(m, spans, FlatMap(ForeignTemplates(m.here), MailFields(t)), FlatMap(ForeignTemplates(m.there), MailFields(t')),
              DiscordFieldErrors(m.here, t), DiscordFieldErrors(m.there, t'));
  }

  lemma MailTemplatePairs(m: SameFlow, t: RawTemplate, spans: set<nat>)
    requires TemplateSpans(t) <= spans
    ensures Pairs(m, spans, MailTemplateErrors(m.here, t), MailTemplateErrors(m.there, LaterTemplate(t, m.off)))
  {
    var t' := LaterTemplate(t, m.off);
    ForeignTemplatePairs(m, DiscordFields(t), DiscordFields(t'), spans);
    TemplatePairs(m, t.subject, Subject, spans);
    TemplatePairs(m, t.body, Body, spans);
    var b := TemplateErrors(m.here, t.subject, Subject) + TemplateErrors(m.here, t.body, Body);
    var b' := TemplateErrors(m.there, t'.subject, Subject) + TemplateErrors(m.there, t'.body, Body);
    JoinPairs(m, spans, TemplateErrors(m.here, t.subject, Subject), TemplateErrors(m.there, t'.subject, Subject),
              TemplateErrors(m.here, t.body, Body), TemplateErrors(m.there, t'.body, Body));
    JoinPairs(m, spans, FlatMap(ForeignTemplates(m.here), DiscordFields(t)), FlatMap(ForeignTemplates(m.there), DiscordFields(t')),
              b, b');
  }

  lemma DiscordPairs(m: SameFlow, d: RawDestination, spans: set<nat>)
    requires DestinationSpans(d) <= spans
    ensures Pairs(m, spans, DiscordErrors(m.here, d), DiscordErrors(m.there, LaterDestination(d, m.off)))
  {
    var d' := LaterDestination(d, m.off);
    ForeignPairs(m, d.user, DestinationUser, spans);
    RequiredCredentialPairs(m, d.kind, d.credentialId, DestinationCredential, DiscordCredential, spans);
    FirePairs(m, d.fireOn, DiscordFireOn, spans);
    DiscordTemplatePairs(m, d.template, spans);
    Join4Pairs(m, spans, Foreign(m.here, d.user, DestinationUser), Foreign(m.there, d'.user, DestinationUser),
               RequiredCredentialErrors(m.here, d.kind, d.credentialId, DestinationCredential, DiscordCredential),
               RequiredCredentialErrors(m.there, d'.kind, d'.credentialId, DestinationCredential, DiscordCredential),
               FireErrors(m.here, d.fireOn, DiscordFireOn), FireErrors(m.there, d'.fireOn, DiscordFireOn),
               DiscordTemplateErrors(m.here, d.template), DiscordTemplateErrors(m.there, d'.template));
  }

  lemma UserTextPairs(m: SameFlow, user: Spanned<string>, spans: set<nat>)
    requires user.start in spans
    ensures Pairs(m, spans, UserTextErrors(m.here, user), UserTextErrors(m.there, Later(user, m.off)))
  {
    var rule := TokenRule(user.value, MAX_LOCAL_MAIL_USER_LEN);
    if rule.Some? {
      AtPair(m, user, MailUser, rule.value, spans);
    }
  }

  lemma UserPairs(m: SameFlow, d: RawDestination, spans: set<nat>)
    requires DestinationSpans(d) <= spans
    ensures Pairs(m, spans, UserErrors(m.here, d), UserErrors(m.there, LaterDestination(d, m.off)))
  {
    var d' := LaterDestination(d, m.off);
    assert UserText(d') == Later(UserText(d), m.off);
    RequiredPairs(m, d.kind, d.user, DestinationUser, spans);
    UserTextPairs(m, UserText(d), spans);
    JoinPairs(m, spans, Required(m.here, d.kind, d.user, DestinationUser), Required(m.there, d'.kind, d'.user, DestinationUser),
              UserTextErrors(m.here, UserText(d)), UserTextErrors(m.there, UserText(d')));
  }

  lemma MailPairs(m: SameFlow, d: RawDestination, spans: set<nat>)
    requires DestinationSpans(d) <= spans
    ensures Pairs(m, spans, MailErrors(m.here, d), MailErrors(m.there, LaterDestination(d, m.off)))
  {
    var d' := LaterDestination(d, m.off);
    ForeignPairs(m, d.credentialId, DestinationCredential, spans);
    UserPairs(m, d, spans);
    FirePairs(m, d.fireOn, MailFireOn, spans);
    MailTemplatePairs(m, d.template, spans);
    Join4Pairs(m, spans, Foreign(m.here, d.credentialId, DestinationCredential), Foreign(m.there, d'.credentialId, DestinationCredential),
               UserErrors(m.here, d), UserErrors(m.there, d'),
               FireErrors(m.here, d.fireOn, MailFireOn), FireErrors(m.there, d'.fireOn, MailFireOn),
               MailTemplateErrors(m.here, d.template), MailTemplateErrors(m.there, d'.template));
  }

  lemma DestinationPairs(m: SameFlow, d: RawDestination, spans: set<nat>)
    requires DestinationSpans(d) <= spans
    ensures Pairs(m, spans, DestinationErrors(m.here, d), DestinationErrors(m.there, LaterDestination(d, m.off)))
  {
    if d.kind.value == DISCORD_KIND {
      DiscordPairs(m, d, spans);
    } else if d.kind.value == MAIL_KIND {
      MailPairs(m, d, spans);
    } else {
      AtPair(m, d.kind, DestinationKind, UnknownKind, spans);
    }
  }

  lemma DestinationsPairs(m: SameFlow, ds: seq<RawDestination>, spans: set<nat>)
    requires forall d :: d in ds ==> DestinationSpans(d) <= spans
    ensures Pairs(m, spans, FlatMap(Reporter(m.here), ds), FlatMap(Reporter(m.there), LaterDestinations(ds, m.off)))
  {
    var ds' := LaterDestinations(ds, m.off);
    forall i | 0 <= i < |ds|
      ensures Pairs(m, spans, Reporter(m.here)(ds[i]), Reporter(m.there)(ds'[i]))
    {
      DestinationPairs(m, ds[i], spans);
    }
    FlatMapPairs(m, spans, Reporter(m.here), Reporter(m.there), ds, ds');
  }

  lemma DurationPairs(m: SameFlow, value: Option<Spanned<string>>, field: Field, min: nat, max: nat, zeroAllowed: bool, spans: set<nat>)
    requires Given(value) <= spans && field != FlowNameField
    ensures Pairs(m, spans, DurationErrors(m.here, value, field, min, max, zeroAllowed),
                  DurationErrors(m.there, LaterIf(value, m.off), field, min, max, zeroAllowed))
  {
    if value.Some? {
      UnparsedPair(m, value.value, field, spans);
      AtPair(m, value.value, field, OutOfRange, spans);
    }
  }

  lemma JitterPairs(m: SameFlow, value: Option<Spanned<Float>>, spans: set<nat>)
    requires Given(value) <= spans
    ensures Pairs(m, spans, JitterErrors(m.here, value), JitterErrors(m.there, LaterIf(value, m.off)))
  {
    if value.Some? {
      AtPair(m, value.value, Jitter, OutOfRange, spans);
    }
  }

  lemma PollPairs(m: SameFlow, raw: RawPoll, spans: set<nat>)
    requires PollSpans(raw) <= spans
    ensures Pairs(m, spans, PollErrors(m.here, raw), PollErrors(m.there, LaterPoll(raw, m.off)))
  {
    var raw' := LaterPoll(raw, m.off);
    DurationPairs(m, raw.sourceInterval, SourceInterval, MIN_INTERVAL, MAX_INTERVAL, false, spans);
    DurationPairs(m, raw.jobInterval, JobInterval, MIN_INTERVAL, MAX_INTERVAL, false, spans);
    JitterPairs(m, raw.jitter, spans);
    DurationPairs(m, raw.cooldown, Cooldown, MIN_INTERVAL, MAX_INTERVAL, true, spans);
    Join4Pairs(m, spans, DurationErrors(m.here, raw.sourceInterval, SourceInterval, MIN_INTERVAL, MAX_INTERVAL, false),
               DurationErrors(m.there, raw'.sourceInterval, SourceInterval, MIN_INTERVAL, MAX_INTERVAL, false),
               DurationErrors(m.here, raw.jobInterval, JobInterval, MIN_INTERVAL, MAX_INTERVAL, false),
               DurationErrors(m.there, raw'.jobInterval, JobInterval, MIN_INTERVAL, MAX_INTERVAL, false),
               JitterErrors(m.here, raw.jitter), JitterErrors(m.there, raw'.jitter),
               DurationErrors(m.here, raw.cooldown, Cooldown, MIN_INTERVAL, MAX_INTERVAL, true),
               DurationErrors(m.there, raw'.cooldown, Cooldown, MIN_INTERVAL, MAX_INTERVAL, true));
  }

  lemma SpansOfDestinations(raw: RawFlow)
    ensures forall d :: d in raw.destinations ==> DestinationSpans(d) <= FlowSpans(raw)
  {
  }

  lemma BodyPairs(m: SameFlow, raw: RawFlow)
    ensures Pairs(m, FlowSpans(raw), BodyErrors(m.here, raw), BodyErrors(m.there, LaterFlow(raw, m.off)))
  {
    var raw', spans := LaterFlow(raw, m.off), FlowSpans(raw);
    SpansOfDestinations(raw);
    SourcePairs(m, raw.source, spans);
    ActionPairs(m, raw.action, spans);
    DestinationsPairs(m, raw.destinations, spans);
    PollPairs(m, raw.poll, spans);
    Join4Pairs(m, spans, SourceErrors(m.here, raw.source), SourceErrors(m.there, raw'.source),
               ActionErrors(m.here, raw.action), ActionErrors(m.there, raw'.action),
               FlatMap(Reporter(m.here), raw.destinations), FlatMap(Reporter(m.there), raw'.destinations),
               PollErrors(m.here, raw.poll), PollErrors(m.there, raw'.poll));
  }

  // ---------------------------------------------------------------------
  // Where reports stand and what they name
  // ---------------------------------------------------------------------

  /** The report of an empty flow name. */
  predicate AboutEmptyName(v: Violation) {
    v.field == FlowNameField && v.rule == EmptyText
  }

  /**
   * Every report of a flow has one line, that of one of the flow's own spans. It names the flow exactly
   * when it is about neither an empty name nor a duration that does not parse; otherwise it names none.
   */
  lemma FlowReportsLocated(env: Env, source: string, raw: RawFlow, v: Violation)
    requires v in FlowErrors(env, source, raw)
    ensures exists o :: o in FlowSpans(raw) && v.lines == [LineOf(source, o)]
    ensures v.flow == if v.rule.BadDuration? || AboutEmptyName(v) then None else Some(raw.name.value)
  {
    var c := FlowCtx(env, source, raw);
    if v in NameErrors(env, source, raw.name) {
      assert raw.name.start in FlowSpans(raw);
    } else {
      BodyPairs(Move(c, c, 0), raw);
      assert v in BodyErrors(c, raw);
      var i :| 0 <= i < |BodyErrors(c, raw)| && BodyErrors(c, raw)[i] == v;
      assert Pair(Move(c, c, 0), FlowSpans(raw), BodyErrors(c, raw)[i], BodyErrors(c, LaterFlow(raw, 0))[i]);
    }
  }

  /** Which duration of the poll table. */
  predicate IsDuration(raw: RawPoll, s: Spanned<string>, field: Field) {
    || (field == SourceInterval && raw.sourceInterval == Some(s))
    || (field == JobInterval && raw.jobInterval == Some(s))
    || (field == Cooldown && raw.cooldown == Some(s))
  }

  /** Each duration of a flow that does not parse is reported at its line without the flow, whatever the flow is called. */
  lemma UnparsableNamesNoFlow(env: Env, source: string, raw: RawFlow, s: Spanned<string>, field: Field)
    requires IsDuration(raw.poll, s, field) && env.duration(s.value).None?
    ensures Report([LineOf(source, s.start)], None, field, BadDuration) in FlowErrors(env, source, raw)
  {
    var c := FlowCtx(env, source, raw);
    var v := Unparsed(c, s, field);
    assert v in PollErrors(c, raw.poll);
    assert FlowErrors(env, source, raw) == NameErrors(env, source, raw.name) + BodyErrors(c, raw);
  }

  // ---------------------------------------------------------------------
  // Lines move only with the text in front
  // ---------------------------------------------------------------------

  lemma {:induction false} NewlinesJoin(a: string, b: string)
    ensures Newlines(a + b) == Newlines(a) + Newlines(b)
    decreases |b|
  {
    if b == "" {
      assert a + b == a;
    } else {
      assert (a + b)[..|a + b| - 1] == a + b[..|b| - 1];
      NewlinesJoin(a, b[..|b| - 1]);
    }
  }

  /** A span inside a stretch of text is as many lines further down as the text in front has newlines, whatever follows. */
  lemma LineShifts(before: string, text: string, after: string, offset: nat)
    requires offset <= |text|
    ensures LineOf(before + text + after, |before| + offset) == Newlines(before) + LineOf(text, offset)
  {
    var whole := before + text + after;
    assert whole[..|before| + offset] == before + text[..offset];
    NewlinesJoin(before, text[..offset]);
  }

  /** The report, so many lines further down. */
  function Down(off: nat): Violation -> Violation {
    (v: Violation) => v.(lines := Map((line: nat) => off + line, v.lines))
  }

  /** Every span there is `n` lines below where it is here. */
  ghost predicate Shifts(here: string, there: string, off: nat, n: nat, spans: set<nat>) {
    forall o :: o in spans ==> LineOf(there, o + off) == n + LineOf(here, o)
  }

  lemma TextShifts(before: string, text: string, after: string, spans: set<nat>)
    requires forall o :: o in spans ==> o <= |text|
    ensures Shifts(text, before + text + after, |before|, Newlines(before), spans)
  {
    forall o | o in spans
      ensures LineOf(before + text + after, o + |before|) == Newlines(before) + LineOf(text, o)
    {
      LineShifts(before, text, after, o);
    }
  }

  lemma PairMoves(m: SameFlow, n: nat, spans: set<nat>, v: Violation, v': Violation)
    requires Shifts(m.here.source, m.there.source, m.off, n, spans) && Pair(m, spans, v, v')
    ensures v' == Down(n)(v)
  {
    assert v'.lines == Down(n)(v).lines;
  }

  lemma PairsMove(m: SameFlow, n: nat, spans: set<nat>, vs: seq<Violation>, vs': seq<Violation>)
    requires Shifts(m.here.source, m.there.source, m.off, n, spans) && Pairs(m, spans, vs, vs')
    ensures vs' == Map(Down(n), vs)
  {
    forall i | 0 <= i < |vs|
      ensures vs'[i] == Map(Down(n), vs)[i]
    {
      PairMoves(m, n, spans, vs[i], vs'[i]);
    }
  }

  lemma NameMoves(env: Env, here: string, there: string, off: nat, n: nat, name: Spanned<string>)
    requires LineOf(there, name.start + off) == n + LineOf(here, name.start)
    ensures NameErrors(env, there, Later(name, off)) == Map(Down(n), NameErrors(env, here, name))
  {
    var vs, vs' := NameErrors(env, here, name), NameErrors(env, there, Later(name, off));
    if vs != [] {
      assert vs'[0].lines == Down(n)(vs[0]).lines;
    }
  }

  lemma BodyMoves(m: SameFlow, n: nat, raw: RawFlow)
    requires Shifts(m.here.source, m.there.source, m.off, n, FlowSpans(raw))
    ensures BodyErrors(m.there, LaterFlow(raw, m.off)) == Map(Down(n), BodyErrors(m.here, raw))
  {
    BodyPairs(m, raw);
    PairsMove(m, n, FlowSpans(raw), BodyErrors(m.here, raw), BodyErrors(m.there, LaterFlow(raw, m.off)));
  }

  lemma FlowBodyMoves(env: Env, here: string, there: string, off: nat, n: nat, raw: RawFlow)
    requires Shifts(here, there, off, n, FlowSpans(raw))
    ensures BodyErrors(FlowCtx(env, there, LaterFlow(raw, off)), LaterFlow(raw, off))
            == Map(Down(n), BodyErrors(FlowCtx(env, here, raw), raw))
  {
    BodyMoves(Move(FlowCtx(env, here, raw), FlowCtx(env, there, LaterFlow(raw, off)), off), n, raw);
  }

  lemma NameSpan(raw: RawFlow)
    ensures raw.name.start in FlowSpans(raw)
  {
  }

  lemma JoinMoved(n: nat, a: seq<Violation>, b: seq<Violation>, a': seq<Violation>, b': seq<Violation>)
    requires a' == Map(Down(n), a) && b' == Map(Down(n), b)
    ensures a' + b' == Map(Down(n), a + b)
  {
    MapAppend(Down(n), a, b);
  }

  /** In any two texts whose lines differ by `n` at its spans, a flow is reported alike, `n` lines further down. */
  lemma FlowErrorsMove(env: Env, here: string, there: string, off: nat, n: nat, raw: RawFlow, raw': RawFlow)
    requires Shifts(here, there, off, n, FlowSpans(raw)) && raw' == LaterFlow(raw, off)
    ensures FlowErrors(env, there, raw') == Map(Down(n), FlowErrors(env, here, raw))
  {
    NameSpan(raw);
    NameMoves(env, here, there, off, n, raw.name);
    FlowBodyMoves(env, here, there, off, n, raw);
    JoinMoved(n, NameErrors(env, here, raw.name), BodyErrors(FlowCtx(env, here, raw), raw),
              NameErrors(env, there, raw'.name), BodyErrors(FlowCtx(env, there, raw'), raw'));
  }

  /**
   * The same flow with any other text in front and behind is reported for the same things in the same
   * order, every line moved by exactly the newlines in front.
   */
  lemma FlowReportsMove(env: Env, before: string, text: string, after: string, raw: RawFlow)
    requires forall o :: o in FlowSpans(raw) ==> o <= |text|
    ensures FlowErrors(env, before + text + after, LaterFlow(raw, |before|))
            == Map(Down(Newlines(before)), FlowErrors(env, text, raw))
  {
    TextShifts(before, text, after, FlowSpans(raw));
    FlowErrorsMove(env, text, before + text + after, |before|, Newlines(before), raw, LaterFlow(raw, |before|));
  }
}
