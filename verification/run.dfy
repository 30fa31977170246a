/** What holds of every state the run reaches: no step reads a context
    field before the step that assigns it has completed, the requests go
    out in the scenario's order, the side-by-side steps write nothing, and
    ITI-68 fetches the first and the last Binary references of the ITI-65
    reply. */
module RunFacts {
  import opened Wrappers
  import opened ScenarioContext
  import opened Bundles
  import opened Http
  import opened Checks
  import opened Slots
  import opened Sequencer
  import opened Location

  /** A rendering sees the generated fields and every field assigned
      before its template is used, and the templates that embed the
      encodings find them defined; a request carries the scenario's headers
      and is built from a context in which every field it interpolates,
      the Binary slots aside, has been assigned. */
  predicate EventOk(headers: Headers, e: Event) {
    match e
    case Rendered(Rendering(tpl, snap)) =>
      && (forall f :: IsGenerated(f) ==> f in snap)
      && Available(tpl) <= snap.Keys
      && (EmbedsContent(tpl) ==> Read(snap, CdaBase64).Some? && Read(snap, ImageBase64).Some?)
    case Sent(step, req, snap) =>
      && req.headers == headers
      && Reads(step) - SlotFields <= snap.Keys
  }

  /** Requests issued so far: a halted step has issued all of its requests. */
  function Issued(s: State): (r: nat) {
    if s.halt.Some? && !s.phase.DocumentsRetrieved? then IssuedBy(Next(s.phase)) else IssuedBy(s.phase)
  }

  /** The slots as the ITI-65 loop leaves them for the Binary references
      `refs` of the response: the first, and the last of two or more. */
  function FirstSlot(refs: seq<string>): (r: Option<string>) {
    if |refs| >= 1 then Some(refs[0]) else None
  }

  function SecondSlot(refs: seq<string>): (r: Option<string>) {
    if |refs| >= 2 then Some(refs[|refs| - 1]) else None
  }

  /** The generated values are assigned once, at the start, and never changed. */
  ghost predicate GeneratedIntact(t: Tokens, c: Context) {
    && (forall f :: IsGenerated(f) ==> f in c)
    && forall f {:trigger GeneratedValue(t, f)} :: IsGenerated(f) ==> f in c && c[f] == Some(GeneratedValue(t, f))
  }

  ghost predicate ContextInv(t: Tokens, s: State) {
    && GeneratedIntact(t, s.ctx)
    && Settled(s.phase) <= s.ctx.Keys
    && (Rank(s.phase) < Rank(DocumentsProvided) ==> BinaryResource1 !in s.ctx && BinaryResource2 !in s.ctx)
    && (Rank(s.phase) >= Rank(BundleBuilt) <==> s.bundle.Some?)
    && (Rank(s.phase) >= Rank(BundleBuilt) ==> Read(s.ctx, CdaBase64).Some? && Read(s.ctx, ImageBase64).Some?)
  }

  /** After ITI-65 the locations are those of its reply and the slots hold
      what its loop made of them. */
  ghost predicate SlotInv(env: Env, s: State) {
    Rank(s.phase) >= Rank(DocumentsProvided) ==>
      && s.locations == ProvidedLocations(env, s.bundle)
      && Read(s.ctx, BinaryResource1) == FirstSlot(BinaryRefs(s.locations))
      && Read(s.ctx, BinaryResource2) == SecondSlot(BinaryRefs(s.locations))
  }

  /** Once ITI-68 has completed, its two requests are the last ones issued,
      fetching what the slots hold. */
  ghost predicate FetchInv(env: Env, s: State) {
    s.phase.DocumentsRetrieved? ==>
      && |s.trace| >= 2
      && s.trace[|s.trace| - 2] == Sent(DocumentsRetrieved, Fetch(env, Show(Read(s.ctx, BinaryResource1))), s.ctx)
      && s.trace[|s.trace| - 1] == Sent(DocumentsRetrieved, Fetch(env, Show(Read(s.ctx, BinaryResource2))), s.ctx)
  }

  ghost predicate EventsOk(headers: Headers, trace: seq<Event>) {
    forall k {:trigger EventOk(headers, trace[k])} :: 0 <= k < |trace| ==> EventOk(headers, trace[k])
  }

  /** A request of a side-by-side step was built from the context `c`. */
  ghost predicate SeesIfPair(e: Event, c: Context) {
    e.Sent? && IsPair(e.step) ==> e.snapshot == c
  }

  /** Every request of a side-by-side step was built from the context `c`. */
  ghost predicate PairsSee(trace: seq<Event>, c: Context) {
    forall k {:trigger SeesIfPair(trace[k], c)} :: 0 <= k < |trace| ==> SeesIfPair(trace[k], c)
  }

  ghost predicate TraceInv(env: Env, s: State) {
    && EventsOk(env.headers, s.trace)
    && PairsSee(s.trace, s.ctx)
    && Steps(s.trace) == Schedule[..Issued(s)]
  }

  ghost predicate AllTrue(results: seq<bool>) {
    forall k :: 0 <= k < |results| ==> results[k]
  }

  ghost predicate SomeFalse(results: seq<bool>) {
    exists k :: 0 <= k < |results| && !results[k]
  }

  ghost predicate ResultInv(s: State) {
    && (s.halt.Some? ==> !s.phase.DocumentsRetrieved?)
    && (s.halt.None? ==> AllTrue(s.results))
    && (s.halt == Some(Bail) ==> SomeFalse(s.results))
  }

  ghost predicate Inv(env: Env, t: Tokens, s: State) {
    ContextInv(t, s) && SlotInv(env, s) && FetchInv(env, s) && TraceInv(env, s) && ResultInv(s)
  }

  lemma {:induction false} StepsAppend(a: seq<Event>, b: seq<Event>)
    ensures Steps(a + b) == Steps(a) + Steps(b)
    decreases |a|
  {
    if a != [] {
      assert (a + b)[1..] == a[1..] + b;
      StepsAppend(a[1..], b);
    } else {
      assert a + b == b;
    }
  }

  lemma {:induction false} StepsWithoutRequests(trace: seq<Event>)
    requires forall k :: 0 <= k < |trace| ==> trace[k].Rendered?
    ensures Steps(trace) == []
    decreases |trace|
  {
    if trace != [] {
      StepsWithoutRequests(trace[1..]);
    }
  }

  /** A trace that grew by two events. */
  lemma AppendedTwo(a: seq<Event>, b: seq<Event>)
    requires |b| == |a| + 2 && b[..|a|] == a
    ensures b == a + [b[|a|], b[|a| + 1]]
  {
  }

  lemma StepsOfTwo(e1: Event, e2: Event)
    ensures Steps([e1, e2]) == (if e1.Sent? then [e1.step] else []) + (if e2.Sent? then [e2.step] else [])
  {
    assert [e1, e2][1..] == [e2];
  }

  /** A request in the trace appears among its steps. */
  lemma {:induction false} SentInSteps(trace: seq<Event>, k: nat)
    requires k < |trace| && trace[k].Sent?
    ensures trace[k].step in Steps(trace)
    decreases k
  {
    if k > 0 {
      SentInSteps(trace[1..], k - 1);
    }
  }

  /** Each step's share of the schedule. */
  lemma ScheduleStep(p: Phase)
    requires !p.DocumentsRetrieved?
    ensures IssuedBy(p) <= IssuedBy(Next(p))
    ensures Schedule[..IssuedBy(Next(p))] == Schedule[..IssuedBy(p)] + Schedule[IssuedBy(p)..IssuedBy(Next(p))]
    ensures Schedule[IssuedBy(p)..IssuedBy(Next(p))] ==
              if IsPair(Next(p)) then [Next(p), Next(p)]
              else if Next(p).BundleBuilt? then []
              else [Next(p)]
    ensures !IsPair(Next(p)) ==> forall q :: q in Schedule[..IssuedBy(Next(p))] ==> !IsPair(q)
  {
    match p
    case Initial => assert Schedule[0..1] == [PatientCreated];
    case PatientCreated => assert Schedule[1..2] == [PractitionerCreated];
    case PractitionerCreated => assert Schedule[2..2] == [];
    case BundleBuilt => assert Schedule[2..3] == [DocumentsProvided];
    case DocumentsProvided => assert Schedule[3..5] == [ManifestsFound, ManifestsFound];
    case ManifestsFound => assert Schedule[5..7] == [ReferencesFound, ReferencesFound];
    case ReferencesFound => assert Schedule[7..9] == [DocumentsRetrieved, DocumentsRetrieved];
  }

  lemma StartInv(env: Env, t: Tokens)
    ensures Inv(env, t, Start(t))
  {
  }

  /** A step's verdict against the results it appends. */
  lemma VerdictResults(reports: seq<Report>, before: seq<bool>, after: seq<bool>)
    requires |reports| >= 1
    requires after == before + reports[0].results + (if |reports| == 2 then reports[1].results else [])
    requires |reports| <= 2
    ensures Verdict(reports).None? ==> forall k :: |before| <= k < |after| ==> after[k]
    ensures Verdict(reports) == Some(Bail) ==> exists k :: |before| <= k < |after| && !after[k]
  {
    var n0 := |reports[0].results|;
    if Verdict(reports).None? {
      forall k | |before| <= k < |after| ensures after[k] {
        if k < |before| + n0 {
          assert after[k] == reports[0].results[k - |before|];
        } else {
          assert Passed(reports[1]);
          assert after[k] == reports[1].results[k - |before| - n0];
        }
      }
    }
    if Verdict(reports) == Some(Bail) {
      var j :| 0 <= j < |reports| && !Passed(reports[j]);
      assert !reports[j].crashed;
      var i :| 0 <= i < |reports[j].results| && !reports[j].results[i];
      if j == 0 {
        assert !after[|before| + i];
      } else {
        assert !after[|before| + n0 + i];
      }
    }
  }

  /** The assertions of a step that did not halt the run were all true. */
  lemma ResultsAdvance(s: State, r: State)
    requires ResultInv(s) && s.halt.None? && !s.phase.DocumentsRetrieved? && Recorded(s, r)
    requires r.halt.Some? ==> r.phase == s.phase
    ensures ResultInv(r)
  {
  }

  /** A step appends its events to the trace: its requests are the step's
      share of the schedule, and only the side-by-side steps issue requests
      that later steps must not invalidate. */
  lemma TraceAdvance(env: Env, s: State, r: State, added: seq<Event>)
    requires TraceInv(env, s) && s.halt.None? && !s.phase.DocumentsRetrieved?
    requires r.trace == s.trace + added
    requires forall k :: 0 <= k < |added| ==> EventOk(env.headers, added[k])
    requires Steps(added) == Schedule[IssuedBy(s.phase)..IssuedBy(Next(s.phase))]
    requires r.halt.None? ==> r.phase == Next(s.phase)
    requires r.halt.Some? ==> r.phase == s.phase
    requires IsPair(Next(s.phase)) ==>
               r.ctx == s.ctx && forall k :: 0 <= k < |added| ==> added[k].Sent? && added[k].snapshot == s.ctx
    ensures TraceInv(env, r)
  {
    StepsAppend(s.trace, added);
    ScheduleStep(s.phase);
    forall k | 0 <= k < |r.trace|
      ensures SeesIfPair(r.trace[k], r.ctx)
    {
      if r.trace[k].Sent? && IsPair(r.trace[k].step) {
        if !IsPair(Next(s.phase)) {
          SentInSteps(r.trace, k);
          assert false;
        } else if k >= |s.trace| {
          assert r.trace[k] == added[k - |s.trace|];
        } else {
          assert r.trace[k] == s.trace[k];
          assert SeesIfPair(s.trace[k], s.ctx);
        }
      }
    }
    forall k | 0 <= k < |r.trace|
      ensures EventOk(env.headers, r.trace[k])
    {
      if k < |s.trace| {
        assert r.trace[k] == s.trace[k];
      } else {
        assert r.trace[k] == added[k - |s.trace|];
      }
    }
  }

  /** The assertions a step records: all true unless the run halts, and
      at least one false when the harness bails out. */
  ghost predicate Recorded(s: State, r: State) {
    && s.results <= r.results
    && (r.halt.None? ==> forall k :: |s.results| <= k < |r.results| ==> r.results[k])
    && (r.halt == Some(Bail) ==> exists k :: |s.results| <= k < |r.results| && !r.results[k])
  }

  /** A request the step `step` issues, built from the context `c`. */
  ghost predicate IssuedFrom(headers: Headers, e: Event, step: Phase, c: Context) {
    e.Sent? && e.step == step && e.snapshot == c && e.request.headers == headers
  }

  /** What a creation step does, as its contract states it. */
  ghost predicate CreateEffect(headers: Headers, s: State, r: State, template: Template, field: Field) {
    && !s.phase.DocumentsRetrieved?
    && (r.halt.None? ==> r.phase == Next(s.phase) && field in r.ctx && r.ctx == s.ctx[field := r.ctx[field]])
    && (r.halt.Some? ==> r.phase == s.phase && r.ctx == s.ctx && r.halt == Some(Fatal))
    && |r.trace| == |s.trace| + 2 && r.trace[..|s.trace|] == s.trace
    && r.trace[|s.trace|] == Rendered(Rendering(template, s.ctx))
    && IssuedFrom(headers, r.trace[|s.trace| + 1], Next(s.phase), s.ctx)
    && r.results == s.results && r.bundle == s.bundle && r.locations == s.locations
  }

  /** The creation posts the rendered template to `${host}/<rt>`, goes on
      exactly when the server answers 201, and then stores the reference
      extracted from the `Location` header, or `undefined` without one. */
  ghost predicate CreateReply(env: Env, s: State, r: State, template: Template, rt: string, field: Field)
    requires IsPlainName(rt)
  {
    && |r.trace| > |s.trace| + 1 && r.trace[|s.trace| + 1].Sent?
    && r.trace[|s.trace| + 1].request == Request(Post, env.host + "/" + rt, env.headers, Text(env.render(template, s.ctx)))
    && var resp := env.server(r.trace[|s.trace| + 1].request);
       && (r.halt.None? <==> resp.Reply? && resp.status == 201)
       && (r.halt.None? ==>
             && field in r.ctx
             && r.ctx[field] == if resp.location.Some? && resp.location.value != ""
                                then Some(ExtractReference(resp.location.value, rt)) else None)
  }

  lemma CreateHasEffect(env: Env, s: State, template: Template, rt: string, field: Field)
    requires IsPlainName(rt) && s.halt.None? && !s.phase.DocumentsRetrieved?
    ensures CreateEffect(env.headers, s, Create(env, s, template, rt, field), template, field)
    ensures CreateReply(env, s, Create(env, s, template, rt, field), template, rt, field)
  {
  }

  lemma CreateContext(t: Tokens, s: State, r: State, field: Field)
    requires ContextInv(t, s) && s.halt.None?
    requires || (s.phase.Initial? && field == PatientRef)
             || (s.phase.PatientCreated? && field == ProviderRef)
    requires r.halt.None? ==> r.phase == Next(s.phase) && field in r.ctx && r.ctx == s.ctx[field := r.ctx[field]]
    requires r.halt.Some? ==> r.phase == s.phase && r.ctx == s.ctx
    requires r.bundle == s.bundle
    ensures ContextInv(t, r)
  {
  }

  /** The rendering sees every generated value and the reference it needs. */
  lemma CreateEventsOk(env: Env, t: Tokens, s: State, r: State, template: Template, field: Field)
    requires ContextInv(t, s)
    requires || (s.phase.Initial? && template.PatientDoc? && field == PatientRef)
             || (s.phase.PatientCreated? && template.PractitionerDoc? && field == ProviderRef)
    requires CreateEffect(env.headers, s, r, template, field)
    ensures EventOk(env.headers, r.trace[|s.trace|]) && EventOk(env.headers, r.trace[|s.trace| + 1])
  {
  }

  lemma CreateTrace(env: Env, s: State, r: State, template: Template, field: Field)
    requires TraceInv(env, s) && s.halt.None?
    requires || (s.phase.Initial? && template.PatientDoc? && field == PatientRef)
             || (s.phase.PatientCreated? && template.PractitionerDoc? && field == ProviderRef)
    requires CreateEffect(env.headers, s, r, template, field)
    requires EventOk(env.headers, r.trace[|s.trace|]) && EventOk(env.headers, r.trace[|s.trace| + 1])
    ensures TraceInv(env, r)
  {
    var n := |s.trace|;
    AppendedTwo(s.trace, r.trace);
    StepsOfTwo(r.trace[n], r.trace[n + 1]);
    ScheduleStep(s.phase);
    TraceAdvance(env, s, r, [r.trace[n], r.trace[n + 1]]);
  }

  lemma CreatePreserves(env: Env, t: Tokens, s: State, r: State, template: Template, field: Field)
    requires Inv(env, t, s) && s.halt.None?
    requires || (s.phase.Initial? && template.PatientDoc? && field == PatientRef)
             || (s.phase.PatientCreated? && template.PractitionerDoc? && field == ProviderRef)
    requires CreateEffect(env.headers, s, r, template, field)
    ensures Inv(env, t, r)
  {
    CreateEventsOk(env, t, s, r, template, field);
    CreateTrace(env, s, r, template, field);
    ResultsAdvance(s, r);
    CreateContext(t, s, r, field);
  }

  /** A rendering of the bundle step, made against `c` or an extension of it. */
  ghost predicate BundleRendering(c: Context, e: Event) {
    && e.Rendered?
    && c.Keys <= e.rendering.snapshot.Keys
    && var snap := e.rendering.snapshot;
       match e.rendering.template
       case CdaDoc => true
       case ImageDoc => Read(snap, CdaBase64).Some?
       case PatientDoc => false
       case PractitionerDoc => false
       case _ => Read(snap, CdaBase64).Some? && Read(snap, ImageBase64).Some?
  }

  ghost predicate BuildEffect(s: State, r: State) {
    && r.phase == BundleBuilt && r.halt.None? && r.bundle.Some?
    && r.results == s.results && r.locations == s.locations
    && s.ctx.Keys <= r.ctx.Keys
    && (forall f :: f in s.ctx && f != CdaBase64 && f != ImageBase64 ==> r.ctx[f] == s.ctx[f])
    && (BinaryResource1 in r.ctx <==> BinaryResource1 in s.ctx)
    && (BinaryResource2 in r.ctx <==> BinaryResource2 in s.ctx)
    && Read(r.ctx, CdaBase64).Some? && Read(r.ctx, ImageBase64).Some?
    && |s.trace| <= |r.trace| && r.trace[..|s.trace|] == s.trace
    && forall k :: |s.trace| <= k < |r.trace| ==> BundleRendering(s.ctx, r.trace[k])
  }

  /** Every rendering of the bundle step sees the context it started from,
      and the encodings wherever they are embedded. */
  lemma BundleRenderingsOk(env: Env, c: Context)
    ensures var b := BuildDocumentBundle(env.render, env.base64, c);
            && (forall i :: 0 <= i < |b.renders| ==> BundleRendering(c, Rendered(b.renders[i])))
            && Read(b.ctx, CdaBase64).Some? && Read(b.ctx, ImageBase64).Some?
  {
    var b := BuildDocumentBundle(env.render, env.base64, c);
    ContentStoredBeforeEmbedding(env.render, env.base64, c);
    forall i | 0 <= i < |b.renders|
      ensures BundleRendering(c, Rendered(b.renders[i]))
    {
      if i >= 2 {
        assert b.renders[i].snapshot == b.ctx;
      }
    }
  }

  lemma BuildHasEffect(env: Env, s: State)
    requires s.halt.None?
    ensures BuildEffect(s, Build(env, s))
  {
    var r := Build(env, s);
    var b := BuildDocumentBundle(env.render, env.base64, s.ctx);
    BundleContext(env.render, env.base64, s.ctx);
    BundleRenderingsOk(env, s.ctx);
    forall k | |s.trace| <= k < |r.trace|
      ensures BundleRendering(s.ctx, r.trace[k])
    {
      var i := k - |s.trace|;
      assert r.trace[k] == Rendered(b.renders[i]);
    }
  }

  lemma BuildContext(t: Tokens, s: State, r: State)
    requires ContextInv(t, s) && s.halt.None? && s.phase.PractitionerCreated?
    requires BuildEffect(s, r)
    ensures ContextInv(t, r)
  {
  }

  lemma BuildTrace(env: Env, t: Tokens, s: State, r: State)
    requires TraceInv(env, s) && ContextInv(t, s) && s.halt.None? && s.phase.PractitionerCreated?
    requires BuildEffect(s, r)
    ensures TraceInv(env, r)
  {
    var added := r.trace[|s.trace|..];
    assert r.trace == s.trace + added;
    forall k | 0 <= k < |added|
      ensures added[k].Rendered? && EventOk(env.headers, added[k])
    {
      assert added[k] == r.trace[|s.trace| + k];
      assert BundleRendering(s.ctx, added[k]);
    }
    StepsWithoutRequests(added);
    ScheduleStep(s.phase);
    TraceAdvance(env, s, r, added);
  }

  lemma BuildPreserves(env: Env, t: Tokens, s: State, r: State)
    requires Inv(env, t, s) && s.halt.None? && s.phase.PractitionerCreated?
    requires BuildEffect(s, r)
    ensures Inv(env, t, r)
  {
    BuildTrace(env, t, s, r);
    ResultsAdvance(s, r);
    BuildContext(t, s, r);
    assert Rank(r.phase) < Rank(DocumentsProvided);
  }

  ghost predicate ProvideEffect(headers: Headers, s: State, r: State) {
    && |r.trace| == |s.trace| + 1 && r.trace[..|s.trace|] == s.trace
    && IssuedFrom(headers, r.trace[|s.trace|], DocumentsProvided, s.ctx)
    && r.bundle == s.bundle && Recorded(s, r) && r.halt != Some(Fatal)
    && (r.halt.None? ==> r.phase == DocumentsProvided && r.ctx == AssignSlots(s.ctx, r.locations))
    && (r.halt.Some? ==> r.phase == s.phase && r.ctx == s.ctx)
  }

  /** The step goes on exactly when the ITI-65 callback passed, and then
      keeps the string locations of the reply to the bundle it posted. */
  ghost predicate ProvideReply(env: Env, s: State, r: State) {
    var result := CheckProvide(env.server(ProvideRequest(env, s.bundle)));
    && |r.trace| > |s.trace| && r.trace[|s.trace|].Sent?
    && r.trace[|s.trace|].request == ProvideRequest(env, s.bundle)
    && (r.halt.None? <==> Passed(result.report))
    && (r.halt == Some(Crash) <==> result.report.crashed)
    && (r.halt.None? ==> r.locations == ProvidedLocations(env, s.bundle))
  }

  lemma ProvideHasEffect(env: Env, s: State)
    requires s.halt.None?
    ensures ProvideEffect(env.headers, s, Provide(env, s))
    ensures ProvideReply(env, s, Provide(env, s))
  {
    var r := Provide(env, s);
    var result := CheckProvide(env.server(ProvideRequest(env, s.bundle)));
    VerdictResults([result.report], s.results, r.results);
  }

  lemma ProvideContext(t: Tokens, s: State, r: State)
    requires ContextInv(t, s) && s.halt.None? && s.phase.BundleBuilt?
    requires r.bundle == s.bundle
    requires r.halt.None? ==> r.phase == DocumentsProvided
    requires r.halt.Some? ==> r.phase == s.phase && r.ctx == s.ctx
    requires forall f :: f != BinaryResource1 && f != BinaryResource2 ==>
               (f in r.ctx <==> f in s.ctx) && (f in s.ctx ==> r.ctx[f] == s.ctx[f])
    ensures ContextInv(t, r)
  {
  }

  lemma ProvideSlots(env: Env, s: State, r: State)
    requires BinaryResource1 !in s.ctx && BinaryResource2 !in s.ctx
    requires r.halt.None? ==> r.phase == DocumentsProvided && r.ctx == AssignSlots(s.ctx, r.locations)
    requires r.halt.None? ==> r.locations == ProvidedLocations(env, r.bundle)
    requires r.halt.Some? ==> r.phase == BundleBuilt
    ensures SlotInv(env, r)
  {
    if r.halt.None? {
      AssignFromFalsy(s.ctx, r.locations);
    }
  }

  lemma ProvideTrace(env: Env, t: Tokens, s: State, r: State)
    requires TraceInv(env, s) && ContextInv(t, s) && s.halt.None? && s.phase.BundleBuilt?
    requires ProvideEffect(env.headers, s, r)
    ensures TraceInv(env, r)
  {
    var added := [r.trace[|s.trace|]];
    assert r.trace == s.trace + added;
    ScheduleStep(s.phase);
    TraceAdvance(env, s, r, added);
  }

  lemma ProvidePreserves(env: Env, t: Tokens, s: State, r: State)
    requires ContextInv(t, s) && TraceInv(env, s) && ResultInv(s)
    requires s.halt.None? && s.phase.BundleBuilt?
    requires ProvideEffect(env.headers, s, r)
    requires r.halt.None? ==> r.locations == ProvidedLocations(env, r.bundle)
    ensures Inv(env, t, r)
  {
    ProvideTrace(env, t, s, r);
    ResultsAdvance(s, r);
    ProvideContext(t, s, r);
    ProvideSlots(env, s, r);
  }

  ghost predicate PairEffect(headers: Headers, s: State, r: State, step: Phase) {
    && r.ctx == s.ctx && r.bundle == s.bundle && r.locations == s.locations
    && |r.trace| == |s.trace| + 2 && r.trace[..|s.trace|] == s.trace
    && IssuedFrom(headers, r.trace[|s.trace|], step, s.ctx)
    && IssuedFrom(headers, r.trace[|s.trace| + 1], step, s.ctx)
    && Recorded(s, r) && r.halt != Some(Fatal)
    && (r.halt.None? ==> r.phase == step)
    && (r.halt.Some? ==> r.phase == s.phase)
  }

  lemma PairHasEffect(env: Env, s: State, step: Phase, q1: Request, p1: seq<Probe>, q2: Request, p2: seq<Probe>)
    requires s.halt.None? && q1.headers == env.headers && q2.headers == env.headers
    ensures PairEffect(env.headers, s, Pair(env, s, step, q1, p1, q2, p2), step)
  {
    var r := Pair(env, s, step, q1, p1, q2, p2);
    var r1 := CheckResponse(env.server(q1), p1);
    var r2 := CheckResponse(env.server(q2), p2);
    VerdictResults([r1, r2], s.results, r.results);
  }

  /** Both requests are built from a context holding every field they read. */
  lemma PairEventsOk(env: Env, t: Tokens, s: State, r: State, step: Phase)
    requires ContextInv(t, s)
    requires Rank(s.phase) >= Rank(DocumentsProvided) && !s.phase.DocumentsRetrieved?
    requires step == Next(s.phase) && PairEffect(env.headers, s, r, step)
    ensures EventOk(env.headers, r.trace[|s.trace|]) && EventOk(env.headers, r.trace[|s.trace| + 1])
  {
  }

  /** The two requests a side-by-side step appends, both tagged with the step. */
  lemma PairAdded(headers: Headers, s: State, r: State, step: Phase)
    requires PairEffect(headers, s, r, step)
    ensures var added := [r.trace[|s.trace|], r.trace[|s.trace| + 1]];
            && r.trace == s.trace + added
            && Steps(added) == [step, step]
            && forall k :: 0 <= k < |added| ==> added[k].Sent? && added[k].snapshot == s.ctx
  {
    var n := |s.trace|;
    AppendedTwo(s.trace, r.trace);
    StepsOfTwo(r.trace[n], r.trace[n + 1]);
  }

  lemma PairTrace(env: Env, s: State, r: State, step: Phase)
    requires TraceInv(env, s) && s.halt.None?
    requires Rank(s.phase) >= Rank(DocumentsProvided) && !s.phase.DocumentsRetrieved?
    requires step == Next(s.phase) && PairEffect(env.headers, s, r, step)
    requires EventOk(env.headers, r.trace[|s.trace|]) && EventOk(env.headers, r.trace[|s.trace| + 1])
    ensures TraceInv(env, r)
  {
    var n := |s.trace|;
    var added := [r.trace[n], r.trace[n + 1]];
    PairAdded(env.headers, s, r, step);
    ScheduleStep(s.phase);
    TraceAdvance(env, s, r, added);
  }

  lemma PairPreserves(env: Env, t: Tokens, s: State, r: State, step: Phase)
    requires Inv(env, t, s) && s.halt.None? && Rank(s.phase) >= Rank(DocumentsProvided) && !s.phase.DocumentsRetrieved?
    requires step == Next(s.phase) && PairEffect(env.headers, s, r, step)
    requires FetchInv(env, r)
    ensures Inv(env, t, r)
  {
    PairEventsOk(env, t, s, r, step);
    PairTrace(env, s, r, step);
    ResultsAdvance(s, r);
  }

  lemma CreatePatientInv(env: Env, t: Tokens, s: State)
    requires Inv(env, t, s) && s.halt.None? && s.phase.Initial?
    ensures Inv(env, t, Create(env, s, PatientDoc, "Patient", PatientRef))
  {
    CreateHasEffect(env, s, PatientDoc, "Patient", PatientRef);
    CreatePreserves(env, t, s, Create(env, s, PatientDoc, "Patient", PatientRef), PatientDoc, PatientRef);
  }

  lemma CreatePractitionerInv(env: Env, t: Tokens, s: State)
    requires Inv(env, t, s) && s.halt.None? && s.phase.PatientCreated?
    ensures Inv(env, t, Create(env, s, PractitionerDoc, "Practitioner", ProviderRef))
  {
    CreateHasEffect(env, s, PractitionerDoc, "Practitioner", ProviderRef);
    CreatePreserves(env, t, s, Create(env, s, PractitionerDoc, "Practitioner", ProviderRef), PractitionerDoc, ProviderRef);
  }

  lemma BuildInv(env: Env, t: Tokens, s: State)
    requires Inv(env, t, s) && s.halt.None? && s.phase.PractitionerCreated?
    ensures Inv(env, t, Build(env, s))
  {
    BuildHasEffect(env, s);
    BuildPreserves(env, t, s, Build(env, s));
  }

  lemma ProvideInv(env: Env, t: Tokens, s: State)
    requires Inv(env, t, s) && s.halt.None? && s.phase.BundleBuilt?
    ensures Inv(env, t, Provide(env, s))
  {
    ProvideHasEffect(env, s);
    ProvidePreserves(env, t, s, Provide(env, s));
  }

  lemma FindManifestsHasEffect(env: Env, s: State)
    requires s.halt.None?
    ensures PairEffect(env.headers, s, FindManifests(env, s), ManifestsFound)
  {
    var c := s.ctx;
    PairHasEffect(env, s, ManifestsFound,
      Fetch(env, "DocumentManifest?patient=" + Show(Read(c, PatientRef))), ManifestProbes(Read(c, ManifestMID)),
      Fetch(env, "DocumentManifest?patient.identifier=" + Show(Read(c, SourcePatId))), ManifestProbes(Read(c, ManifestMID)));
  }

  lemma FindReferencesHasEffect(env: Env, s: State)
    requires s.halt.None?
    ensures PairEffect(env.headers, s, FindReferences(env, s), ReferencesFound)
  {
    var c := s.ctx;
    PairHasEffect(env, s, ReferencesFound,
      Fetch(env, "DocumentReference?patient=" + Show(Read(c, PatientRef))),
      ReferenceProbes(Read(c, DocRefMID1), Read(c, DocRefMID2)),
      Fetch(env, "DocumentReference?patient.identifier=" + Show(Read(c, SourcePatId))),
      ReferenceProbes(Read(c, DocRefMID1), Read(c, DocRefMID2)));
  }

  lemma RetrieveHasEffect(env: Env, s: State)
    requires s.halt.None?
    ensures PairEffect(env.headers, s, Retrieve(env, s), DocumentsRetrieved)
  {
    var c := s.ctx;
    PairHasEffect(env, s, DocumentsRetrieved,
      Fetch(env, Show(Read(c, BinaryResource1))), BinaryProbes(Read(c, CdaBase64)),
      Fetch(env, Show(Read(c, BinaryResource2))), BinaryProbes(Read(c, ImageBase64)));
  }

  /** ITI-68's two requests fetch the references held in the slots. */
  lemma RetrieveFetches(env: Env, s: State)
    requires s.halt.None?
    ensures FetchInv(env, Retrieve(env, s))
  {
  }

  /** Two runs of a side-by-side step that issued the same two requests,
      recorded the same results and reached the same verdict. */
  ghost predicate PairAgree(s1: State, s2: State, r1: State, r2: State) {
    && |r1.trace| == |s1.trace| + 2 && |r2.trace| == |s2.trace| + 2
    && r1.trace[|s1.trace|].Sent? && r2.trace[|s2.trace|].Sent?
    && r1.trace[|s1.trace| + 1].Sent? && r2.trace[|s2.trace| + 1].Sent?
    && r1.trace[|s1.trace|].request == r2.trace[|s2.trace|].request
    && r1.trace[|s1.trace| + 1].request == r2.trace[|s2.trace| + 1].request
    && |s1.results| <= |r1.results| && |s2.results| <= |r2.results|
    && r1.results[|s1.results|..] == r2.results[|s2.results|..]
    && r1.halt == r2.halt
  }

  /** What a side-by-side step issues and records depends on its requests
      and probes alone, not on the state it starts from. */
  lemma PairFrame(env: Env, s1: State, s2: State, step: Phase, q1: Request, p1: seq<Probe>, q2: Request, p2: seq<Probe>)
    ensures PairAgree(s1, s2, Pair(env, s1, step, q1, p1, q2, p2), Pair(env, s2, step, q1, p1, q2, p2))
  {
    var r1 := Pair(env, s1, step, q1, p1, q2, p2);
    var r2 := Pair(env, s2, step, q1, p1, q2, p2);
    var added := CheckResponse(env.server(q1), p1).results + CheckResponse(env.server(q2), p2).results;
    assert r1.results[|s1.results|..] == added;
    assert r2.results[|s2.results|..] == added;
  }

  /** Two states that agree on the fields `Reads(step)` lists. */
  ghost predicate AgreeOn(step: Phase, c1: Context, c2: Context) {
    forall f :: f in Reads(step) ==> Read(c1, f) == Read(c2, f)
  }

  lemma FindManifestsReads(env: Env, s1: State, s2: State)
    requires AgreeOn(ManifestsFound, s1.ctx, s2.ctx)
    ensures PairAgree(s1, s2, FindManifests(env, s1), FindManifests(env, s2))
  {
    var c := s1.ctx;
    assert Read(c, PatientRef) == Read(s2.ctx, PatientRef);
    assert Read(c, SourcePatId) == Read(s2.ctx, SourcePatId);
    assert Read(c, ManifestMID) == Read(s2.ctx, ManifestMID);
    PairFrame(env, s1, s2, ManifestsFound,
      Fetch(env, "DocumentManifest?patient=" + Show(Read(c, PatientRef))), ManifestProbes(Read(c, ManifestMID)),
      Fetch(env, "DocumentManifest?patient.identifier=" + Show(Read(c, SourcePatId))), ManifestProbes(Read(c, ManifestMID)));
  }

  lemma FindReferencesReads(env: Env, s1: State, s2: State)
    requires AgreeOn(ReferencesFound, s1.ctx, s2.ctx)
    ensures PairAgree(s1, s2, FindReferences(env, s1), FindReferences(env, s2))
  {
    var c := s1.ctx;
    assert Read(c, PatientRef) == Read(s2.ctx, PatientRef);
    assert Read(c, SourcePatId) == Read(s2.ctx, SourcePatId);
    assert Read(c, DocRefMID1) == Read(s2.ctx, DocRefMID1);
    assert Read(c, DocRefMID2) == Read(s2.ctx, DocRefMID2);
    PairFrame(env, s1, s2, ReferencesFound,
      Fetch(env, "DocumentReference?patient=" + Show(Read(c, PatientRef))),
      ReferenceProbes(Read(c, DocRefMID1), Read(c, DocRefMID2)),
      Fetch(env, "DocumentReference?patient.identifier=" + Show(Read(c, SourcePatId))),
      ReferenceProbes(Read(c, DocRefMID1), Read(c, DocRefMID2)));
  }

  lemma RetrieveReads(env: Env, s1: State, s2: State)
    requires AgreeOn(DocumentsRetrieved, s1.ctx, s2.ctx)
    ensures PairAgree(s1, s2, Retrieve(env, s1), Retrieve(env, s2))
  {
    var c := s1.ctx;
    assert Read(c, BinaryResource1) == Read(s2.ctx, BinaryResource1);
    assert Read(c, BinaryResource2) == Read(s2.ctx, BinaryResource2);
    assert Read(c, CdaBase64) == Read(s2.ctx, CdaBase64);
    assert Read(c, ImageBase64) == Read(s2.ctx, ImageBase64);
    PairFrame(env, s1, s2, DocumentsRetrieved,
      Fetch(env, Show(Read(c, BinaryResource1))), BinaryProbes(Read(c, CdaBase64)),
      Fetch(env, Show(Read(c, BinaryResource2))), BinaryProbes(Read(c, ImageBase64)));
  }

  /** A side-by-side step sees the context only through the fields `Reads`
      lists for it: from two states that agree on those fields it issues the
      same two requests, records the same results and reaches the same
      verdict. */
  lemma PairStepReads(env: Env, s1: State, s2: State)
    requires s1.halt.None? && s2.halt.None? && s1.phase == s2.phase
    requires s1.phase.DocumentsProvided? || s1.phase.ManifestsFound? || s1.phase.ReferencesFound?
    requires AgreeOn(Next(s1.phase), s1.ctx, s2.ctx)
    ensures PairAgree(s1, s2, Step(env, s1), Step(env, s2))
  {
    match s1.phase
    case DocumentsProvided => FindManifestsReads(env, s1, s2);
    case ManifestsFound => FindReferencesReads(env, s1, s2);
    case ReferencesFound => RetrieveReads(env, s1, s2);
  }

  lemma FindManifestsInv(env: Env, t: Tokens, s: State)
    requires Inv(env, t, s) && s.halt.None? && s.phase.DocumentsProvided?
    ensures Inv(env, t, FindManifests(env, s))
  {
    FindManifestsHasEffect(env, s);
    PairPreserves(env, t, s, FindManifests(env, s), ManifestsFound);
  }

  lemma FindReferencesInv(env: Env, t: Tokens, s: State)
    requires Inv(env, t, s) && s.halt.None? && s.phase.ManifestsFound?
    ensures Inv(env, t, FindReferences(env, s))
  {
    FindReferencesHasEffect(env, s);
    PairPreserves(env, t, s, FindReferences(env, s), ReferencesFound);
  }

  lemma RetrieveInv(env: Env, t: Tokens, s: State)
    requires Inv(env, t, s) && s.halt.None? && s.phase.ReferencesFound?
    ensures Inv(env, t, Retrieve(env, s))
  {
    RetrieveHasEffect(env, s);
    RetrieveFetches(env, s);
    PairPreserves(env, t, s, Retrieve(env, s), DocumentsRetrieved);
  }

  lemma StepInv(env: Env, t: Tokens, s: State)
    requires Inv(env, t, s) && s.halt.None? && !s.phase.DocumentsRetrieved?
    ensures Inv(env, t, Step(env, s))
  {
    match s.phase
    case Initial => CreatePatientInv(env, t, s);
    case PatientCreated => CreatePractitionerInv(env, t, s);
    case PractitionerCreated => BuildInv(env, t, s);
    case BundleBuilt => ProvideInv(env, t, s);
    case DocumentsProvided => FindManifestsInv(env, t, s);
    case ManifestsFound => FindReferencesInv(env, t, s);
    case ReferencesFound => RetrieveInv(env, t, s);
  }

  lemma {:induction false} DriveInv(env: Env, t: Tokens, s: State)
    requires Inv(env, t, s)
    ensures Inv(env, t, Drive(env, s))
    ensures Drive(env, s).halt.None? ==> Drive(env, s).phase.DocumentsRetrieved?
    decreases Remaining(s)
  {
    if !(s.halt.Some? || s.phase.DocumentsRetrieved?) {
      var next := Step(env, s);
      StepProgress(env, s);
      StepInv(env, t, s);
      DriveInv(env, t, next);
      assert Drive(env, s) == Drive(env, next);
    }
  }

  /** Every state a run ends in satisfies the invariant, and a run that was
      not halted has completed all seven steps. */
  lemma RunInv(env: Env, t: Tokens)
    ensures Inv(env, t, Run(env, t))
    ensures Run(env, t).halt.None? ==> Run(env, t).phase.DocumentsRetrieved?
  {
    StartInv(env, t);
    DriveInv(env, t, Start(t));
  }

  /** No request or rendering of any run reads a field before the step
      that assigns it, and every request carries the scenario's headers. */
  lemma NoReadBeforeWrite(env: Env, t: Tokens, k: nat)
    requires k < |Run(env, t).trace|
    ensures EventOk(env.headers, Run(env, t).trace[k])
  {
    RunInv(env, t);
  }

  /** A completed state issued the nine requests in the scenario's order,
      recorded only passing assertions, holds the slots ITI-65 left, and
      ended by fetching them. */
  lemma CompletedState(env: Env, t: Tokens, s: State)
    requires Inv(env, t, s) && s.halt.None? && s.phase.DocumentsRetrieved?
    ensures Steps(s.trace) == Schedule
    ensures forall k :: 0 <= k < |s.results| ==> s.results[k]
    ensures s.locations == ProvidedLocations(env, s.bundle)
    ensures && Read(s.ctx, BinaryResource1) == FirstSlot(BinaryRefs(s.locations))
            && Read(s.ctx, BinaryResource2) == SecondSlot(BinaryRefs(s.locations))
    ensures && |s.trace| >= 2
            && s.trace[|s.trace| - 2].Sent? && s.trace[|s.trace| - 1].Sent?
            && s.trace[|s.trace| - 2].request.url == env.host + "/" + Show(FirstSlot(BinaryRefs(s.locations)))
            && s.trace[|s.trace| - 1].request.url == env.host + "/" + Show(SecondSlot(BinaryRefs(s.locations)))
  {
    assert Schedule[..IssuedBy(DocumentsRetrieved)] == Schedule;
  }

  /** A run that is not halted issued the nine requests in the scenario's
      order, recorded only passing assertions, and ended with ITI-68
      fetching `${host}/<ref>` for the first and the last Binary references
      of the ITI-65 reply (`undefined` where there are fewer). */
  lemma CompletedRun(env: Env, t: Tokens)
    requires Run(env, t).halt.None?
    ensures var r := Run(env, t);
            && Steps(r.trace) == Schedule
            && (forall k :: 0 <= k < |r.results| ==> r.results[k])
            && r.locations == ProvidedLocations(env, r.bundle)
            && Read(r.ctx, BinaryResource1) == FirstSlot(BinaryRefs(r.locations))
            && Read(r.ctx, BinaryResource2) == SecondSlot(BinaryRefs(r.locations))
            && |r.trace| >= 2
            && r.trace[|r.trace| - 2].Sent? && r.trace[|r.trace| - 1].Sent?
            && r.trace[|r.trace| - 2].request.url == env.host + "/" + Show(FirstSlot(BinaryRefs(r.locations)))
            && r.trace[|r.trace| - 1].request.url == env.host + "/" + Show(SecondSlot(BinaryRefs(r.locations)))
  {
    RunInv(env, t);
    CompletedState(env, t, Run(env, t));
  }

  /** A run that bails recorded a failing assertion. */
  lemma BailRecordsFailure(env: Env, t: Tokens)
    requires Run(env, t).halt == Some(Bail)
    ensures exists k :: 0 <= k < |Run(env, t).results| && !Run(env, t).results[k]
  {
    RunInv(env, t);
  }
}
