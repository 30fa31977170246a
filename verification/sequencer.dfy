/** The scenario run: create the patient, then the practitioner, build the
    bundle, then ITI-65, ITI-66, ITI-67 and ITI-68, each step started from
    the previous one's callback, the search and retrieval steps issuing
    their two requests side by side. */
module Sequencer {
  import opened Wrappers
  import opened Location
  import opened ScenarioContext
  import opened Bundles
  import opened Http
  import opened Checks
  import opened Slots

  /** How far the run has got: the last step that completed. */
  datatype Phase =
    | Initial | PatientCreated | PractitionerCreated | BundleBuilt
    | DocumentsProvided | ManifestsFound | ReferencesFound | DocumentsRetrieved

  function Rank(p: Phase): (n: nat)
    ensures n <= 7
  {
    match p
    case Initial => 0
    case PatientCreated => 1
    case PractitionerCreated => 2
    case BundleBuilt => 3
    case DocumentsProvided => 4
    case ManifestsFound => 5
    case ReferencesFound => 6
    case DocumentsRetrieved => 7
  }

  /** The step after `p`. */
  function Next(p: Phase): (q: Phase)
    requires !p.DocumentsRetrieved?
    ensures Rank(q) == Rank(p) + 1
  {
    match p
    case Initial => PatientCreated
    case PatientCreated => PractitionerCreated
    case PractitionerCreated => BundleBuilt
    case BundleBuilt => DocumentsProvided
    case DocumentsProvided => ManifestsFound
    case ManifestsFound => ReferencesFound
    case ReferencesFound => DocumentsRetrieved
  }

  /** The steps that issue two requests side by side. */
  predicate IsPair(p: Phase) {
    Rank(p) >= Rank(ManifestsFound)
  }

  /** What the run does that a later step can depend on: a template
      rendered against the context, or a request issued by a step with the
      context it was built from. */
  datatype Event =
    | Rendered(rendering: Rendering)
    | Sent(step: Phase, request: Request, snapshot: Context)

  /** Everything outside the scenario: the base URL, the request headers
      (auth included), the template files, the base64 encoder and the server. */
  datatype Env = Env(host: string, headers: Headers, render: Renderer, base64: string -> string, server: Server)

  /** The run so far: the last completed step, `conf`, `documentBundle`,
      the entry locations of the ITI-65 response as the slot loop visited
      them, what was rendered and sent, the assertions recorded, and why the
      run stopped, if it did. */
  datatype State = State(
    phase: Phase,
    ctx: Context,
    bundle: Option<Bundle>,
    locations: seq<string>,
    trace: seq<Event>,
    results: seq<bool>,
    halt: Option<Halt>)

  function Start(t: Tokens): (r: State) {
    State(Initial, ScenarioContext.Initial(t), None, [], [], [], None)
  }

  /** The context fields a step interpolates into its requests and expected
      values (the templates' own reads are covered by `Available`); that a
      side-by-side step reads nothing else is `RunFacts.PairStepReads`. */
  function Reads(p: Phase): (r: set<Field>) {
    match p
    case ManifestsFound => {PatientRef, SourcePatId, ManifestMID}
    case ReferencesFound => {PatientRef, SourcePatId, DocRefMID1, DocRefMID2}
    case DocumentsRetrieved => {BinaryResource1, BinaryResource2, CdaBase64, ImageBase64}
    case _ => {}
  }

  /** The two slots the ITI-65 loop fills only for entries mentioning `Binary`. */
  const SlotFields: set<Field> := {BinaryResource1, BinaryResource2}

  /** The later fields already assigned when a template is rendered. */
  function Available(t: Template): (r: set<Field>) {
    match t
    case PatientDoc => {}
    case PractitionerDoc => {PatientRef}
    case CdaDoc => {PatientRef, ProviderRef}
    case ImageDoc => {PatientRef, ProviderRef, CdaBase64}
    case _ => {PatientRef, ProviderRef, CdaBase64, ImageBase64}
  }

  /** The later fields (slots aside) assigned once a step has completed. */
  function Settled(p: Phase): (r: set<Field>) {
    if Rank(p) == 0 then {}
    else if Rank(p) == 1 then {PatientRef}
    else if Rank(p) == 2 then {PatientRef, ProviderRef}
    else {PatientRef, ProviderRef, CdaBase64, ImageBase64}
  }

  /** The requests of a complete run, tagged by the step that issues them. */
  const Schedule: seq<Phase> :=
    [PatientCreated, PractitionerCreated, DocumentsProvided,
     ManifestsFound, ManifestsFound, ReferencesFound, ReferencesFound,
     DocumentsRetrieved, DocumentsRetrieved]

  /** How many requests have been issued once step `p` has completed. */
  function IssuedBy(p: Phase): (n: nat)
    ensures n <= |Schedule|
  {
    match p
    case Initial => 0
    case PatientCreated => 1
    case PractitionerCreated => 2
    case BundleBuilt => 2
    case DocumentsProvided => 3
    case ManifestsFound => 5
    case ReferencesFound => 7
    case DocumentsRetrieved => 9
  }

  /** The steps of the requests in a trace, in order. */
  function Steps(trace: seq<Event>): (r: seq<Phase>)
    ensures |r| <= |trace|
  {
    if trace == [] then []
    else (if trace[0].Sent? then [trace[0].step] else []) + Steps(trace[1..])
  }

  /** How a step's callbacks end: a throw anywhere crashes the run, a
      failed assertion makes the harness bail out, and otherwise the next
      step starts. */
  function Verdict(reports: seq<Report>): (h: Option<Halt>)
    ensures h.None? <==> forall k :: 0 <= k < |reports| ==> Passed(reports[k])
    ensures h == Some(Crash) <==> exists k :: 0 <= k < |reports| && reports[k].crashed
    ensures h != Some(Fatal)
  {
    if exists k :: 0 <= k < |reports| && reports[k].crashed then Some(Crash)
    else if forall k :: 0 <= k < |reports| ==> Passed(reports[k]) then None
    else Some(Bail)
  }

  /** `post(host, rt, headers, loadResource(template, conf), ...)`, the
      reference stored in `field` on success. */
  function Create(env: Env, s: State, template: Template, rt: string, field: Field): (r: State)
    requires IsPlainName(rt) && s.halt.None? && !s.phase.DocumentsRetrieved?
    ensures r.halt.None? ==> r.phase == Next(s.phase) && field in r.ctx && r.ctx == s.ctx[field := r.ctx[field]]
    ensures r.halt.Some? ==> r.phase == s.phase && r.ctx == s.ctx && r.halt.value == Fatal
    ensures |r.trace| == |s.trace| + 2 && r.trace[..|s.trace|] == s.trace
    ensures r.trace[|s.trace|] == Rendered(Rendering(template, s.ctx))
    ensures var e := r.trace[|s.trace| + 1];
            && e.Sent? && e.step == Next(s.phase) && e.snapshot == s.ctx
            && e.request == Request(Post, env.host + "/" + rt, env.headers, Text(env.render(template, s.ctx)))
    ensures var resp := env.server(r.trace[|s.trace| + 1].request);
            && (r.halt.None? <==> resp.Reply? && resp.status == 201)
            && (r.halt.None? ==>
                  r.ctx[field] == if resp.location.Some? && resp.location.value != ""
                                  then Some(ExtractReference(resp.location.value, rt)) else None)
    ensures r.results == s.results && r.bundle == s.bundle && r.locations == s.locations
  {
    var req := Request(Post, env.host + "/" + rt, env.headers, Text(env.render(template, s.ctx)));
    var trace := s.trace + [Rendered(Rendering(template, s.ctx)), Sent(Next(s.phase), req, s.ctx)];
    match PostOutcome(env.server(req), rt)
    case Err(h) => s.(trace := trace, halt := Some(h))
    case Ok(ref) => s.(phase := Next(s.phase), ctx := s.ctx[field := ref], trace := trace)
  }

  function Renders(rs: seq<Rendering>): (es: seq<Event>)
    ensures |es| == |rs| && forall k :: 0 <= k < |rs| ==> es[k] == Rendered(rs[k])
  {
    if rs == [] then [] else [Rendered(rs[0])] + Renders(rs[1..])
  }

  /** `buildDocumentBundle()`, run at the end of the practitioner's callback. */
  function Build(env: Env, s: State): (r: State) {
    var b := BuildDocumentBundle(env.render, env.base64, s.ctx);
    s.(phase := BundleBuilt, ctx := b.ctx, bundle := Some(b.bundle), trace := s.trace + Renders(b.renders))
  }

  /** The ITI-65 request: the bundle posted to the base URL. */
  function ProvideRequest(env: Env, bundle: Option<Bundle>): (r: Request) {
    Request(Post, env.host, env.headers, Document(bundle))
  }

  /** The entry locations the ITI-65 callback walks for a given bundle. */
  function ProvidedLocations(env: Env, bundle: Option<Bundle>): (r: seq<string>) {
    CheckProvide(env.server(ProvideRequest(env, bundle))).locations
  }

  /** ITI-65: post the bundle, check the transaction response, fill the
      Binary slots from the entries' locations. */
  function Provide(env: Env, s: State): (r: State) {
    var req := ProvideRequest(env, s.bundle);
    var result := CheckProvide(env.server(req));
    var halt := Verdict([result.report]);
    s.(phase := if halt.None? then DocumentsProvided else s.phase,
       ctx := if halt.None? then AssignSlots(s.ctx, result.locations) else s.ctx,
       locations := if halt.None? then result.locations else s.locations,
       trace := s.trace + [Sent(DocumentsProvided, req, s.ctx)],
       results := s.results + result.report.results,
       halt := halt)
  }

  /** A search or retrieval request for `${ops.host}/${path}`. */
  function Fetch(env: Env, path: string): (r: Request) {
    Request(Get, env.host + "/" + path, env.headers, NoBody)
  }

  /** A step that issues two requests at once and continues when both
      callbacks have run; neither callback writes the context. */
  function Pair(env: Env, s: State, step: Phase, q1: Request, p1: seq<Probe>, q2: Request, p2: seq<Probe>): (r: State)
    ensures r.ctx == s.ctx && r.bundle == s.bundle && r.locations == s.locations
    ensures r.trace == s.trace + [Sent(step, q1, s.ctx), Sent(step, q2, s.ctx)]
    ensures r.halt.None? ==> r.phase == step
    ensures r.halt.Some? ==> r.phase == s.phase
    ensures r.halt.None? <==> Passed(CheckResponse(env.server(q1), p1)) && Passed(CheckResponse(env.server(q2), p2))
    ensures r.halt == Some(Crash) <==> CheckResponse(env.server(q1), p1).crashed || CheckResponse(env.server(q2), p2).crashed
  {
    var r1 := CheckResponse(env.server(q1), p1);
    var r2 := CheckResponse(env.server(q2), p2);
    var halt := Verdict([r1, r2]);
    assert [r1, r2][0] == r1 && [r1, r2][1] == r2;
    s.(phase := if halt.None? then step else s.phase,
       trace := s.trace + [Sent(step, q1, s.ctx), Sent(step, q2, s.ctx)],
       results := s.results + r1.results + r2.results,
       halt := halt)
  }

  /** ITI-66: the manifest searched by patient reference and by identifier. */
  function FindManifests(env: Env, s: State): (r: State) {
    var c := s.ctx;
    Pair(env, s, ManifestsFound,
      Fetch(env, "DocumentManifest?patient=" + Show(Read(c, PatientRef))), ManifestProbes(Read(c, ManifestMID)),
      Fetch(env, "DocumentManifest?patient.identifier=" + Show(Read(c, SourcePatId))), ManifestProbes(Read(c, ManifestMID)))
  }

  /** ITI-67: the references searched by patient reference and by identifier. */
  function FindReferences(env: Env, s: State): (r: State) {
    var c := s.ctx;
    Pair(env, s, ReferencesFound,
      Fetch(env, "DocumentReference?patient=" + Show(Read(c, PatientRef))),
      ReferenceProbes(Read(c, DocRefMID1), Read(c, DocRefMID2)),
      Fetch(env, "DocumentReference?patient.identifier=" + Show(Read(c, SourcePatId))),
      ReferenceProbes(Read(c, DocRefMID1), Read(c, DocRefMID2)))
  }

  /** ITI-68: both Binary resources fetched, each expected to carry the
      encoding stored when the bundle was built. */
  function Retrieve(env: Env, s: State): (r: State) {
    var c := s.ctx;
    Pair(env, s, DocumentsRetrieved,
      Fetch(env, Show(Read(c, BinaryResource1))), BinaryProbes(Read(c, CdaBase64)),
      Fetch(env, Show(Read(c, BinaryResource2))), BinaryProbes(Read(c, ImageBase64)))
  }

  /** One step of the run, chosen by how far it has got. */
  function Step(env: Env, s: State): (r: State)
    requires s.halt.None? && !s.phase.DocumentsRetrieved?
  {
    match s.phase
    case Initial => Create(env, s, PatientDoc, "Patient", PatientRef)
    case PatientCreated => Create(env, s, PractitionerDoc, "Practitioner", ProviderRef)
    case PractitionerCreated => Build(env, s)
    case BundleBuilt => Provide(env, s)
    case DocumentsProvided => FindManifests(env, s)
    case ManifestsFound => FindReferences(env, s)
    case ReferencesFound => Retrieve(env, s)
  }

  /** A step that does not halt advances exactly one phase; a halted step
      leaves the context alone; the side-by-side steps never write it; the
      trace and the results only grow. */
  lemma StepFacts(env: Env, s: State)
    requires s.halt.None? && !s.phase.DocumentsRetrieved?
    ensures var r := Step(env, s);
            && (r.halt.None? ==> r.phase == Next(s.phase))
            && (r.halt.Some? ==> r.phase == s.phase && r.ctx == s.ctx)
            && (IsPair(Next(s.phase)) ==> r.ctx == s.ctx)
            && s.trace <= r.trace && s.results <= r.results
  {
    match s.phase
    case Initial =>
    case PatientCreated =>
    case PractitionerCreated =>
    case BundleBuilt =>
    case DocumentsProvided =>
    case ManifestsFound =>
    case ReferencesFound =>
  }

  /** Steps still to come: none once the run has halted. */
  function Remaining(s: State): (r: nat) {
    if s.halt.Some? then 0 else Rank(DocumentsRetrieved) - Rank(s.phase) + 1
  }

  /** Every step brings the run closer to its end. */
  lemma StepProgress(env: Env, s: State)
    requires s.halt.None? && !s.phase.DocumentsRetrieved?
    ensures Remaining(Step(env, s)) < Remaining(s)
  {
    var r := Step(env, s);
    StepFacts(env, s);
    if r.halt.None? {
      assert Rank(r.phase) == Rank(s.phase) + 1;
    }
  }

  /** The chain of callbacks: each step starts the next until the last
      step completes or the run halts. */
  function Drive(env: Env, s: State): (r: State)
    decreases Remaining(s)
  {
    if s.halt.Some? || s.phase.DocumentsRetrieved? then s
    else
      StepProgress(env, s);
      Drive(env, Step(env, s))
  }

  /** `init` then `execute`. */
  function Run(env: Env, t: Tokens): (r: State) {
    Drive(env, Start(t))
  }
}
