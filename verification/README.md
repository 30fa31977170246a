# MHD scenario model

A Dafny model of `mhd/index.js`, the IHE Mobile access to Health Documents
(MHD) validation scenario of the OpenSHR validation tests. The scenario runs
in a fixed order:

1. It creates a Patient and a Practitioner.
2. It builds a five-entry transaction bundle: two Binary resources, two
   DocumentReferences and one DocumentManifest.
3. ITI-65 posts the bundle. Its callback checks the transaction response and
   fills the `binaryResource1`/`binaryResource2` slots from the entry locations.
4. ITI-66 searches for the manifest, by patient reference and by source
   patient identifier.
5. ITI-67 searches for the document references the same two ways.
6. ITI-68 fetches both Binary resources and compares their content with the
   base64 encodings stored when the bundle was built.

The model's parts:

- `Text`: `indexOf`, `includes` and the first-occurrence `String.replace`.
- `Location`: the location regular expression
  `.*(RT/\w+)/_history/.*`, replaced by `$1`. It is modelled as a
  backtracking matcher: start positions are tried left to right, the leading
  `.*` is greedy and stays within one line, and `\w` is `[A-Za-z0-9_]`.
  `LocationFacts` proves what this means for a single-line location: the
  whole string becomes the rightmost `RT/<id>` that is followed by
  `/_history/`.
- `Json`: the JavaScript values a parsed body can hold. Property access
  throws on `undefined` and `null`, `length` works on arrays and strings, and
  `for … of` iterates an array. Property names are strings: `o[0]` on an
  object reads its property `"0"`, and `a["0"]` on an array reads item 0.
- `ScenarioContext`: `conf`. It is a map from field to `Option<string>`. A
  key that is present was assigned, and `None` is JavaScript `undefined`.
- `Bundles`: `buildDocumentBundle`.
- `Http`: requests, responses and `post`.
- `Checks` / `CheckFacts`: the assertion lists of each response callback.
  Each list is an ordered series of probes, each probe a property path and
  the value `t.equals` compares it with. `CheckFacts` proves each list
  equivalent to a plain description of the body it accepts.
- `Slots`: the ITI-65 loop that fills the two Binary slots.
- `Auth`: `getHearthAuthHeaders`, `_.extend`, and the header choice at
  program start.
- `Sequencer`: the callback chain from `init` to the end of `execute`, as a
  state machine with one step per callback.
- `RunFacts`: the invariant of every state a run reaches. It proves:
  - No template or request reads a context field before the step that
    assigns it has completed. For the side-by-side steps, the fields a
    request reads are the ones `Sequencer.Reads` lists, and
    `RunFacts.PairStepReads` proves that list complete.
  - The requests go out in the scenario's order.
  - The side-by-side steps write nothing.
  - ITI-68 fetches the references the ITI-65 loop stored, and those come
    from the locations in the ITI-65 reply.

What the proofs show about the program as written:

- With fewer than two Binary locations in the ITI-65 response,
  `binaryResource2` stays unassigned. ITI-68 then fetches `<host>/undefined`.
  `RunFacts.EventOk` therefore exempts the two slots from the
  read-after-write rule; `RunFacts.CompletedRun` states what they hold.
- With three or more Binary locations, slot 2 holds the LAST one, not the
  second (`Slots.AssignFromFalsy`): every Binary entry after the first
  overwrites it.
- An entry whose location is an array is passed over when the array has no
  item `"Binary"`. When it has one, `replace` is called on the array and the
  callback throws (`Checks.EntryLocations`).
- A Patient created with a 201 but no Location header leaves `patientRef`
  assigned but `undefined` (`Http.PostOutcome`). The ITI-66 and ITI-67
  searches then use `patient=undefined`.
- The guard at `mhd/index.js:404` that looks for a trailing slash reads
  `ops.host[ops.length - 1]`. `ops.length` is `undefined`, so the index is
  `NaN`, the read yields `undefined`, and the guard never fires. It is not modelled, and the host is used as given.

## Model

| member | source | states |
|---|---|---|
| Text.IndexOf | mhd/index.js:211 | `indexOf` returns the first position at or after `from` where the pattern occurs, and reports absence only when it occurs nowhere after `from` |
| Text.Includes | mhd/index.js:211 | `indexOf(p) > -1` holds exactly when the pattern occurs somewhere in the string |
| Text.ReplaceFirstSplits | mhd/index.js:54 | a string `replace` with a plain pattern rewrites only the first occurrence and keeps the text around it |
| Location.Backtrack | mhd/index.js:104 | the greedy `.*` gives back characters one at a time: it finds the rightmost `RT/\w+/_history/` at or before the line end, and when it finds none, none exists in that range |
| Location.SearchCorrect | mhd/index.js:104 | the regex search starts its match at the beginning of the first line that holds an occurrence, captures that line's rightmost occurrence, and ends at the end of that line; it finds no match only when no occurrence exists |
| LocationFacts.OccurrenceIsRegexMatch | mhd/index.js:104 | an occurrence the model recognises is exactly a place where `RT/`, a maximal run of one or more word characters, and `/_history/` follow each other |
| LocationFacts.SingleLineMatch | mhd/index.js:104 | for a location without line terminators, the match starts at the beginning, captures the rightmost occurrence and runs to the end |
| LocationFacts.ExtractRightmost | mhd/index.js:104 | for a location without line terminators, the reference extracted is `RT/<id>` of the rightmost occurrence, and the whole string is replaced |
| LocationFacts.ExtractNoOccurrence | mhd/index.js:104 | a location with no `RT/<id>/_history/` is returned unchanged by `replace` |
| LocationFacts.ExtractFirstLine | mhd/index.js:104 | in general only the matched line is rewritten: the text before the match start and after the line end is kept |
| LocationFacts.ExtractSample | mhd/index.js:212 | the location `fhir/Binary/abc/_history/1` yields `Binary/abc` |
| LocationFacts.ExtractNonEmpty | mhd/index.js:212-216 | the reference extracted from a non-empty location is non-empty, so it is truthy when tested as slot 1 |
| Json.Lookup | mhd/index.js:202-205 | property access throws exactly on `undefined` and `null` |
| Json.IndexRoundTrip | mhd/index.js:241 | the decimal form of an index reads back as that index, so the numeric property names are exactly the canonical numerals |
| Json.IndexAsName | mhd/index.js:241 | `v[i]` and `v["i"]` read the same value on every kind of value: an object by its property `"i"`, an array or a string by its item `i` |
| Json.Iterate | mhd/index.js:206 | `for … of` over `body.entry` visits the array's items in order; it throws for anything that is neither an array nor a string |
| Json.PathConcat | mhd/index.js:241-242 | a chained property access evaluates its prefix first, and throws if the prefix throws |
| ScenarioContext.Initial | mhd/index.js:111-125 | `conf` starts with exactly the generated fields, all defined, and none of the fields later steps assign |
| Bundles.BuildDocumentBundle | mhd/index.js:129-187 | the bundle step renders seven templates and builds five entries |
| Bundles.BundleContext | mhd/index.js:129-187 | building adds exactly `cdaBase64` and `imageBase64` to `conf` and changes nothing else; the entries are rendered from the Binary-1, Binary-2, DocumentReference-1, DocumentReference-2 and DocumentManifest-1 templates, in that order, and each entry's resource is its template's rendering |
| Bundles.BundleShape | mhd/index.js:142-187 | the bundle is a `transaction` with five POST entries to Binary, Binary, DocumentReference, DocumentReference and DocumentManifest, in that order |
| Bundles.BundleFullUrls | mhd/index.js:145-179 | the entries' full URLs are `binaryRef1`, `binaryRef2`, `docRef1`, `docRef2` and `docManifestRef` as they are in `conf`, in that order |
| Bundles.EncodingsStored | mhd/index.js:130-134 | the CDA is rendered from `conf` as given and its encoding stored before the image is rendered; both encodings are in the `conf` the step leaves |
| Bundles.EntriesRenderedLast | mhd/index.js:136-140 | exactly the five entry templates embed the encodings, and each is rendered from the `conf` the step leaves |
| Bundles.ContentStoredBeforeEmbedding | mhd/index.js:130-140 | the CDA is encoded before the image is rendered, and both encodings are stored before any Binary, reference or manifest template is rendered, which all see the same values |
| Bundles.GeneratedIds | mhd/index.js:118-124 | with distinct uuids, the five temporary ids in `conf` are defined and pairwise distinct |
| Bundles.TemporaryIdsDistinct | mhd/index.js:118-179 | distinct generated uuids give five defined, pairwise distinct entry full URLs |
| Http.PostOutcome | mhd/index.js:86-107 | `post` goes on only after a 201 reply and dies otherwise; the reference is `undefined` exactly when there is no Location header or it is empty, and otherwise it is the regex extraction of the header |
| Checks.EvaluateFacts | mhd/index.js:202-205 | the `t.equals` calls of a callback record one result per probe, in order, until a property access throws; the run crashes exactly when some probe's path throws |
| Checks.EvaluateRecords | mhd/index.js:202-205 | the results recorded are the strict comparisons of the leading probes, in order, one per probe when nothing throws |
| Checks.EvaluateStops | mhd/index.js:202-205 | the list is cut short exactly when some probe's path throws, and right at the first such probe |
| Checks.CheckResponseFacts | mhd/index.js:233-242 | a search callback records `t.error` and then the status check; it crashes on a transport error, on a body that is not JSON, or on a throwing probe; the recorded results are exactly the comparisons made |
| Checks.EntryLocationsFacts | mhd/index.js:206-212 | the loop gets through exactly when no entry's location is unreadable, without `indexOf`, or an array holding `"Binary"`; it keeps at most one location per entry, and all of them, in order, when every location is a string |
| Checks.ArrayLocationSkipped | mhd/index.js:206-211 | an entry whose location is an array without a `"Binary"` item fails the `indexOf` test and changes nothing: the loop goes as if the entry were absent |
| Checks.CheckProvideFacts | mhd/index.js:199-219 | a completed ITI-65 callback records five results, found an iterable `body.entry`, and keeps the string locations its items reach |
| CheckFacts.EntryPaths | mhd/index.js:241-242 | `body.entry[i].resource.resourceType` and `….masterIdentifier.value` equal the expected strings exactly when item `i` of `entry` (an array's item, or an object's property `"i"`) carries that resource type and master identifier |
| CheckFacts.PassedIffAllMatch | mhd/index.js:233-242 | a search callback passes exactly when the reply is a 200 with a JSON body in which every probe's path exists and strictly equals its expected value |
| CheckFacts.ManifestProbesSound | mhd/index.js:237-242 | when the ITI-66 probes all match, the body is a searchset `Bundle` with total 1 whose first entry is a DocumentManifest with the expected master identifier |
| CheckFacts.ManifestProbesComplete | mhd/index.js:237-242 | conversely, such a body matches all the ITI-66 probes |
| CheckFacts.ManifestBody | mhd/index.js:237-242 | the ITI-66 probes match exactly a searchset `Bundle` with total 1 whose first entry is a DocumentManifest with the expected master identifier |
| CheckFacts.ManifestCheckIff | mhd/index.js:233-242 | an ITI-66 search passes exactly when the reply is a 200 carrying that searchset |
| CheckFacts.ReferenceProbesSound | mhd/index.js:274-281 | when the ITI-67 probes all match, the body answers with both DocumentReferences in order |
| CheckFacts.ReferenceProbesComplete | mhd/index.js:274-281 | conversely, such a body matches all the ITI-67 probes |
| CheckFacts.ReferenceBody | mhd/index.js:274-281 | the ITI-67 probes match exactly a searchset with total 2 whose entries 0 and 1 are DocumentReferences with the first and second master identifiers |
| CheckFacts.ReferenceCheckIff | mhd/index.js:270-281 | an ITI-67 search passes exactly when the reply is a 200 carrying that searchset |
| CheckFacts.SwappedReferencesFail | mhd/index.js:278-281 | a server that returns the two references in the other order fails the check |
| CheckFacts.BinaryBody | mhd/index.js:312-314 | the ITI-68 probes match exactly a `Binary` whose `content` is the expected encoding |
| CheckFacts.BinaryCheckIff | mhd/index.js:309-314 | an ITI-68 fetch passes exactly when the reply is a 200 carrying that Binary |
| CheckFacts.ReferenceChecksAllEvaluated | mhd/index.js:270-281 | an ITI-67 callback that does not crash records all nine assertions |
| Slots.AssignSlots | mhd/index.js:206-219 | the loop writes no context field except the two Binary slots, and removes none |
| Slots.BinaryRefsTruthy | mhd/index.js:211-216 | every reference the loop can store is truthy |
| Slots.SlotsFollowRefs | mhd/index.js:206-219 | the loop places exactly the references of the Binary entries, in entry order, and nothing for the other entries |
| Slots.PlaceAfterFirst | mhd/index.js:213-214 | once slot 1 is truthy, placing references only overwrites slot 2, which ends with the last one |
| Slots.AssignAfterFirst | mhd/index.js:213-214 | once slot 1 is truthy, every later Binary entry overwrites slot 2, which ends with the last one |
| Slots.AssignFromFalsy | mhd/index.js:206-219 | from an empty slot 1, the loop stores the first Binary reference in slot 1 and, when there are two or more, the last one in slot 2; no Binary entry leaves the context unchanged |
| Slots.OtherEntriesIgnored | mhd/index.js:211 | entries whose location does not mention `Binary` do not affect the slots |
| Slots.TwoBinaryEntries | mhd/index.js:206-219 | with exactly two Binary entries, slot 1 gets the first reference and slot 2 the second |
| Auth.AuthHeaders | mhd/index.js:52-78 | the challenge dies on a transport error and throws unless the body has a string `salt` and `ts`; otherwise it yields exactly the four `auth-*` headers, with token hex(SHA-512(hex(SHA-512(salt + password)) + salt + ts)) |
| Auth.Extend | mhd/index.js:413 | `_.extend` gives the union of the keys, with the auth value winning on a clash and the base value kept otherwise |
| Auth.ExtendKeepsContentType | mhd/index.js:398-413 | merging the auth headers keeps `content-type` and adds exactly the four auth keys |
| Auth.AuthUrlReplacesFirstOnly | mhd/index.js:54 | only the first `fhir` in the base URL becomes `api` |
| Auth.AuthUrlWithoutFhir | mhd/index.js:54 | a base URL without `fhir` is used unchanged for the challenge |
| Auth.ScenarioHeadersFacts | mhd/index.js:398-418 | without auth the scenario's headers are just the JSON content type; with auth the scenario starts only if the challenge succeeds, and then carries the content type and the four auth headers |
| Sequencer.Verdict | mhd/index.js:193-205 | a step continues exactly when every callback passed; it crashes exactly when some callback threw, and otherwise bails |
| Sequencer.Create | mhd/index.js:86-107 | creating a resource renders its template from the current `conf` and posts that rendering with the scenario headers to `host/RT`; it goes on exactly when the reply is a 201, then writes only the reference field, with the reference extracted from the `Location` header or `undefined` without one; otherwise it dies with `conf` untouched |
| Sequencer.Pair | mhd/index.js:249-260 | a side-by-side step (ITI-66 here, and ITI-67 and ITI-68 alike) issues both requests from the same `conf` and writes nothing; it advances exactly when both callbacks passed and crashes exactly when one of them threw |
| Sequencer.StepFacts | mhd/index.js:338-377 | a step that does not halt advances exactly one phase; a halted step leaves `conf` alone; the side-by-side steps never write `conf`; trace and results only grow |
| Sequencer.StepProgress | mhd/index.js:338-377 | every step either halts the run or brings it one step closer to the end, so the chain of callbacks ends |
| RunFacts.StartInv | mhd/index.js:111-127 | the initial state satisfies the run invariant |
| RunFacts.VerdictResults | mhd/index.js:193-205 | a step that continues recorded only passing assertions, and one that bails recorded a failing one |
| RunFacts.CreateHasEffect | mhd/index.js:343-348 | patient or practitioner creation renders once and posts that rendering once with the scenario headers; it goes on exactly on a 201 and then stores the reference extracted from the `Location` header, or `undefined` without one |
| RunFacts.BuildHasEffect | mhd/index.js:129-190 | building stores both encodings, keeps every other field, and records renderings that each see the context and encodings they need |
| RunFacts.ProvideHasEffect | mhd/index.js:192-224 | ITI-65 posts the bundle once from the current `conf`; it goes on exactly when its callback passed and crashes exactly when it threw; when it goes on, the locations kept are those of the reply to that bundle and the slots are what the loop made of them |
| RunFacts.PairHasEffect | mhd/index.js:249-260 | a side-by-side step with scenario-header requests appends two requests that both carry the current `conf` |
| RunFacts.ProvideSlots | mhd/index.js:206-219 | after ITI-65, the locations are those of the reply, slot 1 reads as their first Binary reference and slot 2 as the last of two or more; a slot with no reference reads as `undefined` |
| RunFacts.TraceAdvance | mhd/index.js:338-377 | appending a step's events in its share of the schedule keeps the trace invariant |
| RunFacts.CreatePatientInv | mhd/index.js:343-345 | creating the patient preserves the run invariant |
| RunFacts.CreatePractitionerInv | mhd/index.js:346-348 | creating the practitioner, whose template may read `patientRef`, preserves the run invariant |
| RunFacts.BuildInv | mhd/index.js:350 | building the bundle preserves the run invariant |
| RunFacts.ProvideInv | mhd/index.js:368 | ITI-65 preserves the run invariant |
| RunFacts.FindManifestsInv | mhd/index.js:369 | ITI-66 preserves the run invariant: it reads `patientRef`, `sourcePatId` and `manifestMID`, all assigned by then |
| RunFacts.FindReferencesInv | mhd/index.js:370 | ITI-67 preserves the run invariant |
| RunFacts.RetrieveFetches | mhd/index.js:309-314 | ITI-68's two requests, when it completes, are the last ones issued and fetch `host/` followed by what slot 1 and slot 2 hold |
| RunFacts.RetrieveInv | mhd/index.js:371 | ITI-68 preserves the run invariant: both encodings it compares with are assigned |
| RunFacts.StepInv | mhd/index.js:338-377 | every step preserves the run invariant |
| RunFacts.DriveInv | mhd/index.js:338-377 | the chain of callbacks preserves the invariant to its end, and stops unhalted only after ITI-68 |
| RunFacts.RunInv | mhd/index.js:338-394 | every run ends in a state satisfying the invariant, and a run that is not halted has completed ITI-68 |
| RunFacts.NoReadBeforeWrite | mhd/index.js:338-377 | in every run, each rendering sees the fields its template uses already assigned, each side-by-side request sees the fields it interpolates already assigned (the Binary slots aside), and each request carries the scenario headers |
| RunFacts.PairFrame | mhd/index.js:249-260 | what a side-by-side step sends and records depends only on its two requests and probes, not on the state it starts from |
| RunFacts.FindManifestsReads | mhd/index.js:226-254 | ITI-66 reads only `patientRef`, `sourcePatId` and `manifestMID`: from two contexts that agree on them it sends the same requests, records the same results and reaches the same verdict |
| RunFacts.FindReferencesReads | mhd/index.js:263-293 | ITI-67 reads only `patientRef`, `sourcePatId`, `docRefMID1` and `docRefMID2`, in the same sense |
| RunFacts.RetrieveReads | mhd/index.js:302-326 | ITI-68 reads only the two Binary slots and the two encodings, in the same sense |
| RunFacts.PairStepReads | mhd/index.js:368-371 | every side-by-side step depends on the context only through the fields `Sequencer.Reads` lists for it |
| RunFacts.CompletedState | mhd/index.js:368-377 | a completed state issued the nine requests in the scenario's order, recorded only passing assertions, holds the slots ITI-65 left from the locations of its reply, and ended by fetching them |
| RunFacts.CompletedRun | mhd/index.js:368-377 | a run that is not halted issued patient, practitioner, ITI-65, two ITI-66, two ITI-67 and two ITI-68 requests in that order, all its assertions passed, and the two ITI-68 requests fetched `host/` followed by the first and the last Binary references of the ITI-65 reply (`undefined` where there are fewer) |
| RunFacts.BailRecordsFailure | mhd/index.js:193 | a run that bails recorded a failing assertion |

## Left out

- HTTP transport: the server is a parameter (`Server`, a response per request). Response headers other than `location`, redirects and timeouts are not modelled.
- tap's output, `console` and `chalk` are not modelled. Only the recorded results and `{bail: true}` are. `die` and process exit become the `Fatal` halt.
- Bail timing: tap bails at the failing assertion. The model evaluates a callback's whole assertion list, then halts. The recorded results can therefore include assertions after the failing one. A halted step writes nothing to `conf`. A crashing ITI-65 callback may already have filled a slot before a later entry throws; the model drops those writes, and nothing runs after the crash to read them.
- Concurrency: the two requests of ITI-66, ITI-67 and ITI-68 are issued from the same `conf` and joined. The model evaluates their callbacks one after the other. Neither callback writes `conf`, so their order does not matter.
- `loadResource`: file reading and mustache rendering are a `Renderer` parameter (template and `conf` to text). The template files are not part of this model. Which fields each template reads is stated as `Sequencer.Available`.
- `Buffer.toString('base64')`, SHA-512 with hex digests, `uuid`, `faker` and `moment` are parameters or given tokens. Their algorithms are not modelled.
- `JSON.parse` and `JSON.stringify` are not modelled. A body that does not parse is `None`, and the bundle is posted as the structured value.
- CLI parsing (`stdio.getopt`, the option defaults) is left out. Host, username and password are parameters.
- The trailing-slash guard (`mhd/index.js:404-406`) is dead code and is not modelled.
- The configuration dump at `mhd/index.js:361-365` is console output only.
- The commented-out entry status check (`mhd/index.js:209`) is not in the program, so it is not modelled.
- JavaScript numbers are modelled as integers, since the scenario compares only counts and status codes.
- Json.ArrayIndex: every canonical numeral counts as an array index. JavaScript stops at 2^32 - 2; no array in a reply here comes near that length.
- `RunFacts.NoReadBeforeWrite`: exempts `binaryResource1`/`binaryResource2` from the read-after-write rule. The program really can read them unassigned; `RunFacts.CompletedRun` states their values instead.
- `Sequencer.Run`: takes the request headers as a parameter of the environment. `Auth.ScenarioHeaders` models how the program computes them before the run.
