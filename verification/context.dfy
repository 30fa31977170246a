/** The scenario's `conf` object: the identifiers generated when the scenario
    is created, and the fields later steps assign. */
module ScenarioContext {
  import opened Wrappers

  datatype Field =
    | TimeNow | SourcePatId | FirstName | LastName | DocId
    | ManifestMID | DocManifestRef
    | DocRefMID1 | DocRef1 | DocRefMID2 | DocRef2
    | BinaryRef1 | BinaryRef2
    | PatientRef | ProviderRef
    | CdaBase64 | ImageBase64
    | BinaryResource1 | BinaryResource2

  /** A key is present once the field has been assigned; the value `None`
      is an assignment of `undefined` (a create answered without Location). */
  type Context = map<Field, Option<string>>

  /** Whether the scenario's creation fills the field: every field but the
      ones later steps assign. */
  predicate IsGenerated(f: Field) {
    !(f.PatientRef? || f.ProviderRef? || f.CdaBase64? || f.ImageBase64? || f.BinaryResource1? || f.BinaryResource2?)
  }

  /** The values the clock, `uuid()` and the fake-name generator produce;
      the `...Uuid` tokens become `urn:uuid:` temporary ids. */
  datatype Tokens = Tokens(
    timeNow: string, sourcePatId: string, firstName: string, lastName: string,
    docId: string, manifestMID: string, manifestUuid: string,
    docRefMID1: string, docRef1Uuid: string, docRefMID2: string, docRef2Uuid: string,
    binaryRef1Uuid: string, binaryRef2Uuid: string)

  const UrnPrefix: string := "urn:uuid:"

  /** The `urn:uuid:` tokens of the five bundle entries are pairwise distinct. */
  predicate DistinctTemporaryIds(t: Tokens) {
    var ids := [t.binaryRef1Uuid, t.binaryRef2Uuid, t.docRef1Uuid, t.docRef2Uuid, t.manifestUuid];
    forall i, j :: 0 <= i < j < |ids| ==> ids[i] != ids[j]
  }

  /** The value the scenario's creation gives a generated field. */
  function GeneratedValue(t: Tokens, f: Field): (r: string)
    requires IsGenerated(f)
  {
    match f
    case TimeNow => t.timeNow
    case SourcePatId => t.sourcePatId
    case FirstName => t.firstName
    case LastName => t.lastName
    case DocId => t.docId
    case ManifestMID => t.manifestMID
    case DocManifestRef => UrnPrefix + t.manifestUuid
    case DocRefMID1 => t.docRefMID1
    case DocRef1 => UrnPrefix + t.docRef1Uuid
    case DocRefMID2 => t.docRefMID2
    case DocRef2 => UrnPrefix + t.docRef2Uuid
    case BinaryRef1 => UrnPrefix + t.binaryRef1Uuid
    case BinaryRef2 => UrnPrefix + t.binaryRef2Uuid
  }

  /** The context as the scenario is created: every generated field is
      assigned a defined value and no later field is assigned yet. */
  function Initial(t: Tokens): (c: Context)
    ensures forall f :: f in c <==> IsGenerated(f)
    ensures forall f :: f in c ==> c[f].Some?
  {
    map f: Field | IsGenerated(f) :: Some(GeneratedValue(t, f))
  }

  /** `conf.f`: `undefined` when never assigned. */
  function Read(c: Context, f: Field): (v: Option<string>)
    ensures f !in c ==> v.None?
  {
    if f in c then c[f] else None
  }

  /** A value interpolated into a template literal: `undefined` prints as such. */
  function Show(v: Option<string>): (r: string) {
    match v
    case Some(s) => s
    case None => "undefined"
  }

  /** JavaScript truthiness of a string-or-undefined value. */
  predicate Truthy(v: Option<string>) {
    v.Some? && v.value != ""
  }
}
