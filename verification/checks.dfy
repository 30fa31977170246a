/** The assertions each step makes about a response (`t.error`, then a
    list of `t.equals`), evaluated the way the callbacks evaluate them: in
    order, a false comparison recorded and passed over, a property read on
    `undefined` or `null` throwing and ending the list. */
module Checks {
  import opened Wrappers
  import opened Json
  import opened Http
  import opened Location

  /** `t.equals(<path into body>, expected)` */
  datatype Probe = Probe(path: seq<Key>, expected: Value)

  /** The assertions recorded, in order, and whether a throw cut the list short. */
  datatype Report = Report(results: seq<bool>, crashed: bool)

  predicate Passed(r: Report) {
    !r.crashed && forall k :: 0 <= k < |r.results| ==> r.results[k]
  }

  /** The expectation a context value gives: a string, or `undefined`. */
  function Expect(v: Option<string>): (r: Value) {
    match v
    case Some(s) => Str(s)
    case None => Undefined
  }

  /** The probes, one after the other, on the parsed body. */
  function Evaluate(b: Value, probes: seq<Probe>): (r: Report) {
    if probes == [] then Report([], false)
    else match Path(b, probes[0].path)
      case None => Report([], true)
      case Some(v) =>
        var rest := Evaluate(b, probes[1..]);
        Report([StrictEquals(v, probes[0].expected)] + rest.results, rest.crashed)
  }

  /** The list stops at the first probe whose path throws; every comparison
      before it is recorded, false ones included. */
  lemma EvaluateFacts(b: Value, probes: seq<Probe>)
    ensures var r := Evaluate(b, probes);
            && |r.results| <= |probes|
            && (r.crashed <==> exists k :: 0 <= k < |probes| && Path(b, probes[k].path).None?)
            && (!r.crashed ==> |r.results| == |probes|)
            && (r.crashed ==> |r.results| < |probes| && Path(b, probes[|r.results|].path).None?)
            && (forall k :: 0 <= k < |r.results| ==>
                  Path(b, probes[k].path).Some?
                  && r.results[k] == StrictEquals(Path(b, probes[k].path).value, probes[k].expected))
  {
    EvaluateRecords(b, probes);
    EvaluateStops(b, probes);
  }

  /** The comparisons recorded are those of the leading probes, in order. */
  lemma {:induction false} EvaluateRecords(b: Value, probes: seq<Probe>)
    ensures var r := Evaluate(b, probes);
            && |r.results| <= |probes|
            && (!r.crashed ==> |r.results| == |probes|)
            && (forall k :: 0 <= k < |r.results| ==>
                  Path(b, probes[k].path).Some?
                  && r.results[k] == StrictEquals(Path(b, probes[k].path).value, probes[k].expected))
    decreases |probes|
  {
    if probes != [] {
      EvaluateRecords(b, probes[1..]);
      assert forall k :: 1 <= k < |probes| ==> probes[k] == probes[1..][k - 1];
    }
  }

  /** The list is cut short exactly when some probe's path throws, and then
      right at the first such probe. */
  lemma {:induction false} EvaluateStops(b: Value, probes: seq<Probe>)
    ensures var r := Evaluate(b, probes);
            && (r.crashed <==> exists k :: 0 <= k < |probes| && Path(b, probes[k].path).None?)
            && (r.crashed ==> |r.results| < |probes| && Path(b, probes[|r.results|].path).None?)
    decreases |probes|
  {
    if probes != [] {
      EvaluateStops(b, probes[1..]);
      assert forall k :: 1 <= k < |probes| ==> probes[k] == probes[1..][k - 1];
    }
  }

  /** A response callback: `t.error(err)`, the status check, `JSON.parse`,
      then the probes. A transport error records the failed `t.error` and
      then throws on `res.statusCode`. */
  function CheckResponse(resp: Response, probes: seq<Probe>): (r: Report) {
    match resp
    case TransportError => Report([false], true)
    case Reply(status, _, None) => Report([true, status == 200], true)
    case Reply(status, _, Some(b)) =>
      var e := Evaluate(b, probes);
      Report([true, status == 200] + e.results, e.crashed)
  }

  /** What a callback records: `t.error` first, the status second, then
      the probes up to the first one that throws. */
  lemma CheckResponseFacts(resp: Response, probes: seq<Probe>)
    ensures var r := CheckResponse(resp, probes);
            && (!r.crashed <==>
                  && resp.Reply? && resp.body.Some?
                  && forall k :: 0 <= k < |probes| ==> Path(resp.body.value, probes[k].path).Some?)
            && (!r.crashed ==> |r.results| == 2 + |probes|)
            && |r.results| >= 1 && (r.results[0] <==> resp.Reply?)
            && (resp.Reply? ==> |r.results| >= 2 && (r.results[1] <==> resp.status == 200))
            && |r.results| <= 2 + |probes|
            && (resp.Reply? && resp.body.Some? ==>
                  forall k :: 0 <= k < |r.results| - 2 ==>
                    Path(resp.body.value, probes[k].path).Some? &&
                    r.results[k + 2] == StrictEquals(Path(resp.body.value, probes[k].path).value, probes[k].expected))
  {
    if resp.Reply? && resp.body.Some? {
      EvaluateFacts(resp.body.value, probes);
    }
  }

  const ResourceType: Key := Name("resourceType")

  /** `body.entry[i].resource.<name>` */
  function EntryResource(i: nat, name: string): (r: seq<Key>) {
    [Name("entry"), At(i), Name("resource"), Name(name)]
  }

  /** `body.entry[i].resource.masterIdentifier.value` */
  function EntryMaster(i: nat): (r: seq<Key>) {
    [Name("entry"), At(i), Name("resource"), Name("masterIdentifier"), Name("value")]
  }

  /** `searchManifest`: one DocumentManifest carrying the manifest's master identifier. */
  function ManifestProbes(manifestMID: Option<string>): (r: seq<Probe>) {
    [ Probe([ResourceType], Str("Bundle")),
      Probe([Name("type")], Str("searchset")),
      Probe([Name("total")], Num(1)),
      Probe(EntryResource(0, "resourceType"), Str("DocumentManifest")),
      Probe(EntryMaster(0), Expect(manifestMID)) ]
  }

  /** `searchReferences`: two DocumentReferences carrying the two master
      identifiers, in order. */
  function ReferenceProbes(docRefMID1: Option<string>, docRefMID2: Option<string>): (r: seq<Probe>) {
    [ Probe([ResourceType], Str("Bundle")),
      Probe([Name("type")], Str("searchset")),
      Probe([Name("total")], Num(2)),
      Probe(EntryResource(0, "resourceType"), Str("DocumentReference")),
      Probe(EntryMaster(0), Expect(docRefMID1)),
      Probe(EntryResource(1, "resourceType"), Str("DocumentReference")),
      Probe(EntryMaster(1), Expect(docRefMID2)) ]
  }

  /** `fetchBinary`: a Binary whose content is the submitted encoding. */
  function BinaryProbes(expected: Option<string>): (r: seq<Probe>) {
    [ Probe([ResourceType], Str("Binary")),
      Probe([Name("content")], Expect(expected)) ]
  }

  /** The assertions of the ITI-65 callback before its loop. */
  const ProvideProbes: seq<Probe> :=
    [ Probe([ResourceType], Str("Bundle")),
      Probe([Name("type")], Str("transaction-response")),
      Probe([Name("entry"), Name("length")], Num(5)) ]

  /** `e.response.location` */
  function LocationOf(e: Value): (r: Option<Value>) {
    Path(e, [Name("response"), Name("location")])
  }

  /** Whether the slot loop throws at an entry: its location cannot be read,
      has no `indexOf` (it is neither a string nor an array), or is an array
      holding the string `Binary`, on which `replace` is then called. */
  predicate ThrowsAt(e: Value) {
    var loc := LocationOf(e);
    || loc.None?
    || !(loc.value.Str? || loc.value.Arr?)
    || (loc.value.Arr? && Str(BinaryType) in loc.value.items)
  }

  /** The string locations the slot loop reaches, in entry order, or `None`
      when it throws. An array location without `Binary` as an item fails
      the `indexOf` test and its entry is passed over. */
  function EntryLocations(items: seq<Value>): (r: Option<seq<string>>) {
    if items == [] then Some([])
    else if ThrowsAt(items[0]) then None
    else match EntryLocations(items[1..])
      case None => None
      case Some(rest) =>
        var loc := LocationOf(items[0]).value;
        Some(if loc.Str? then [loc.s] + rest else rest)
  }

  /** The loop gets through exactly when no entry throws; it keeps at most
      one location per entry, and when every location is a string it keeps
      them all, in entry order. */
  lemma {:induction false} EntryLocationsFacts(items: seq<Value>)
    ensures var r := EntryLocations(items);
            && (r.Some? <==> forall k :: 0 <= k < |items| ==> !ThrowsAt(items[k]))
            && (r.Some? ==> |r.value| <= |items|)
            && ((forall k :: 0 <= k < |items| ==> LocationOf(items[k]).Some? && LocationOf(items[k]).value.Str?) ==>
                  && r.Some? && |r.value| == |items|
                  && forall k :: 0 <= k < |items| ==> LocationOf(items[k]) == Some(Str(r.value[k])))
    decreases |items|
  {
    if items != [] {
      EntryLocationsFacts(items[1..]);
      assert forall k :: 1 <= k < |items| ==> items[k] == items[1..][k - 1];
    }
  }

  /** An entry whose location is an array without `Binary` as an item
      changes nothing: the loop behaves as if it were not there. */
  lemma {:induction false} ArrayLocationSkipped(items: seq<Value>, k: nat)
    requires k < |items|
    requires LocationOf(items[k]).Some? && LocationOf(items[k]).value.Arr?
    requires Str(BinaryType) !in LocationOf(items[k]).value.items
    ensures EntryLocations(items) == EntryLocations(items[..k] + items[k + 1..])
    decreases k
  {
    if k == 0 {
      assert items[..0] + items[1..] == items[1..];
    } else {
      ArrayLocationSkipped(items[1..], k - 1);
      var rest := items[1..][..k - 1] + items[1..][k..];
      assert items[..k] + items[k + 1..] == [items[0]] + rest;
      assert ([items[0]] + rest)[1..] == rest;
    }
  }

  datatype ProvideResult = ProvideResult(report: Report, locations: seq<string>)

  /** The ITI-65 callback up to the slot assignment: its assertions, and the
      entry locations the loop goes on to visit. */
  function CheckProvide(resp: Response): (r: ProvideResult) {
    var report := CheckResponse(resp, ProvideProbes);
    if report.crashed then ProvideResult(report, [])
    else
      match Path(resp.body.value, [Name("entry")])
      case None => ProvideResult(Report(report.results, true), [])
      case Some(entries) =>
        match Iterate(entries)
        case None => ProvideResult(Report(report.results, true), [])
        case Some(items) =>
          match EntryLocations(items)
          case None => ProvideResult(Report(report.results, true), [])
          case Some(locs) => ProvideResult(report, locs)
  }

  /** A callback that did not throw recorded its five assertions, found an
      iterable `entry` and kept the string locations of its items. */
  lemma CheckProvideFacts(resp: Response)
    ensures var r := CheckProvide(resp);
            && (!r.report.crashed ==> |r.report.results| == 5)
            && (!r.report.crashed ==> resp.Reply? && resp.body.Some?)
            && (!r.report.crashed ==>
                  && var entries := Path(resp.body.value, [Name("entry")]);
                     entries.Some? && Iterate(entries.value).Some?
                     && EntryLocations(Iterate(entries.value).value) == Some(r.locations))
  {
    CheckResponseFacts(resp, ProvideProbes);
    var report := CheckResponse(resp, ProvideProbes);
    if !report.crashed {
      var entries := Path(resp.body.value, [Name("entry")]);
      if entries.Some? && Iterate(entries.value).Some? {
        EntryLocationsFacts(Iterate(entries.value).value);
      }
    }
  }
}

/** The checks stated as properties of the response itself. */
module CheckFacts {
  import opened Wrappers
  import opened Json
  import opened Http
  import opened Checks

  predicate HasField(v: Value, name: string, w: Value) {
    v.Obj? && name in v.fields && v.fields[name] == w
  }

  /** A search-set bundle reporting `total` results. */
  ghost predicate IsSearchset(b: Value, total: int) {
    && HasField(b, "resourceType", Str("Bundle"))
    && HasField(b, "type", Str("searchset"))
    && HasField(b, "total", Num(total))
  }

  /** Item `i` of a collection read with `c[i]`: an array's item, or an
      object's property named by the decimal form of `i`. */
  function ItemAt(c: Value, i: nat): (r: Option<Value>) {
    if c.Arr? && i < |c.items| then Some(c.items[i])
    else if c.Obj? && NatToString(i) in c.fields then Some(c.fields[NatToString(i)])
    else None
  }

  /** `entry[i]` holds a resource of type `rt` whose master identifier is `mid`. */
  ghost predicate EntryCarries(b: Value, i: nat, rt: string, mid: string) {
    && b.Obj? && "entry" in b.fields
    && ItemAt(b.fields["entry"], i).Some?
    && var e := ItemAt(b.fields["entry"], i).value;
       && e.Obj? && "resource" in e.fields
       && var res := e.fields["resource"];
          && HasField(res, "resourceType", Str(rt))
          && "masterIdentifier" in res.fields
          && HasField(res.fields["masterIdentifier"], "value", Str(mid))
  }

  /** A named property read that yields a string or number came from an object field. */
  lemma GetNamed(v: Value, n: string, w: Value)
    requires n != "length" && ParseIndex(n).None? && (w.Str? || w.Num?)
    ensures Lookup(v, Name(n)) == Some(w) <==> HasField(v, n, w)
  {
  }

  /** An indexed read that yields an object came from an array item or
      from an object property named by the index. */
  lemma GetIndexed(v: Value, i: nat, w: Value)
    requires w.Obj?
    ensures Lookup(v, At(i)) == Some(w) <==> ItemAt(v, i) == Some(w)
  {
  }

  /** A named read that yields an object or an array came from an object field. */
  lemma GetNamedObject(v: Value, n: string, w: Value)
    requires ParseIndex(n).None? && (w.Obj? || w.Arr?)
    ensures Lookup(v, Name(n)) == Some(w) <==> HasField(v, n, w)
  {
  }

  lemma TopLevel(b: Value, n: string, w: Value)
    requires n != "length" && ParseIndex(n).None? && (w.Str? || w.Num?)
    ensures Path(b, [Name(n)]) == Some(w) <==> HasField(b, n, w)
  {
    GetNamed(b, n, w);
    assert [Name(n)][1..] == [];
  }

  /** `body.entry[i].resource` */
  function EntryPrefix(i: nat): (r: seq<Key>) {
    [Name("entry"), At(i), Name("resource")]
  }

  /** Reading `entry[i].resource` yields an object exactly when the body
      has an `entry` collection whose item `i` holds that object as `resource`. */
  lemma {:induction false} ResourceAt(b: Value, i: nat, res: Value)
    requires res.Obj?
    ensures Path(b, EntryPrefix(i)) == Some(res) <==>
              && b.Obj? && "entry" in b.fields
              && ItemAt(b.fields["entry"], i).Some?
              && HasField(ItemAt(b.fields["entry"], i).value, "resource", res)
  {
    var p := EntryPrefix(i);
    assert p[1..] == [At(i), Name("resource")];
    assert p[2..] == [Name("resource")];
    assert p[3..] == [];
    var x1 := Lookup(b, Name("entry"));
    if x1.Some? {
      assert Path(b, p) == Path(x1.value, p[1..]);
      var x2 := Lookup(x1.value, At(i));
      if x2.Some? {
        assert Path(x1.value, p[1..]) == Path(x2.value, p[2..]);
        assert Path(x2.value, p[2..]) == Lookup(x2.value, Name("resource"));
        GetNamedObject(x2.value, "resource", res);
        if x2.value.Obj? {
          GetIndexed(x1.value, i, x2.value);
        }
        if x1.value.Arr? || x1.value.Obj? {
          GetNamedObject(b, "entry", x1.value);
        }
      }
    }
  }

  /** The two probes on `entry[i]` succeed exactly when the entry carries the resource. */
  lemma {:induction false} EntryPaths(b: Value, i: nat, rt: string, mid: string)
    ensures (Path(b, EntryResource(i, "resourceType")) == Some(Str(rt))
             && Path(b, EntryMaster(i)) == Some(Str(mid)))
            <==> EntryCarries(b, i, rt, mid)
  {
    var pre := EntryPrefix(i);
    var typeKeys := [Name("resourceType")];
    var masterKeys := [Name("masterIdentifier"), Name("value")];
    assert EntryResource(i, "resourceType") == pre + typeKeys;
    assert EntryMaster(i) == pre + masterKeys;
    PathConcat(b, pre, typeKeys);
    PathConcat(b, pre, masterKeys);
    var o := Path(b, pre);
    if o.Some? {
      var res := o.value;
      TopLevel(res, "resourceType", Str(rt));
      assert masterKeys[1..] == [Name("value")];
      var mi := Lookup(res, Name("masterIdentifier"));
      if mi.Some? {
        TopLevel(mi.value, "value", Str(mid));
      }
      if res.Obj? {
        ResourceAt(b, i, res);
      }
    }
    if EntryCarries(b, i, rt, mid) {
      var res := ItemAt(b.fields["entry"], i).value.fields["resource"];
      ResourceAt(b, i, res);
      TopLevel(res, "resourceType", Str(rt));
      TopLevel(res.fields["masterIdentifier"], "value", Str(mid));
      assert masterKeys[1..] == [Name("value")];
    }
  }

  /** With primitive expectations, a response passes exactly when it is a 200
      whose body answers every probe with its expected value. */
  lemma PassedIffAllMatch(resp: Response, probes: seq<Probe>)
    requires forall k :: 0 <= k < |probes| ==> IsPrimitive(probes[k].expected)
    ensures Passed(CheckResponse(resp, probes)) <==>
              && resp.Reply? && resp.status == 200 && resp.body.Some?
              && AllMatch(resp.body.value, probes)
  {
    CheckResponseFacts(resp, probes);
    var r := CheckResponse(resp, probes);
    if Passed(r) {
      assert r.results[0] && r.results[1];
      forall k | 0 <= k < |probes|
        ensures Path(resp.body.value, probes[k].path) == Some(probes[k].expected)
      {
        assert r.results[k + 2];
      }
    }
    if resp.Reply? && resp.status == 200 && resp.body.Some? && AllMatch(resp.body.value, probes) {
      assert !r.crashed;
      forall k | 0 <= k < |r.results|
        ensures r.results[k]
      {
        if k >= 2 {
          assert Path(resp.body.value, probes[k - 2].path) == Some(probes[k - 2].expected);
        }
      }
    }
  }

  /** Every probe of a list is answered with its expected value. */
  ghost predicate AllMatch(b: Value, probes: seq<Probe>) {
    forall k :: 0 <= k < |probes| ==> Path(b, probes[k].path) == Some(probes[k].expected)
  }

  /** The five expectations of a manifest search, one by one. */
  ghost predicate ManifestAnswers(b: Value, mid: string) {
    && Path(b, [ResourceType]) == Some(Str("Bundle"))
    && Path(b, [Name("type")]) == Some(Str("searchset"))
    && Path(b, [Name("total")]) == Some(Num(1))
    && Path(b, EntryResource(0, "resourceType")) == Some(Str("DocumentManifest"))
    && Path(b, EntryMaster(0)) == Some(Str(mid))
  }

  lemma ManifestProbesSound(b: Value, mid: string)
    requires AllMatch(b, ManifestProbes(Some(mid)))
    ensures ManifestAnswers(b, mid)
  {
    var probes := ManifestProbes(Some(mid));
    assert Path(b, probes[0].path) == Some(probes[0].expected);
    assert Path(b, probes[1].path) == Some(probes[1].expected);
    assert Path(b, probes[2].path) == Some(probes[2].expected);
    assert Path(b, probes[3].path) == Some(probes[3].expected);
    assert Path(b, probes[4].path) == Some(probes[4].expected);
  }

  lemma ManifestProbesComplete(b: Value, mid: string)
    requires ManifestAnswers(b, mid)
    ensures AllMatch(b, ManifestProbes(Some(mid)))
  {
  }

  lemma ManifestBody(b: Value, manifestMID: string)
    ensures AllMatch(b, ManifestProbes(Some(manifestMID))) <==>
              IsSearchset(b, 1) && EntryCarries(b, 0, "DocumentManifest", manifestMID)
  {
    if AllMatch(b, ManifestProbes(Some(manifestMID))) {
      ManifestProbesSound(b, manifestMID);
    }
    if ManifestAnswers(b, manifestMID) {
      ManifestProbesComplete(b, manifestMID);
    }
    TopLevel(b, "resourceType", Str("Bundle"));
    TopLevel(b, "type", Str("searchset"));
    TopLevel(b, "total", Num(1));
    EntryPaths(b, 0, "DocumentManifest", manifestMID);
  }

  /** ITI-66's check passes iff the result is a one-entry search set whose
      entry is a DocumentManifest with the expected master identifier. */
  lemma ManifestCheckIff(resp: Response, manifestMID: string)
    ensures Passed(CheckResponse(resp, ManifestProbes(Some(manifestMID)))) <==>
              && resp.Reply? && resp.status == 200 && resp.body.Some?
              && IsSearchset(resp.body.value, 1)
              && EntryCarries(resp.body.value, 0, "DocumentManifest", manifestMID)
  {
    PassedIffAllMatch(resp, ManifestProbes(Some(manifestMID)));
    if resp.Reply? && resp.body.Some? {
      ManifestBody(resp.body.value, manifestMID);
    }
  }

  /** The seven expectations of a reference search, one by one. */
  ghost predicate ReferenceAnswers(b: Value, mid1: string, mid2: string) {
    && Path(b, [ResourceType]) == Some(Str("Bundle"))
    && Path(b, [Name("type")]) == Some(Str("searchset"))
    && Path(b, [Name("total")]) == Some(Num(2))
    && Path(b, EntryResource(0, "resourceType")) == Some(Str("DocumentReference"))
    && Path(b, EntryMaster(0)) == Some(Str(mid1))
    && Path(b, EntryResource(1, "resourceType")) == Some(Str("DocumentReference"))
    && Path(b, EntryMaster(1)) == Some(Str(mid2))
  }

  lemma ReferenceProbesSound(b: Value, mid1: string, mid2: string)
    requires AllMatch(b, ReferenceProbes(Some(mid1), Some(mid2)))
    ensures ReferenceAnswers(b, mid1, mid2)
  {
    var probes := ReferenceProbes(Some(mid1), Some(mid2));
    assert Path(b, probes[0].path) == Some(probes[0].expected);
    assert Path(b, probes[1].path) == Some(probes[1].expected);
    assert Path(b, probes[2].path) == Some(probes[2].expected);
    assert Path(b, probes[3].path) == Some(probes[3].expected);
    assert Path(b, probes[4].path) == Some(probes[4].expected);
    assert Path(b, probes[5].path) == Some(probes[5].expected);
    assert Path(b, probes[6].path) == Some(probes[6].expected);
  }

  lemma ReferenceProbesComplete(b: Value, mid1: string, mid2: string)
    requires ReferenceAnswers(b, mid1, mid2)
    ensures AllMatch(b, ReferenceProbes(Some(mid1), Some(mid2)))
  {
    var probes := ReferenceProbes(Some(mid1), Some(mid2));
    forall k | 0 <= k < |probes|
      ensures Path(b, probes[k].path) == Some(probes[k].expected)
    {
      if k < 3 {
        assert probes[k] == [Probe([ResourceType], Str("Bundle")), Probe([Name("type")], Str("searchset")),
                             Probe([Name("total")], Num(2))][k];
      } else {
        assert probes[k] == [Probe(EntryResource(0, "resourceType"), Str("DocumentReference")),
                             Probe(EntryMaster(0), Str(mid1)),
                             Probe(EntryResource(1, "resourceType"), Str("DocumentReference")),
                             Probe(EntryMaster(1), Str(mid2))][k - 3];
      }
    }
  }

  lemma ReferenceBody(b: Value, mid1: string, mid2: string)
    ensures AllMatch(b, ReferenceProbes(Some(mid1), Some(mid2))) <==>
              && IsSearchset(b, 2)
              && EntryCarries(b, 0, "DocumentReference", mid1)
              && EntryCarries(b, 1, "DocumentReference", mid2)
  {
    if AllMatch(b, ReferenceProbes(Some(mid1), Some(mid2))) {
      ReferenceProbesSound(b, mid1, mid2);
    }
    if ReferenceAnswers(b, mid1, mid2) {
      ReferenceProbesComplete(b, mid1, mid2);
    }
    TopLevel(b, "resourceType", Str("Bundle"));
    TopLevel(b, "type", Str("searchset"));
    TopLevel(b, "total", Num(2));
    EntryPaths(b, 0, "DocumentReference", mid1);
    EntryPaths(b, 1, "DocumentReference", mid2);
  }

  /** ITI-67's check passes iff the result is a two-entry search set whose
      entries carry the two master identifiers in that order. */
  lemma ReferenceCheckIff(resp: Response, mid1: string, mid2: string)
    ensures Passed(CheckResponse(resp, ReferenceProbes(Some(mid1), Some(mid2)))) <==>
              && resp.Reply? && resp.status == 200 && resp.body.Some?
              && IsSearchset(resp.body.value, 2)
              && EntryCarries(resp.body.value, 0, "DocumentReference", mid1)
              && EntryCarries(resp.body.value, 1, "DocumentReference", mid2)
  {
    PassedIffAllMatch(resp, ReferenceProbes(Some(mid1), Some(mid2)));
    if resp.Reply? && resp.body.Some? {
      ReferenceBody(resp.body.value, mid1, mid2);
    }
  }

  /** The order matters: references returned the other way round fail. */
  lemma SwappedReferencesFail(resp: Response, mid1: string, mid2: string)
    requires mid1 != mid2
    requires resp.Reply? && resp.body.Some?
    requires EntryCarries(resp.body.value, 0, "DocumentReference", mid2)
    ensures !Passed(CheckResponse(resp, ReferenceProbes(Some(mid1), Some(mid2))))
  {
    ReferenceCheckIff(resp, mid1, mid2);
  }

  /** The two expectations of a Binary read, one by one. */
  lemma BinaryBody(b: Value, expected: string)
    ensures AllMatch(b, BinaryProbes(Some(expected))) <==>
              HasField(b, "resourceType", Str("Binary")) && HasField(b, "content", Str(expected))
  {
    var probes := BinaryProbes(Some(expected));
    assert probes[0].path == [Name("resourceType")] && probes[0].expected == Str("Binary");
    assert probes[1].path == [Name("content")] && probes[1].expected == Str(expected);
    assert AllMatch(b, probes) <==>
      && Path(b, probes[0].path) == Some(probes[0].expected)
      && Path(b, probes[1].path) == Some(probes[1].expected);
    TopLevel(b, "resourceType", Str("Binary"));
    TopLevel(b, "content", Str(expected));
  }

  /** ITI-68's check passes iff the server returns a Binary whose content is
      exactly the encoding submitted in ITI-65. */
  lemma BinaryCheckIff(resp: Response, expected: string)
    ensures Passed(CheckResponse(resp, BinaryProbes(Some(expected)))) <==>
              && resp.Reply? && resp.status == 200 && resp.body.Some?
              && HasField(resp.body.value, "resourceType", Str("Binary"))
              && HasField(resp.body.value, "content", Str(expected))
  {
    PassedIffAllMatch(resp, BinaryProbes(Some(expected)));
    if resp.Reply? && resp.body.Some? {
      BinaryBody(resp.body.value, expected);
    }
  }

  /** A false comparison never stops the later ones: whenever nothing throws,
      all seven assertions of a reference search are recorded. */
  lemma ReferenceChecksAllEvaluated(resp: Response, mid1: Option<string>, mid2: Option<string>)
    requires !CheckResponse(resp, ReferenceProbes(mid1, mid2)).crashed
    ensures |CheckResponse(resp, ReferenceProbes(mid1, mid2)).results| == 9
  {
    CheckResponseFacts(resp, ReferenceProbes(mid1, mid2));
  }
}
