/** Resource templates and `buildDocumentBundle`: the five-entry transaction
    bundle built once after the patient and the practitioner exist. */
module Bundles {
  import opened Wrappers
  import opened ScenarioContext

  /** The resource templates, one per sample file (`Patient-1.json`,
      `Practitioner-1.json`, `CDA-APHP-1.xml`, `Image-1.png`, `Binary-1.json`,
      `Binary-2.json`, `DocumentReference-1.json`, `DocumentReference-2.json`,
      `DocumentManifest-1.json`). */
  datatype Template =
    | PatientDoc | PractitionerDoc
    | CdaDoc | ImageDoc
    | Binary1Doc | Binary2Doc | DocRef1Doc | DocRef2Doc | ManifestDoc

  /** The templates that embed the encoded document content. */
  predicate EmbedsContent(t: Template) {
    t.Binary1Doc? || t.Binary2Doc? || t.DocRef1Doc? || t.DocRef2Doc? || t.ManifestDoc?
  }

  /** `loadResource(file, conf)`: reading the file and rendering it against
      the context as it is at that moment (no HTML escaping). */
  type Renderer = (Template, Context) -> string

  /** One call of the renderer, with the context it saw. */
  datatype Rendering = Rendering(template: Template, snapshot: Context)

  /** A bundle entry: temporary id, rendered resource, and `request.method` / `request.url`. */
  datatype Entry = Entry(fullUrl: Option<string>, resource: string, requestMethod: string, requestUrl: string)

  datatype Bundle = Bundle(resourceType: string, bundleType: string, entries: seq<Entry>)

  datatype Built = Built(ctx: Context, bundle: Bundle, renders: seq<Rendering>)

  /** `buildDocumentBundle`: render the document and the image, store their
      base64 encodings, then render the five entry resources. */
  function BuildDocumentBundle(render: Renderer, base64: string -> string, c: Context): (b: Built)
    ensures |b.renders| == 7 && |b.bundle.entries| == 5
  {
    var cda := render(CdaDoc, c);
    var c1 := c[CdaBase64 := Some(base64(cda))];
    var image := render(ImageDoc, c1);
    var c2 := c1[ImageBase64 := Some(base64(image))];
    var bundle := Bundle("Bundle", "transaction", [
      Entry(Read(c2, BinaryRef1), render(Binary1Doc, c2), "POST", "Binary"),
      Entry(Read(c2, BinaryRef2), render(Binary2Doc, c2), "POST", "Binary"),
      Entry(Read(c2, DocRef1), render(DocRef1Doc, c2), "POST", "DocumentReference"),
      Entry(Read(c2, DocRef2), render(DocRef2Doc, c2), "POST", "DocumentReference"),
      Entry(Read(c2, DocManifestRef), render(ManifestDoc, c2), "POST", "DocumentManifest")
    ]);
    Built(c2, bundle, [
      Rendering(CdaDoc, c), Rendering(ImageDoc, c1),
      Rendering(Binary1Doc, c2), Rendering(Binary2Doc, c2),
      Rendering(DocRef1Doc, c2), Rendering(DocRef2Doc, c2), Rendering(ManifestDoc, c2)
    ])
  }

  /** The entries' temporary ids, in entry order. */
  function FullUrls(es: seq<Entry>): (u: seq<Option<string>>)
    ensures |u| == |es| && forall i :: 0 <= i < |es| ==> u[i] == es[i].fullUrl
  {
    if es == [] then [] else [es[0].fullUrl] + FullUrls(es[1..])
  }

  /** Building adds exactly the two encodings to the context and changes
      nothing else; the entries are rendered from the Binary, Binary,
      DocumentReference, DocumentReference and DocumentManifest templates,
      in that order, and each entry's resource is its rendering. */
  lemma BundleContext(render: Renderer, base64: string -> string, c: Context)
    ensures var b := BuildDocumentBundle(render, base64, c);
            && b.ctx.Keys == c.Keys + {CdaBase64, ImageBase64}
            && (forall f :: f in c && f != CdaBase64 && f != ImageBase64 ==> b.ctx[f] == c[f])
            && [b.renders[2].template, b.renders[3].template, b.renders[4].template,
                b.renders[5].template, b.renders[6].template]
               == [Binary1Doc, Binary2Doc, DocRef1Doc, DocRef2Doc, ManifestDoc]
            && forall i :: 0 <= i < 5 ==>
                 b.bundle.entries[i].resource == render(b.renders[i + 2].template, b.renders[i + 2].snapshot)
  {
  }

  /** The bundle is a transaction of five POSTs: two Binary, two
      DocumentReference, one DocumentManifest, in that order. */
  lemma BundleShape(render: Renderer, base64: string -> string, c: Context)
    ensures var b := BuildDocumentBundle(render, base64, c).bundle;
            && b.resourceType == "Bundle" && b.bundleType == "transaction"
            && |b.entries| == 5
            && (forall i :: 0 <= i < 5 ==> b.entries[i].requestMethod == "POST")
            && [b.entries[0].requestUrl, b.entries[1].requestUrl, b.entries[2].requestUrl,
                b.entries[3].requestUrl, b.entries[4].requestUrl]
               == ["Binary", "Binary", "DocumentReference", "DocumentReference", "DocumentManifest"]
  {
  }

  /** Each entry carries its temporary id from the context. */
  lemma BundleFullUrls(render: Renderer, base64: string -> string, c: Context)
    ensures FullUrls(BuildDocumentBundle(render, base64, c).bundle.entries)
            == [Read(c, BinaryRef1), Read(c, BinaryRef2), Read(c, DocRef1),
                Read(c, DocRef2), Read(c, DocManifestRef)]
  {
  }

  /** The document is rendered against the context as given and its encoding
      stored before the image is rendered; both encodings end up in the
      context the bundle step leaves. */
  lemma EncodingsStored(render: Renderer, base64: string -> string, c: Context)
    ensures var b := BuildDocumentBundle(render, base64, c);
            var cda := Some(base64(render(CdaDoc, c)));
            var image := Some(base64(render(ImageDoc, c[CdaBase64 := cda])));
            && b.renders[0] == Rendering(CdaDoc, c)
            && b.renders[1] == Rendering(ImageDoc, c[CdaBase64 := cda])
            && Read(b.ctx, CdaBase64) == cda && Read(b.ctx, ImageBase64) == image
  {
  }

  /** The five entry templates, and only they, embed the encodings, and each
      is rendered against the context the bundle step leaves. */
  lemma EntriesRenderedLast(render: Renderer, base64: string -> string, c: Context)
    ensures var b := BuildDocumentBundle(render, base64, c);
            && !EmbedsContent(b.renders[0].template) && !EmbedsContent(b.renders[1].template)
            && forall i :: 2 <= i < |b.renders| ==>
                 EmbedsContent(b.renders[i].template) && b.renders[i].snapshot == b.ctx
  {
  }

  /** Both encodings are stored in the context before any template that
      embeds them is rendered, and every such template sees the same values. */
  lemma ContentStoredBeforeEmbedding(render: Renderer, base64: string -> string, c: Context)
    ensures var b := BuildDocumentBundle(render, base64, c);
            var cda := Some(base64(render(CdaDoc, c)));
            var image := Some(base64(render(ImageDoc, c[CdaBase64 := cda])));
            && b.renders[0] == Rendering(CdaDoc, c)
            && b.renders[1] == Rendering(ImageDoc, c[CdaBase64 := cda])
            && (forall i :: 0 <= i < |b.renders| && EmbedsContent(b.renders[i].template) ==>
                  Read(b.renders[i].snapshot, CdaBase64) == cda
                  && Read(b.renders[i].snapshot, ImageBase64) == image)
            && (forall i :: 2 <= i < |b.renders| ==>
                  EmbedsContent(b.renders[i].template) && b.renders[i].snapshot == b.ctx)
            && Read(b.ctx, CdaBase64) == cda && Read(b.ctx, ImageBase64) == image
  {
    EncodingsStored(render, base64, c);
    EntriesRenderedLast(render, base64, c);
  }

  lemma PrefixInjective(p: string, a: string, b: string)
    requires p + a == p + b
    ensures a == b
  {
    assert a == (p + a)[|p|..];
    assert b == (p + b)[|p|..];
  }

  /** The temporary ids a context holding the generated values gives the
      five entries, in entry order. */
  lemma GeneratedIds(t: Tokens, c: Context)
    requires DistinctTemporaryIds(t)
    requires forall f :: IsGenerated(f) ==> f in c && c[f] == Some(GeneratedValue(t, f))
    ensures var u := [Read(c, BinaryRef1), Read(c, BinaryRef2), Read(c, DocRef1),
                      Read(c, DocRef2), Read(c, DocManifestRef)];
            && (forall i :: 0 <= i < |u| ==> u[i].Some?)
            && forall i, j :: 0 <= i < j < |u| ==> u[i] != u[j]
  {
    var ids := [t.binaryRef1Uuid, t.binaryRef2Uuid, t.docRef1Uuid, t.docRef2Uuid, t.manifestUuid];
    var u := [Read(c, BinaryRef1), Read(c, BinaryRef2), Read(c, DocRef1),
              Read(c, DocRef2), Read(c, DocManifestRef)];
    assert forall i :: 0 <= i < 5 ==> u[i] == Some(UrnPrefix + ids[i]);
    forall i, j | 0 <= i < j < |u| ensures u[i] != u[j] {
      if u[i] == u[j] {
        PrefixInjective(UrnPrefix, ids[i], ids[j]);
      }
    }
  }

  lemma DistinctEntries(es: seq<Entry>, u: seq<Option<string>>)
    requires |es| == |u| && forall i :: 0 <= i < |es| ==> es[i].fullUrl == u[i]
    requires forall i :: 0 <= i < |u| ==> u[i].Some?
    requires forall i, j :: 0 <= i < j < |u| ==> u[i] != u[j]
    ensures forall i :: 0 <= i < |es| ==> es[i].fullUrl.Some?
    ensures forall i, j :: 0 <= i < j < |es| ==> es[i].fullUrl != es[j].fullUrl
  {
  }

  /** With distinct `uuid()` tokens the five temporary ids are pairwise
      distinct, so the server can tell the entries apart. */
  lemma TemporaryIdsDistinct(t: Tokens, render: Renderer, base64: string -> string, c: Context)
    requires DistinctTemporaryIds(t)
    requires forall f :: IsGenerated(f) ==> f in c && c[f] == Some(GeneratedValue(t, f))
    ensures var e := BuildDocumentBundle(render, base64, c).bundle.entries;
            && (forall i :: 0 <= i < |e| ==> e[i].fullUrl.Some?)
            && forall i, j :: 0 <= i < j < |e| ==> e[i].fullUrl != e[j].fullUrl
  {
    BundleFullUrls(render, base64, c);
    GeneratedIds(t, c);
    DistinctEntries(BuildDocumentBundle(render, base64, c).bundle.entries,
      [Read(c, BinaryRef1), Read(c, BinaryRef2), Read(c, DocRef1), Read(c, DocRef2), Read(c, DocManifestRef)]);
  }
}
