/**
 * The Confluence script's rewrite of the loaded pages before upload: each
 * page's metadata is copied, its `id` renamed to `pageid`, and the page tagged
 * with `source_key` = "confluence". The loader and the upload are left out.
 */
module ParseConfluence {
  import opened Json
  import opened Documents

  /** One page as the loop rebuilds it; `pop` without a default raises when there is no `id`. */
  function Rewritten(doc: Document): (r: Result<Document>)
    ensures r.Raise? <==> "id" !in doc.metadata
    ensures r.Raise? ==> r.error == KeyError("id")
    ensures r.Ok? ==> r.value.pageContent == doc.pageContent && "id" !in r.value.metadata
  {
    if "id" !in doc.metadata then Raise(KeyError("id"))
    else
      var metadata := (doc.metadata - {"id"})["pageid" := doc.metadata["id"]];
      Ok(Document(doc.pageContent, metadata[SourceKey := JStr("confluence")]))
  }

  /**
   * The loop building `new_documents`: one rewritten page per loaded page, in
   * order, or the `KeyError` of the first page without an `id`. The loaded
   * pages are values here, so the copy the loop works on cannot change them.
   */
  method RewriteDocuments(docs: seq<Document>) returns (r: Result<seq<Document>>)
    ensures r.Ok? <==> forall i :: 0 <= i < |docs| ==> "id" in docs[i].metadata
    ensures r.Raise? ==> r.error == KeyError("id")
    ensures r.Ok? ==> (|r.value| == |docs| &&
              forall i :: 0 <= i < |docs| ==> Rewritten(docs[i]) == Ok(r.value[i]))
  {
    var newDocuments: seq<Document> := [];
    for i := 0 to |docs|
      invariant |newDocuments| == i
      invariant forall j :: 0 <= j < i ==> "id" in docs[j].metadata
      invariant forall j :: 0 <= j < i ==> Rewritten(docs[j]) == Ok(newDocuments[j])
    {
      var metadata := docs[i].metadata;
      if "id" !in metadata {
        return Raise(KeyError("id"));
      }
      var id := metadata["id"];
      metadata := metadata - {"id"};
      metadata := metadata["pageid" := id];
      metadata := metadata[SourceKey := JStr("confluence")];
      newDocuments := newDocuments + [Document(docs[i].pageContent, metadata)];
    }
    return Ok(newDocuments);
  }

  /**
   * A rewritten page keeps its text; `pageid` holds the old `id`, `id` is gone,
   * `source_key` is "confluence" whatever it was, and every other key keeps
   * its value.
   */
  lemma RewrittenShape(doc: Document)
    requires "id" in doc.metadata
    ensures Rewritten(doc).Ok?
    ensures var m := Rewritten(doc).value.metadata;
            && Rewritten(doc).value.pageContent == doc.pageContent
            && m.Keys == (doc.metadata.Keys - {"id"}) + {"pageid", SourceKey}
            && m["pageid"] == doc.metadata["id"]
            && m[SourceKey] == JStr("confluence")
            && forall key :: key in doc.metadata && key !in {"id", "pageid", SourceKey} ==>
                 m[key] == doc.metadata[key]
  {
  }
}
