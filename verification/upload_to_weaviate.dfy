/**
 * The local-documents upload script: gathers the loaded documents (CSV files
 * kept apart from the text splitter), normalises each document's metadata in
 * place, and pushes the documents to the store in batches of 1000. The
 * directory loaders, the text splitter and the store's `add_documents` are
 * replaced by their results.
 */
module UploadToWeaviate {
  import opened Json
  import opened Documents

  // ---------------------------------------------------------------------------
  // get_documents and the CSV concatenation
  // ---------------------------------------------------------------------------

  /** What `get_documents` returns: the non-CSV documents, and the CSV ones when there are any. */
  datatype LoadedDocuments = LoadedDocuments(docs: seq<Document>, csv: Option<seq<Document>>)

  /**
   * `get_documents`, given what the six loaders loaded: every kind but CSV is
   * combined in a fixed order, and an empty CSV list is returned as `None`.
   */
  function GetDocuments(pdf: seq<Document>, txt: seq<Document>, csv: seq<Document>,
                        docx: seq<Document>, pptx: seq<Document>, xlsx: seq<Document>): (r: LoadedDocuments)
    ensures |r.docs| == |pdf| + |txt| + |docx| + |pptx| + |xlsx|
    ensures r.docs[..|pdf|] == pdf && r.docs[|r.docs| - |xlsx|..] == xlsx
    ensures r.csv.None? <==> csv == []
    ensures r.csv.Some? ==> r.csv.value == csv
  {
    var docs := pdf + txt + docx + pptx + xlsx;
    assert docs[..|pdf|] == pdf;
    assert docs[|docs| - |xlsx|..] == xlsx;
    LoadedDocuments(docs, if csv != [] then Some(csv) else None)
  }

  /**
   * The documents the script uploads: the splitter's chunks of the non-CSV
   * documents, followed by the CSV documents unsplit.
   */
  function UploadSet(loaded: LoadedDocuments, split: seq<Document> -> seq<Document>): (r: seq<Document>)
    ensures |r| >= |split(loaded.docs)| && r[..|split(loaded.docs)|] == split(loaded.docs)
    ensures loaded.csv.Some? ==> r[|split(loaded.docs)|..] == loaded.csv.value
    ensures loaded.csv.None? ==> r == split(loaded.docs)
  {
    var chunks := split(loaded.docs);
    var r := if loaded.csv.Some? && loaded.csv.value != [] then chunks + loaded.csv.value else chunks;
    assert r[..|chunks|] == chunks;
    r
  }

  /** The CSV documents are never given to the splitter, and no CSV document is lost. */
  lemma CsvBypassesSplitter(pdf: seq<Document>, txt: seq<Document>, csv: seq<Document>,
                            docx: seq<Document>, pptx: seq<Document>, xlsx: seq<Document>,
                            split: seq<Document> -> seq<Document>)
    ensures var loaded := GetDocuments(pdf, txt, csv, docx, pptx, xlsx);
            UploadSet(loaded, split) == split(pdf + txt + docx + pptx + xlsx) + csv
  {
    var loaded := GetDocuments(pdf, txt, csv, docx, pptx, xlsx);
    if csv == [] {
      assert split(loaded.docs) + csv == split(loaded.docs);
    }
  }

  // ---------------------------------------------------------------------------
  // Metadata normalisation
  // ---------------------------------------------------------------------------

  /** The prefix the loaders leave in front of a local file's path. */
  const DirectoryPrefix := "Documents\\"

  /** The metadata keys the upload keeps. */
  const KeptKeys: set<string> := {"source", "page"}

  /**
   * Python `s.replace(pattern, "")`: scanning left to right, every occurrence
   * of `pattern` that does not overlap an earlier one is removed.
   */
  function RemoveAll(s: string, pattern: string): (r: string)
    requires pattern != []
    ensures |r| <= |s|
    ensures r == s || |r| <= |s| - |pattern|
    decreases |s|
  {
    if |s| < |pattern| then s
    else if pattern <= s then RemoveAll(s[|pattern|..], pattern)
    else [s[0]] + RemoveAll(s[1..], pattern)
  }

  /** A string without the pattern is left as it is. */
  lemma {:induction false} RemoveAllAbsent(s: string, pattern: string)
    requires pattern != [] && !IsSubstring(pattern, s)
    ensures RemoveAll(s, pattern) == s
    decreases |s|
  {
    if |s| >= |pattern| {
      assert !(pattern <= s);
      RemoveAllAbsent(s[1..], pattern);
      assert [s[0]] + s[1..] == s;
    }
  }

  /** A leading occurrence is dropped and the scan carries on after it. */
  lemma RemoveAllLeading(pattern: string, s: string)
    requires pattern != []
    ensures RemoveAll(pattern + s, pattern) == RemoveAll(s, pattern)
  {
    assert pattern <= pattern + s;
    assert (pattern + s)[|pattern|..] == s;
  }

  /**
   * An occurrence anywhere in the string is removed: the text before the
   * first occurrence is kept as it is, and the scan carries on after it.
   */
  lemma {:induction false} RemoveAllFirstOccurrence(a: string, pattern: string, b: string)
    requires pattern != []
    requires forall k :: 0 <= k < |a| ==> !(pattern <= (a + pattern + b)[k..])
    ensures RemoveAll(a + pattern + b, pattern) == a + RemoveAll(b, pattern)
    decreases |a|
  {
    if a == [] {
      assert a + pattern + b == pattern + b;
      RemoveAllLeading(pattern, b);
    } else {
      var s, t := a + pattern + b, a[1..] + pattern + b;
      assert t == s[1..];
      assert !(pattern <= s[0..]) && s[0..] == s;
      assert RemoveAll(s, pattern) == [a[0]] + RemoveAll(t, pattern);
      forall k | 0 <= k < |t| - |pattern + b|
        ensures !(pattern <= t[k..])
      {
        assert t[k..] == s[k + 1..];
      }
      RemoveAllFirstOccurrence(a[1..], pattern, b);
      assert a == [a[0]] + a[1..];
    }
  }

  /** A Windows-style path under the documents directory loses the directory. */
  lemma StripsDirectoryPrefix(path: string)
    requires !IsSubstring(DirectoryPrefix, path)
    ensures RemoveAll(DirectoryPrefix + path, DirectoryPrefix) == path
  {
    RemoveAllLeading(DirectoryPrefix, path);
    RemoveAllAbsent(path, DirectoryPrefix);
  }

  /** The metadata after the whitelist and the tag, before `source` is rewritten. */
  function TaggedMetadata(metadata: map<string, JValue>): (r: map<string, JValue>)
    ensures r.Keys == (metadata.Keys * KeptKeys) + {SourceKey}
    ensures r[SourceKey] == JStr("localdocs")
    ensures forall key :: key in metadata && key in KeptKeys ==> r[key] == metadata[key]
  {
    (map key | key in metadata && key in KeptKeys :: metadata[key])[SourceKey := JStr("localdocs")]
  }

  /**
   * The new metadata of one document: only `source` and `page` (when present)
   * are kept, `source_key` is set to "localdocs", and the directory prefix is
   * removed from `source`. A `source` that is not a string has no `replace`.
   */
  function NormalizedMetadata(metadata: map<string, JValue>): (r: Result<map<string, JValue>>)
    ensures r.Ok? <==> "source" !in metadata || metadata["source"].JStr?
    ensures r.Raise? ==> r.error == AttributeError("replace")
  {
    var tagged := TaggedMetadata(metadata);
    if "source" in tagged then
      if tagged["source"].JStr? then
        Ok(tagged["source" := JStr(RemoveAll(tagged["source"].s, DirectoryPrefix))])
      else
        Raise(AttributeError("replace"))
    else
      Ok(tagged)
  }

  /**
   * After normalisation the metadata holds exactly the present keys among
   * `source` and `page`, plus `source_key` = "localdocs"; `page` is kept as it
   * was and `source` loses the directory prefix.
   */
  lemma NormalizedShape(metadata: map<string, JValue>)
    ensures NormalizedMetadata(metadata).Ok? <==> "source" !in metadata || metadata["source"].JStr?
    ensures NormalizedMetadata(metadata).Ok? ==>
              var m := NormalizedMetadata(metadata).value;
              && m.Keys == (metadata.Keys * KeptKeys) + {SourceKey}
              && m[SourceKey] == JStr("localdocs")
              && ("page" in metadata ==> m["page"] == metadata["page"])
              && ("source" in metadata ==>
                    m["source"] == JStr(RemoveAll(metadata["source"].s, DirectoryPrefix)))
  {
    var tagged := TaggedMetadata(metadata);
    assert "source" in tagged <==> "source" in metadata;
    assert "page" in tagged <==> "page" in metadata;
    assert tagged.Keys == (metadata.Keys * KeptKeys) + {SourceKey};
  }

  /**
   * The loop over `docs`: each document's metadata is replaced in place. A
   * non-string `source` raises out of the loop, leaving the documents before
   * it normalised, that document whitelisted and tagged, and the rest as they
   * were.
   */
  method NormalizeDocuments(docs: array<Document>) returns (raised: Option<PyError>)
    modifies docs
    ensures raised.None? ==>
              forall i :: 0 <= i < docs.Length ==>
                docs[i].pageContent == old(docs[i].pageContent) &&
                NormalizedMetadata(old(docs[i].metadata)) == Ok(docs[i].metadata)
    ensures raised.Some? ==>
              raised == Some(AttributeError("replace")) &&
              exists k :: 0 <= k < docs.Length &&
                NormalizedMetadata(old(docs[k].metadata)).Raise? &&
                docs[k] == old(docs[k]).(metadata := TaggedMetadata(old(docs[k].metadata))) &&
                (forall i :: 0 <= i < k ==>
                   docs[i].pageContent == old(docs[i].pageContent) &&
                   NormalizedMetadata(old(docs[i].metadata)) == Ok(docs[i].metadata)) &&
                (forall i :: k < i < docs.Length ==> docs[i] == old(docs[i]))
  {
    for i := 0 to docs.Length
      invariant forall j :: 0 <= j < i ==>
                  docs[j].pageContent == old(docs[j].pageContent) &&
                  NormalizedMetadata(old(docs[j].metadata)) == Ok(docs[j].metadata)
      invariant forall j :: i <= j < docs.Length ==> docs[j] == old(docs[j])
    {
      var data := docs[i].metadata;
      docs[i] := docs[i].(metadata := TaggedMetadata(data));
      if "source" in docs[i].metadata {
        var source := docs[i].metadata["source"];
        if !source.JStr? {
          return Some(AttributeError("replace"));
        }
        docs[i] := docs[i].(metadata := docs[i].metadata["source" := JStr(RemoveAll(source.s, DirectoryPrefix))]);
      }
    }
    return None;
  }

  // ---------------------------------------------------------------------------
  // Batches
  // ---------------------------------------------------------------------------

  /** The number of documents pushed per request. */
  const ChunkSize: nat := 1000

  /**
   * The documents cut into consecutive batches of `ChunkSize`, the last one
   * possibly shorter. No batch is empty and none is too large.
   */
  function Batches(docs: seq<Document>): (r: seq<seq<Document>>)
    ensures forall k :: 0 <= k < |r| ==> 0 < |r[k]| <= ChunkSize
    decreases |docs|
  {
    if docs == [] then []
    else if |docs| <= ChunkSize then [docs]
    else [docs[..ChunkSize]] + Batches(docs[ChunkSize..])
  }

  /** The documents of a list of batches, in order. */
  function Flatten(batches: seq<seq<Document>>): seq<Document> {
    if batches == [] then [] else batches[0] + Flatten(batches[1..])
  }

  /** The number of batches there are: the total divided by the batch size, rounded up. */
  function ChunkCount(total: nat): nat {
    (total + ChunkSize - 1) / ChunkSize
  }

  /** The total the progress message announces, as the script computes it. */
  function AnnouncedChunkCount(total: nat): nat {
    total / ChunkSize + 1
  }

  /** Joining the batches gives back the documents: nothing is lost, repeated or reordered. */
  lemma {:induction false} BatchesCover(docs: seq<Document>)
    ensures Flatten(Batches(docs)) == docs
    decreases |docs|
  {
    if |docs| > ChunkSize {
      BatchesCover(docs[ChunkSize..]);
      assert docs[..ChunkSize] + docs[ChunkSize..] == docs;
    }
  }

  /** Batch k is `docs[k * 1000 : min(k * 1000 + 1000, total)]`, and there are `ChunkCount` of them. */
  lemma {:induction false} BatchesAt(docs: seq<Document>)
    ensures |Batches(docs)| == ChunkCount(|docs|)
    ensures forall k :: 0 <= k < |Batches(docs)| ==>
              k * ChunkSize < |docs| &&
              Batches(docs)[k] == docs[k * ChunkSize..Min(k * ChunkSize + ChunkSize, |docs|)]
    decreases |docs|
  {
    if |docs| > ChunkSize {
      var rest := docs[ChunkSize..];
      BatchesAt(rest);
      forall k | 1 <= k < |Batches(docs)|
        ensures k * ChunkSize < |docs|
        ensures Batches(docs)[k] == docs[k * ChunkSize..Min(k * ChunkSize + ChunkSize, |docs|)]
      {
        assert Batches(docs)[k] == Batches(rest)[k - 1];
        assert (k - 1) * ChunkSize + ChunkSize == k * ChunkSize;
      }
    }
  }

  function Min(a: int, b: int): int {
    if a <= b then a else b
  }

  /** What the loop reports for one batch: its number, its documents, and whether the push succeeded. */
  datatype BatchReport = BatchReport(number: nat, chunk: seq<Document>, pushed: bool)

  /**
   * The upload loop. `failing` holds the numbers of the batches whose
   * `add_documents` raises; such a batch is reported and the loop goes on.
   */
  method PushInBatches(docs: seq<Document>, failing: set<nat>) returns (log: seq<BatchReport>)
    ensures |log| == |Batches(docs)|
    ensures forall k :: 0 <= k < |log| ==>
              log[k] == BatchReport(k + 1, Batches(docs)[k], k + 1 !in failing)
  {
    BatchesAt(docs);
    var total := |docs|;
    log := [];
    var start := 0;
    while start < total
      invariant start == |log| * ChunkSize
      invariant |log| <= |Batches(docs)|
      invariant |log| < |Batches(docs)| <==> start < total
      invariant forall k :: 0 <= k < |log| ==>
                  log[k] == BatchReport(k + 1, Batches(docs)[k], k + 1 !in failing)
      decreases total - start
    {
      var end := Min(start + ChunkSize, total);
      var chunk := docs[start..end];
      var number := start / ChunkSize + 1;
      var pushed := number !in failing;
      log := log + [BatchReport(number, chunk, pushed)];
      start := start + ChunkSize;
    }
  }

  /** The announced total is one too many exactly when the total is a positive multiple of 1000. */
  lemma AnnouncedCountDiscrepancy(total: nat)
    requires total > 0
    ensures AnnouncedChunkCount(total) == ChunkCount(total) <==> total % ChunkSize != 0
    ensures total % ChunkSize == 0 ==> AnnouncedChunkCount(total) == ChunkCount(total) + 1
  {
  }

  /** 1000 documents are pushed as one batch, yet the message says "Pushing chunk 1 of 2". */
  lemma AnnouncedCountCounterexample()
    ensures AnnouncedChunkCount(1000) == 2
    ensures ChunkCount(1000) == 1
  {
  }
}
