/**
 * The deterministic part of ingestion: the configuration getters and the
 * normaliser that cleans chunk metadata and numbers the chunks.
 */
module Ingest {
  import opened Results
  import opened Environment
  import Decimal

  // ---------------------------------------------------------------------------
  // Configuration getters. Each fails fast with a RuntimeError when its
  // variable is unset or empty and otherwise returns the value unchanged.
  // ---------------------------------------------------------------------------

  function GetPdfPath(env: Env): (r: Result<string>)
    ensures r.Ok? <==> "PDF_PATH" in env && env["PDF_PATH"] != ""
    ensures r.Ok? ==> r.value == env["PDF_PATH"]
    ensures r.Err? ==> r.message == "Environment variable PDF_PATH is not set!"
  {
    RequireEnv(env, "PDF_PATH")
  }

  function GetEmbeddingModelName(env: Env): (r: Result<string>)
    ensures r.Ok? <==> "OPENAI_EMBEDDING_MODEL" in env && env["OPENAI_EMBEDDING_MODEL"] != ""
    ensures r.Ok? ==> r.value == env["OPENAI_EMBEDDING_MODEL"]
    ensures r.Err? ==> r.message == "Environment variable OPENAI_EMBEDDING_MODEL is not set!"
  {
    RequireEnv(env, "OPENAI_EMBEDDING_MODEL")
  }

  function GetCollectionName(env: Env): (r: Result<string>)
    ensures r.Ok? <==> "PG_VECTOR_COLLECTION_NAME" in env && env["PG_VECTOR_COLLECTION_NAME"] != ""
    ensures r.Ok? ==> r.value == env["PG_VECTOR_COLLECTION_NAME"]
    ensures r.Err? ==> r.message == "Environment variable PG_VECTOR_COLLECTION_NAME is not set!"
  {
    RequireEnv(env, "PG_VECTOR_COLLECTION_NAME")
  }

  function GetDbConnection(env: Env): (r: Result<string>)
    ensures r.Ok? <==> "DATABASE_URL" in env && env["DATABASE_URL"] != ""
    ensures r.Ok? ==> r.value == env["DATABASE_URL"]
    ensures r.Err? ==> r.message == "Environment variable DATABASE_URL is not set!"
  {
    RequireEnv(env, "DATABASE_URL")
  }

  // ---------------------------------------------------------------------------
  // Documents (LangChain's `Document`: text plus a metadata dictionary).
  // ---------------------------------------------------------------------------

  /** The scalar values a loader puts in chunk metadata; `Null` is Python's `None`. */
  datatype Value = Null | Str(s: string) | Int(i: int) | Bool(b: bool) | Float(f: real)

  datatype Document = Document(pageContent: string, metadata: map<string, Value>)

  /** `v in ("", None)`: only the empty string and `None` compare equal to a member. */
  predicate IsBlank(v: Value)
  {
    v == Null || v == Str("")
  }

  /** No metadata value of `m` is blank. */
  predicate Clean(m: map<string, Value>)
  {
    forall k :: k in m ==> !IsBlank(m[k])
  }

  /** `m` is `big` restricted to some of its keys, with the values unchanged. */
  predicate SubMap(m: map<string, Value>, big: map<string, Value>)
  {
    forall k :: k in m ==> k in big && m[k] == big[k]
  }

  /** The dictionary comprehension `{k: v for k, v in m.items() if v not in ("", None)}`. */
  function CleanMetadata(m: map<string, Value>): (r: map<string, Value>)
    ensures SubMap(r, m)
    ensures Clean(r)
    ensures forall k :: k in m && !IsBlank(m[k]) ==> k in r
  {
    map k | k in m && !IsBlank(m[k]) :: m[k]
  }

  function NormalizeDocument(d: Document): Document
  {
    Document(d.pageContent, CleanMetadata(d.metadata))
  }

  /** The id of the chunk at position `i`: `f"doc-{i}"`. */
  function ChunkId(i: nat): (id: string)
    ensures |id| >= 5 && id[..4] == "doc-"
    ensures Decimal.AllDigits(id[4..])
  {
    "doc-" + Decimal.NatToString(i)
  }

  /**
   * `get_normalized_documents`: every chunk keeps its text, loses the blank
   * metadata entries, and is paired with the id of its position.
   */
  function NormalizeDocuments(docs: seq<Document>): (r: (seq<Document>, seq<string>))
    ensures |r.0| == |docs| && |r.1| == |docs|
    ensures forall i :: 0 <= i < |docs| ==> r.0[i].pageContent == docs[i].pageContent
    ensures forall i :: 0 <= i < |docs| ==>
      SubMap(r.0[i].metadata, docs[i].metadata) && Clean(r.0[i].metadata)
    ensures forall i :: 0 <= i < |docs| ==> r.1[i] == ChunkId(i)
  {
    var normalized := seq(|docs|, i requires 0 <= i < |docs| => NormalizeDocument(docs[i]));
    var ids := seq(|normalized|, i requires 0 <= i < |normalized| => ChunkId(i));
    (normalized, ids)
  }

  // ---------------------------------------------------------------------------
  // Properties of the normaliser.
  // ---------------------------------------------------------------------------

  /** A metadata entry survives exactly when its value is neither "" nor None. */
  lemma CleanMetadataExact(m: map<string, Value>, k: string)
    ensures k in CleanMetadata(m) <==> k in m && !IsBlank(m[k])
    ensures k in CleanMetadata(m) ==> CleanMetadata(m)[k] == m[k]
  {
  }

  /** Cleaning clean metadata changes nothing. */
  lemma CleanMetadataIdempotent(m: map<string, Value>)
    ensures CleanMetadata(CleanMetadata(m)) == CleanMetadata(m)
  {
    var c := CleanMetadata(m);
    assert CleanMetadata(c).Keys == c.Keys;
  }

  /** The id of position `i` reads back as `i`. */
  lemma ChunkIdParses(i: nat)
    ensures ChunkId(i)[..4] == "doc-"
    ensures Decimal.ParseDigits(ChunkId(i)[4..]) == i
  {
    assert ChunkId(i)[4..] == Decimal.NatToString(i);
    Decimal.ParseNatToString(i);
  }

  /** Different positions get different ids. */
  lemma ChunkIdInjective(i: nat, j: nat)
    ensures ChunkId(i) == ChunkId(j) <==> i == j
  {
    if ChunkId(i) == ChunkId(j) {
      ChunkIdParses(i);
      ChunkIdParses(j);
    }
  }

  /** The ids produced for one run are pairwise distinct. */
  lemma NormalizedIdsDistinct(docs: seq<Document>)
    ensures var ids := NormalizeDocuments(docs).1;
      forall i, j :: 0 <= i < |ids| && 0 <= j < |ids| && i != j ==> ids[i] != ids[j]
  {
    var ids := NormalizeDocuments(docs).1;
    forall i, j | 0 <= i < |ids| && 0 <= j < |ids| && i != j
      ensures ids[i] != ids[j]
    {
      ChunkIdInjective(i, j);
    }
  }

  /** Output metadata is exactly the input metadata minus its blank entries. */
  lemma NormalizedMetadataExact(docs: seq<Document>, i: nat, k: string)
    requires i < |docs|
    ensures var m := NormalizeDocuments(docs).0[i].metadata;
      (k in m <==> k in docs[i].metadata && !IsBlank(docs[i].metadata[k]))
      && (k in m ==> m[k] == docs[i].metadata[k])
  {
    CleanMetadataExact(docs[i].metadata, k);
  }

  /** Normalising already-normalised documents yields the same documents and ids. */
  lemma NormalizeIdempotent(docs: seq<Document>)
    ensures NormalizeDocuments(NormalizeDocuments(docs).0) == NormalizeDocuments(docs)
  {
    var once := NormalizeDocuments(docs).0;
    var twice := NormalizeDocuments(once).0;
    forall i | 0 <= i < |docs|
      ensures twice[i] == once[i]
    {
      CleanMetadataIdempotent(docs[i].metadata);
    }
    assert twice == once;
    assert NormalizeDocuments(once).1 == NormalizeDocuments(docs).1;
  }

  /** The first ids of a run. */
  lemma ChunkIdExamples()
    ensures ChunkId(0) == "doc-0" && ChunkId(7) == "doc-7" && ChunkId(12) == "doc-12"
  {
    assert Decimal.NatToString(12) == "12" by {
      assert Decimal.NatToString(1) == "1";
    }
  }

  /** A single chunk keeps its text and is stored under the id doc-0. */
  lemma SingleChunkExample(text: string, m: map<string, Value>)
    ensures NormalizeDocuments([Document(text, m)]).1 == ["doc-0"]
    ensures NormalizeDocuments([Document(text, m)]).0 == [Document(text, CleanMetadata(m))]
  {
    ChunkIdExamples();
  }
}
