/** The first ingester, `ingested_master.py` at the top of the repository: its text cleaner
    with the larger replacement map, the page loop, the three parallel lists prepared for
    ChromaDB and the batches of ten sent to the collection. The PDF reader, the splitter and
    ChromaDB are inputs: page texts, chunks and the outcome of each `add` are parameters. */
module ChromaIngest {
  import opened Base
  import opened PyText
  import TextRepair
  import Batching
  import Decimal

  // ---------------------------------------------------------------------------
  // clean_and_repair_text

  /** The replacement map, in its dictionary order: U+F0E0, U+F0A7, '⇒', '→', '∀', '∃', '–',
      and the two curly double quotes. */
  const Repairs: Replacements :=
    [('\U{F0E0}', "->"), ('\U{F0A7}', "->"), ('\U{21D2}', "=>"), ('\U{2192}', "->"),
     ('\U{2200}', "For all"), ('\U{2203}', "There exists"), ('\U{2013}', "-"),
     ('\U{201C}', "\""), ('\U{201D}', "\"")]

  lemma RepairsWellFormed()
    ensures ValuesAvoidKeys(Repairs) && TextRepair.KeysNotSpace(Repairs)
  {
  }

  /** Empty text gives ""; none of the nine symbols survives; whitespace runs are one space
      and the ends are trimmed. */
  method CleanAndRepairText(text: string) returns (r: string)
    ensures r == TextRepair.CleanAndRepair(text, Repairs)
    ensures text == [] ==> r == []
    ensures forall k :: 0 <= k < |Repairs| ==> Repairs[k].0 !in r
    ensures SpaceNormal(r)
  {
    RepairsWellFormed();
    r := TextRepair.CleanAndRepairText(text, Repairs);
    TextRepair.CleanAndRepairShape(text, Repairs);
  }

  lemma CleanAndRepairTextIdempotent(text: string)
    ensures TextRepair.CleanAndRepair(TextRepair.CleanAndRepair(text, Repairs), Repairs)
         == TextRepair.CleanAndRepair(text, Repairs)
  {
    RepairsWellFormed();
    TextRepair.CleanAndRepairIdempotent(text, Repairs);
  }

  /** Step A: the text handed to the splitter holds none of the nine symbols, and is empty
      exactly when no page has text. */
  method ExtractText(pages: seq<string>) returns (full: string)
    ensures full == TextRepair.JoinPages(pages, Repairs)
    ensures forall k :: 0 <= k < |Repairs| ==> Repairs[k].0 !in full
    ensures full == [] <==> forall i :: 0 <= i < |pages| ==> pages[i] == []
  {
    full := TextRepair.ExtractPages(pages, Repairs);
    RepairsWellFormed();
    TextRepair.JoinPagesNoKeys(pages, Repairs);
    TextRepair.JoinPagesEmptyIff(pages, Repairs);
  }

  // ---------------------------------------------------------------------------
  // Step C: documents, metadatas and ids

  /** `{"subject": …, "chapter": …, "source": os.path.basename(file_path), "chunk_index": i}`. */
  datatype ChromaMeta = ChromaMeta(subject: string, chapter: string, source: string, chunkIndex: nat)

  const ChunkInfix: string := "_chunk_"

  /** `f"{os.path.basename(file_path)}_chunk_{i}"`. */
  function ChunkId(basename: string, i: nat): string {
    basename + ChunkInfix + Decimal.NatToString(i)
  }

  /** The index can be read back from the id, so ids of different chunks differ. */
  lemma ChunkIdIndex(basename: string, i: nat)
    ensures var id := ChunkId(basename, i);
      |basename + ChunkInfix| < |id| && id[..|basename + ChunkInfix|] == basename + ChunkInfix
      && Decimal.ParseNat(id[|basename + ChunkInfix|..]) == i
  {
    var id := ChunkId(basename, i);
    assert id[|basename + ChunkInfix|..] == Decimal.NatToString(i);
    Decimal.ParseNatToString(i);
  }

  lemma ChunkIdsDistinct(basename: string, m: nat, n: nat)
    requires m != n
    ensures ChunkId(basename, m) != ChunkId(basename, n)
  {
    Decimal.IndexedIdsDistinct(basename + ChunkInfix, m, n);
  }

  /** The loop over `enumerate(chunks)`: one document, one metadata record and one id per
      chunk, at the chunk's own position. */
  method PrepareRecords(basename: string, subject: string, chapter: string, chunks: seq<string>)
    returns (documents: seq<string>, metadatas: seq<ChromaMeta>, ids: seq<string>)
    ensures documents == chunks
    ensures |metadatas| == |chunks| && |ids| == |chunks|
    ensures forall i :: 0 <= i < |chunks| ==>
              metadatas[i] == ChromaMeta(subject, chapter, basename, i) && ids[i] == ChunkId(basename, i)
  {
    documents, metadatas, ids := [], [], [];
    for i := 0 to |chunks|
      invariant documents == chunks[..i]
      invariant |metadatas| == i && |ids| == i
      invariant forall j :: 0 <= j < i ==>
                  metadatas[j] == ChromaMeta(subject, chapter, basename, j) && ids[j] == ChunkId(basename, j)
    {
      documents := documents + [chunks[i]];
      metadatas := metadatas + [ChromaMeta(subject, chapter, basename, i)];
      ids := ids + [ChunkId(basename, i)];
    }
    assert chunks[..|chunks|] == chunks;
  }

  /** The prepared ids are pairwise distinct, so no `add` overwrites another chunk. */
  lemma PreparedIdsDistinct(basename: string, ids: seq<string>)
    requires forall i :: 0 <= i < |ids| ==> ids[i] == ChunkId(basename, i)
    ensures forall i, j :: 0 <= i < j < |ids| ==> ids[i] != ids[j]
  {
    forall i, j | 0 <= i < j < |ids| ensures ids[i] != ids[j] {
      ChunkIdsDistinct(basename, i, j);
    }
  }

  // ---------------------------------------------------------------------------
  // Step D: batches of ten

  const BatchSize: nat := 10

  /** The loop over `range(0, len(documents), 10)`: the same slice of the three lists goes to
      `collection.add`; a failing `add` (`add(k)` is its error, if any) is logged and the
      loop goes on. `failed` lists the numbers of the failed batches. */
  method AddBatches(documents: seq<string>, metadatas: seq<ChromaMeta>, ids: seq<string>,
                    add: nat -> Option<string>)
    returns (sent: seq<(seq<string>, seq<ChromaMeta>, seq<string>)>, failed: seq<nat>)
    requires |metadatas| == |documents| && |ids| == |documents|
    ensures |sent| == |Batching.Batches(documents, BatchSize)|
    ensures |sent| == |Batching.Batches(metadatas, BatchSize)| && |sent| == |Batching.Batches(ids, BatchSize)|
    ensures forall k :: 0 <= k < |sent| ==>
              sent[k] == (Batching.Batches(documents, BatchSize)[k], Batching.Batches(metadatas, BatchSize)[k],
                          Batching.Batches(ids, BatchSize)[k])
    ensures failed == Batching.FailedBelow(add, |sent|)
  {
    ghost var ds := Batching.Batches(documents, BatchSize);
    ghost var ms := Batching.Batches(metadatas, BatchSize);
    ghost var xs := Batching.Batches(ids, BatchSize);
    Batching.BatchesAligned(documents, metadatas, BatchSize);
    Batching.BatchesAligned(documents, ids, BatchSize);
    sent := [];
    failed := [];
    var i := 0;
    while i < |documents|
      invariant |sent| <= |ds|
      invariant i == |sent| * BatchSize
      invariant forall k :: 0 <= k < |sent| ==> sent[k] == (ds[k], ms[k], xs[k])
      invariant i < |documents| ==> |sent| < |ds|
      invariant failed == Batching.FailedBelow(add, |sent|)
      decreases |documents| - i
    {
      var e := Min(i + BatchSize, |documents|);
      var batch := (documents[i..e], metadatas[i..e], ids[i..e]);
      SentStep(documents, metadatas, ids, ds, ms, xs, sent, batch);
      Batching.FailedBelowNext(add, |sent|);
      if add(|sent|).Some? {
        failed := failed + [|sent|];
      }
      sent := sent + [batch];
      i := i + BatchSize;
    }
    BatchesLeft(documents, |sent|);
  }

  /** One step of the loop of AddBatches: the slice at `|sent| * 10` of the three lists is the
      next batch of each, and the batches sent so far stay the leading batches. */
  lemma SentStep(documents: seq<string>, metadatas: seq<ChromaMeta>, ids: seq<string>,
                 ds: seq<seq<string>>, ms: seq<seq<ChromaMeta>>, xs: seq<seq<string>>,
                 sent: seq<(seq<string>, seq<ChromaMeta>, seq<string>)>,
                 batch: (seq<string>, seq<ChromaMeta>, seq<string>))
    requires |metadatas| == |documents| && |ids| == |documents|
    requires ds == Batching.Batches(documents, BatchSize) && ms == Batching.Batches(metadatas, BatchSize)
             && xs == Batching.Batches(ids, BatchSize)
    requires |ms| == |ds| && |xs| == |ds| && |sent| <= |ds|
    requires |sent| * BatchSize < |documents|
    requires var i, e := |sent| * BatchSize, Min(|sent| * BatchSize + BatchSize, |documents|);
      batch == (documents[i..e], metadatas[i..e], ids[i..e])
    requires forall k :: 0 <= k < |sent| ==> sent[k] == (ds[k], ms[k], xs[k])
    ensures |sent| < |ds|
    ensures (|sent| + 1) * BatchSize < |documents| ==> |sent| + 1 < |ds|
    ensures forall k :: 0 <= k < |sent| + 1 ==> (sent + [batch])[k] == (ds[k], ms[k], xs[k])
  {
    AlignedBatch(documents, metadatas, ids, |sent|);
    assert batch == (ds[|sent|], ms[|sent|], xs[|sent|]);
    BatchesLeft(documents, |sent| + 1);
    forall k | 0 <= k < |sent| + 1 ensures (sent + [batch])[k] == (ds[k], ms[k], xs[k]) {
      if k < |sent| {
        assert (sent + [batch])[k] == sent[k];
      }
    }
  }

  /** Batch `k` of each of the three lists is the slice starting at `k * 10`. */
  lemma AlignedBatch(documents: seq<string>, metadatas: seq<ChromaMeta>, ids: seq<string>, k: nat)
    requires |metadatas| == |documents| && |ids| == |documents|
    requires k * BatchSize < |documents|
    ensures k < |Batching.Batches(documents, BatchSize)| && k < |Batching.Batches(metadatas, BatchSize)|
            && k < |Batching.Batches(ids, BatchSize)|
    ensures var e := Min(k * BatchSize + BatchSize, |documents|);
      Batching.Batches(documents, BatchSize)[k] == documents[k * BatchSize..e]
      && Batching.Batches(metadatas, BatchSize)[k] == metadatas[k * BatchSize..e]
      && Batching.Batches(ids, BatchSize)[k] == ids[k * BatchSize..e]
  {
    BatchesLeft(documents, k);
    BatchesLeft(metadatas, k);
    BatchesLeft(ids, k);
    Batching.BatchAt(documents, BatchSize, k);
    Batching.BatchAt(metadatas, BatchSize, k);
    Batching.BatchAt(ids, BatchSize, k);
  }

  /** There is a batch `k` exactly when `k * 10` is inside the list. */
  lemma BatchesLeft<T>(xs: seq<T>, k: nat)
    ensures k < |Batching.Batches(xs, BatchSize)| <==> k * BatchSize < |xs|
  {
    Batching.BatchesCount(xs, BatchSize);
    var m := |Batching.Batches(xs, BatchSize)|;
    if k < m {
      assert k * BatchSize <= (m - 1) * BatchSize;
    } else {
      assert m * BatchSize <= k * BatchSize;
    }
  }

  /** Batch number `k` carries, at position `j`, the metadata and the id of chunk `k * 10 + j`. */
  predicate BatchOfChunks(batch: (seq<string>, seq<ChromaMeta>, seq<string>), k: nat,
                          basename: string, subject: string, chapter: string)
  {
    |batch.1| == |batch.0| && |batch.2| == |batch.0|
    && forall j :: 0 <= j < |batch.0| ==>
         batch.1[j] == ChromaMeta(subject, chapter, basename, k * BatchSize + j)
         && batch.2[j] == ChunkId(basename, k * BatchSize + j)
  }

  /** Steps C and D together: every chunk is sent exactly once, in order, with its own
      metadata and id at the same batch position. */
  method IngestChunks(basename: string, subject: string, chapter: string, chunks: seq<string>,
                      add: nat -> Option<string>)
    returns (sent: seq<(seq<string>, seq<ChromaMeta>, seq<string>)>, failed: seq<nat>)
    ensures Batching.Flatten(Docs(sent)) == chunks
    ensures forall k :: 0 <= k < |sent| ==> BatchOfChunks(sent[k], k, basename, subject, chapter)
    ensures failed == Batching.FailedBelow(add, |sent|)
  {
    var documents, metadatas, ids := PrepareRecords(basename, subject, chapter, chunks);
    sent, failed := AddBatches(documents, metadatas, ids, add);
    assert Docs(sent) == Batching.Batches(documents, BatchSize);
    Batching.BatchesFlatten(documents, BatchSize);
    forall k | 0 <= k < |sent|
      ensures BatchOfChunks(sent[k], k, basename, subject, chapter)
    {
      BatchesLeft(documents, k);
      AlignedBatch(documents, metadatas, ids, k);
      var e := Min(k * BatchSize + BatchSize, |documents|);
      assert sent[k] == (documents[k * BatchSize..e], metadatas[k * BatchSize..e], ids[k * BatchSize..e]);
      PreparedSlice(basename, subject, chapter, documents, metadatas, ids, k, e);
    }
  }

  /** The slice of the prepared lists that starts at chunk `k * 10` holds, at position `j`,
      the metadata and the id of chunk `k * 10 + j`. */
  lemma PreparedSlice(basename: string, subject: string, chapter: string,
                      documents: seq<string>, metadatas: seq<ChromaMeta>, ids: seq<string>, k: nat, e: nat)
    requires |metadatas| == |documents| && |ids| == |documents|
    requires forall i :: 0 <= i < |documents| ==>
               metadatas[i] == ChromaMeta(subject, chapter, basename, i) && ids[i] == ChunkId(basename, i)
    requires k * BatchSize <= e <= |documents|
    ensures BatchOfChunks((documents[k * BatchSize..e], metadatas[k * BatchSize..e], ids[k * BatchSize..e]),
                          k, basename, subject, chapter)
  {
    MetaSlice(basename, subject, chapter, metadatas, k * BatchSize, e);
    IdSlice(basename, ids, k * BatchSize, e);
  }

  lemma MetaSlice(basename: string, subject: string, chapter: string, metadatas: seq<ChromaMeta>, a: nat, e: nat)
    requires a <= e <= |metadatas|
    requires forall i :: 0 <= i < |metadatas| ==> metadatas[i] == ChromaMeta(subject, chapter, basename, i)
    ensures forall j :: 0 <= j < e - a ==> metadatas[a..e][j] == ChromaMeta(subject, chapter, basename, a + j)
  {
  }

  lemma IdSlice(basename: string, ids: seq<string>, a: nat, e: nat)
    requires a <= e <= |ids|
    requires forall i :: 0 <= i < |ids| ==> ids[i] == ChunkId(basename, i)
    ensures forall j :: 0 <= j < e - a ==> ids[a..e][j] == ChunkId(basename, a + j)
  {
  }

  /** The document lists of the sent batches. */
  function Docs(sent: seq<(seq<string>, seq<ChromaMeta>, seq<string>)>): (r: seq<seq<string>>)
    ensures |r| == |sent| && forall k :: 0 <= k < |sent| ==> r[k] == sent[k].0
  {
    seq(|sent|, k requires 0 <= k < |sent| => sent[k].0)
  }
}
