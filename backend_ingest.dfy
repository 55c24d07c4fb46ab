/** The command-line ingester `Backend/ingested_master.py`: its own text cleaner, its
    retrying embedding call, and the vectors and batches of `ingest_master`. The PDF, the
    splitter, Gemini and Pinecone are inputs: chunks and call outcomes are parameters. */
module BackendIngest {
  import opened Base
  import opened PyText
  import TextRepair
  import Retry
  import Batching
  import Decimal
  import BackendMain

  // ---------------------------------------------------------------------------
  // clean_and_repair_text

  /** The replacement map, in its dictionary order: U+F0E0, '⇒', '→', '–' (no '•' here). */
  const Repairs: Replacements :=
    [('\U{F0E0}', "->"), ('\U{21D2}', "=>"), ('\U{2192}', "->"), ('\U{2013}', "-")]

  lemma RepairsWellFormed()
    ensures ValuesAvoidKeys(Repairs) && TextRepair.KeysNotSpace(Repairs)
  {
  }

  /** Empty text gives ""; U+F0E0, '⇒', '→' and '–' are gone; whitespace runs are one space
      and the ends are trimmed. A '•' is kept. */
  method CleanAndRepairText(text: string) returns (r: string)
    ensures r == TextRepair.CleanAndRepair(text, Repairs)
    ensures text == [] ==> r == []
    ensures '\U{F0E0}' !in r && '\U{21D2}' !in r && '\U{2192}' !in r && '\U{2013}' !in r
    ensures SpaceNormal(r)
  {
    RepairsWellFormed();
    r := TextRepair.CleanAndRepairText(text, Repairs);
    TextRepair.CleanAndRepairShape(text, Repairs);
    assert Repairs[0].0 !in r && Repairs[1].0 !in r && Repairs[2].0 !in r && Repairs[3].0 !in r;
  }

  predicate NotBullet(c: char) {
    c != '\U{2022}'
  }

  /** Unlike the server's cleaner, this one leaves every '•' in place: the text holds the
      same bullets after cleaning as before, and a bullet is in the result exactly when it
      is in the input. */
  lemma CleanAndRepairKeepsBullet(text: string)
    ensures Without(TextRepair.CleanAndRepair(text, Repairs), NotBullet) == Without(text, NotBullet)
    ensures '\U{2022}' in TextRepair.CleanAndRepair(text, Repairs) <==> '\U{2022}' in text
  {
    var r := TextRepair.CleanAndRepair(text, Repairs);
    if text != [] {
      ReplaceEachKeepsOthers(text, Repairs, NotBullet);
      NormalizeSpaceKeepsOthers(ReplaceEach(text, Repairs), NotBullet);
    }
    WithoutMembers(r, NotBullet, '\U{2022}');
    WithoutMembers(text, NotBullet, '\U{2022}');
  }

  // ---------------------------------------------------------------------------
  // get_embedding

  /** `time.sleep((2 ** attempt) * 2)`. */
  function IngestDelay(attempt: nat): nat {
    Pow2(attempt) * 2
  }

  const Failed: Retry.PyError := Retry.Exception("Embedding failed.")

  /** Five attempts; after a 429 failure sleep (2 ** attempt) * 2 seconds; re-raise anything
      else; raise "Embedding failed." when all five were rate-limited. */
  method GetEmbedding(calls: nat -> Retry.Outcome<Embedding>)
    returns (result: Result<Embedding, Retry.PyError>, run: Retry.Run<Embedding>)
    ensures run == Retry.Expected(calls, BackendMain.Has429, 5, IngestDelay)
    ensures result == Retry.Finish(run.ending, Failed)
  {
    run := Retry.RetryLoop(calls, BackendMain.Has429, 5, IngestDelay);
    result := Retry.Finish(run.ending, Failed);
  }

  /** At most five attempts; the sleeps are a prefix of 2, 4, 8, 16, 32 seconds; the run
      gives up exactly when all five attempts hit a 429, after sleeping all five delays. */
  lemma GetEmbeddingPolicy(calls: nat -> Retry.Outcome<Embedding>)
    ensures var run := Retry.Expected(calls, BackendMain.Has429, 5, IngestDelay);
      run.attempts <= 5
      && run.sleeps <= [2, 4, 8, 16, 32]
      && (run.ending.Exhausted? <==> forall k :: 0 <= k < 5 ==> Retry.RateLimited(calls(k), BackendMain.Has429))
      && (run.ending.Exhausted? ==> run.sleeps == [2, 4, 8, 16, 32])
  {
    Retry.ExpectedShape(calls, BackendMain.Has429, 5, IngestDelay);
    Retry.ExhaustedIff(calls, BackendMain.Has429, 5, IngestDelay);
    assert IngestDelay(0) == 2 && IngestDelay(1) == 4 && IngestDelay(2) == 8;
    assert IngestDelay(3) == 16 && IngestDelay(4) == 32;
  }

  // ---------------------------------------------------------------------------
  // ingest_master: vectors

  /** The inputs of one ingestion: the file's base name, subject, chapter and public URL,
      the chunks the splitter produced, and `calls(i)(k)`, attempt k of embedding chunk i. */
  datatype Job = Job(basename: string, subject: string, chapter: string, pdfUrl: string,
                     chunks: seq<string>, calls: nat -> nat -> Retry.Outcome<Embedding>)

  /** What `get_embedding(chunk)` gives for chunk `i`. */
  function EmbedOf(job: Job, i: nat): Result<Embedding, Retry.PyError> {
    Retry.Finish(Retry.Expected(job.calls(i), BackendMain.Has429, 5, IngestDelay).ending, Failed)
  }

  /** `f"{os.path.basename(file_path)}_{i}"`. */
  function ChunkId(basename: string, i: nat): string {
    basename + "_" + Decimal.NatToString(i)
  }

  /** The outcome of embedding each chunk; the structural facts below hold for any of them. */
  type Embedder = nat -> Result<Embedding, Retry.PyError>

  /** `get_embedding` applied to every chunk of the job. */
  function Embeds(job: Job): Embedder {
    (i: nat) => EmbedOf(job, i)
  }

  /** The record appended for chunk `i` once its embedding is known. */
  function RecordAt(job: Job, embeds: Embedder, i: nat): BackendMain.Vector
    requires i < |job.chunks| && embeds(i).Success?
  {
    BackendMain.Vector(ChunkId(job.basename, i), embeds(i).value,
                       BackendMain.Metadata(job.chunks[i], job.basename, job.subject, job.chapter, job.pdfUrl, i))
  }

  /** The records of the first `n` chunks whose embedding succeeded, in chunk order. */
  function Kept(job: Job, embeds: Embedder, n: nat): seq<BackendMain.Vector>
    requires n <= |job.chunks|
  {
    if n == 0 then []
    else Kept(job, embeds, n - 1) + (if embeds(n - 1).Success? then [RecordAt(job, embeds, n - 1)] else [])
  }

  /** The loop over the chunks: a chunk whose embedding raises anything is skipped. */
  method IngestVectors(job: Job) returns (vectors: seq<BackendMain.Vector>)
    ensures vectors == Kept(job, Embeds(job), |job.chunks|)
  {
    vectors := [];
    for i := 0 to |job.chunks|
      invariant vectors == Kept(job, Embeds(job), i)
    {
      var embedded, _ := GetEmbedding(job.calls(i));
      assert embedded == Embeds(job)(i);
      if embedded.Failure? {
        continue;
      }
      var metadata := BackendMain.Metadata(job.chunks[i], job.basename, job.subject, job.chapter, job.pdfUrl, i);
      vectors := vectors + [BackendMain.Vector(ChunkId(job.basename, i), embedded.value, metadata)];
    }
  }

  /** `v` is the record of its own chunk index `j < n`, a chunk whose embedding succeeded. */
  predicate OwnRecord(job: Job, embeds: Embedder, n: nat, v: BackendMain.Vector) {
    var j := v.metadata.chunkIndex;
    j < n <= |job.chunks| && embeds(j).Success? && v == RecordAt(job, embeds, j)
  }

  /** Each kept record is the record of its own chunk, a chunk whose embedding succeeded. */
  lemma {:induction false} KeptRecords(job: Job, embeds: Embedder, n: nat)
    requires n <= |job.chunks|
    ensures forall a :: 0 <= a < |Kept(job, embeds, n)| ==> OwnRecord(job, embeds, n, Kept(job, embeds, n)[a])
  {
    if n > 0 {
      KeptRecords(job, embeds, n - 1);
      var prev := Kept(job, embeds, n - 1);
      var vs := Kept(job, embeds, n);
      forall a | 0 <= a < |vs| ensures OwnRecord(job, embeds, n, vs[a]) {
        if a < |prev| {
          assert vs[a] == prev[a];
          assert OwnRecord(job, embeds, n - 1, prev[a]);
        } else {
          assert vs[a] == RecordAt(job, embeds, n - 1);
        }
      }
    }
  }

  /** The chunk indices of the kept records strictly increase: chunk order is kept. */
  lemma {:induction false} KeptOrdered(job: Job, embeds: Embedder, n: nat)
    requires n <= |job.chunks|
    ensures forall a, b :: 0 <= a < b < |Kept(job, embeds, n)| ==>
              Kept(job, embeds, n)[a].metadata.chunkIndex < Kept(job, embeds, n)[b].metadata.chunkIndex
  {
    if n > 0 {
      KeptOrdered(job, embeds, n - 1);
      KeptRecords(job, embeds, n - 1);
      var prev := Kept(job, embeds, n - 1);
      var vs := Kept(job, embeds, n);
      forall a, b | 0 <= a < b < |vs|
        ensures vs[a].metadata.chunkIndex < vs[b].metadata.chunkIndex
      {
        assert vs[a] == prev[a];
        assert OwnRecord(job, embeds, n - 1, prev[a]);
        if b < |prev| {
          assert vs[b] == prev[b];
        } else {
          assert vs[b] == RecordAt(job, embeds, n - 1);
        }
      }
    }
  }

  /** One more chunk only appends to the records kept so far. */
  lemma KeptStep(job: Job, embeds: Embedder, n: nat)
    requires 0 < n <= |job.chunks|
    ensures |Kept(job, embeds, n - 1)| <= |Kept(job, embeds, n)|
    ensures forall a :: 0 <= a < |Kept(job, embeds, n - 1)| ==> Kept(job, embeds, n)[a] == Kept(job, embeds, n - 1)[a]
    ensures embeds(n - 1).Success? ==>
              |Kept(job, embeds, n - 1)| < |Kept(job, embeds, n)| &&
              Kept(job, embeds, n)[|Kept(job, embeds, n - 1)|].metadata.chunkIndex == n - 1
  {
  }

  /** Some record in `vs` belongs to chunk `j`. */
  predicate HasRecordOf(vs: seq<BackendMain.Vector>, j: nat) {
    exists a :: 0 <= a < |vs| && vs[a].metadata.chunkIndex == j
  }

  /** A chunk `j < n` whose embedding succeeded has its record among the first `n`. */
  lemma {:induction false} KeptHas(job: Job, embeds: Embedder, n: nat, j: nat)
    requires j < n <= |job.chunks| && embeds(j).Success?
    ensures HasRecordOf(Kept(job, embeds, n), j)
  {
    KeptStep(job, embeds, n);
    if j < n - 1 {
      KeptHas(job, embeds, n - 1, j);
      var a :| 0 <= a < |Kept(job, embeds, n - 1)| && Kept(job, embeds, n - 1)[a].metadata.chunkIndex == j;
      assert Kept(job, embeds, n)[a] == Kept(job, embeds, n - 1)[a];
    } else {
      assert Kept(job, embeds, n)[|Kept(job, embeds, n - 1)|].metadata.chunkIndex == j;
    }
  }

  /** Every chunk whose embedding succeeded has its record. */
  lemma KeptComplete(job: Job, embeds: Embedder)
    ensures forall j: nat :: j < |job.chunks| && embeds(j).Success? ==>
              HasRecordOf(Kept(job, embeds, |job.chunks|), j)
  {
    forall j: nat | j < |job.chunks| && embeds(j).Success?
      ensures HasRecordOf(Kept(job, embeds, |job.chunks|), j)
    {
      KeptHas(job, embeds, |job.chunks|, j);
    }
  }

  /** The kept records have pairwise distinct ids. */
  lemma KeptIdsDistinct(job: Job, embeds: Embedder)
    ensures forall a, b :: 0 <= a < b < |Kept(job, embeds, |job.chunks|)| ==>
              Kept(job, embeds, |job.chunks|)[a].id != Kept(job, embeds, |job.chunks|)[b].id
  {
    var vs := Kept(job, embeds, |job.chunks|);
    KeptOrdered(job, embeds, |job.chunks|);
    KeptRecords(job, embeds, |job.chunks|);
    forall a, b | 0 <= a < b < |vs| ensures vs[a].id != vs[b].id {
      assert OwnRecord(job, embeds, |job.chunks|, vs[a]) && OwnRecord(job, embeds, |job.chunks|, vs[b]);
      Decimal.IndexedIdsDistinct(job.basename + "_", vs[a].metadata.chunkIndex, vs[b].metadata.chunkIndex);
    }
  }

  // ---------------------------------------------------------------------------
  // ingest_master: batches of 20

  /** The loop over `range(0, len(vectors), 20)`: every slice is upserted; a failing upsert
      is logged (`failed` lists the batch numbers) and the loop goes on. */
  method UpsertAll(vectors: seq<BackendMain.Vector>, upsert: nat -> Option<string>)
    returns (sent: seq<seq<BackendMain.Vector>>, failed: seq<nat>)
    ensures sent == Batching.Batches(vectors, 20)
    ensures failed == Batching.FailedBelow(upsert, |sent|)
  {
    ghost var bs := Batching.Batches(vectors, 20);
    sent := [];
    failed := [];
    var i := 0;
    while i < |vectors|
      invariant sent + Batching.Batches(vectors[Min(i, |vectors|)..], 20) == bs
      invariant failed == Batching.FailedBelow(upsert, |sent|)
      decreases |vectors| - i
    {
      Batching.BatchesAdvance(vectors, 20, i, sent, bs);
      var batch := vectors[i..Min(i + 20, |vectors|)];
      ghost var rest := Batching.Batches(vectors[Min(i + 20, |vectors|)..], 20);
      Batching.FailedBelowNext(upsert, |sent|);
      if upsert(|sent|).Some? {
        failed := failed + [|sent|];
      }
      sent := sent + [batch];
      i := i + 20;
    }
    assert vectors[|vectors|..] == [];
    assert sent + [] == bs;
  }
}
