/** The FastAPI server `Backend/main.py`: its text helpers, the retrying embedding call,
    the source list of `/chat`, the vector bookkeeping of `/upload` and the guards of the
    two admin endpoints. Gemini, Pinecone, Supabase and pdfplumber are inputs: the
    outcome of each remote call is a parameter. */
module BackendMain {
  import opened Base
  import opened PyText
  import TextRepair
  import Retry
  import Batching
  import Decimal

  // ---------------------------------------------------------------------------
  // clean_and_repair_text

  /** The replacement map, in its dictionary order: U+F0E0, '⇒', '→', '–', '•'. */
  const Repairs: Replacements :=
    [('\U{F0E0}', "->"), ('\U{21D2}', "=>"), ('\U{2192}', "->"), ('\U{2013}', "-"), ('\U{2022}', "-")]

  lemma RepairsWellFormed()
    ensures ValuesAvoidKeys(Repairs) && TextRepair.KeysNotSpace(Repairs)
  {
  }

  /** Empty text gives ""; no key of the map survives; the result is trimmed and
      single-spaced with ' ' as its only whitespace. */
  method CleanAndRepairText(text: string) returns (r: string)
    ensures r == TextRepair.CleanAndRepair(text, Repairs)
    ensures text == [] ==> r == []
    ensures '\U{F0E0}' !in r && '\U{21D2}' !in r && '\U{2192}' !in r && '\U{2013}' !in r && '\U{2022}' !in r
    ensures SpaceNormal(r)
  {
    RepairsWellFormed();
    r := TextRepair.CleanAndRepairText(text, Repairs);
    TextRepair.CleanAndRepairShape(text, Repairs);
    assert Repairs[0].0 !in r && Repairs[1].0 !in r && Repairs[2].0 !in r;
    assert Repairs[3].0 !in r && Repairs[4].0 !in r;
  }

  lemma CleanAndRepairTextIdempotent(text: string)
    ensures TextRepair.CleanAndRepair(TextRepair.CleanAndRepair(text, Repairs), Repairs)
         == TextRepair.CleanAndRepair(text, Repairs)
  {
    RepairsWellFormed();
    TextRepair.CleanAndRepairIdempotent(text, Repairs);
  }

  // ---------------------------------------------------------------------------
  // sanitize_filename

  /** The class `[^\x00-\x7f]`. */
  predicate IsNonAscii(c: char) {
    !IsAscii(c)
  }

  /** The class `[\s\[\]\(\)]`. */
  predicate IsNameJunk(c: char) {
    IsSpace(c) || c == '[' || c == ']' || c == '(' || c == ')'
  }

  predicate IsUnderscore(c: char) {
    c == '_'
  }

  /** What the sanitizer may remove: non-ASCII, whitespace, brackets, parentheses, '_'. */
  predicate IsDropped(c: char) {
    IsNonAscii(c) || IsNameJunk(c) || IsUnderscore(c)
  }

  /** `sanitize_filename(filename)`: drop non-ASCII characters, turn each run of
      whitespace, brackets and parentheses into one '_', strip '_' at both ends. */
  function SanitizeFilename(filename: string): string
  {
    Strip(SubRuns(Without(filename, IsNonAscii), IsNameJunk, '_'), IsUnderscore)
  }

  /** The result is ASCII, has no whitespace, bracket or parenthesis, and neither starts
      nor ends with '_'. */
  lemma SanitizeFilenameShape(filename: string)
    ensures var r := SanitizeFilename(filename);
      (forall i :: 0 <= i < |r| ==> IsAscii(r[i]) && !IsNameJunk(r[i]))
      && (r == [] || (r[0] != '_' && r[|r| - 1] != '_'))
  {
    var a := Without(filename, IsNonAscii);
    var m := SubRuns(a, IsNameJunk, '_');
    var r := SanitizeFilename(filename);
    SubRunsChars(a, IsNameJunk, '_');
    StripSlice(m, IsUnderscore);
    var k := |m| - |SkipRun(m, IsUnderscore)|;
    forall i | 0 <= i < |r|
      ensures IsAscii(r[i]) && !IsNameJunk(r[i])
    {
      assert r[i] == m[k + i];
      if m[k + i] != '_' {
        assert m[k + i] in a;
      }
    }
  }

  /** Sanitizing a sanitized name changes nothing. */
  lemma SanitizeFilenameIdempotent(filename: string)
    ensures SanitizeFilename(SanitizeFilename(filename)) == SanitizeFilename(filename)
  {
    var r := SanitizeFilename(filename);
    SanitizeFilenameShape(filename);
    WithoutNone(r, IsNonAscii);
    SubRunsFixed(r, IsNameJunk, '_');
    StripFixed(r, IsUnderscore);
  }

  /** Every character the sanitizer is not allowed to touch survives, in order. */
  lemma SanitizeFilenameKeepsOthers(filename: string)
    ensures Without(SanitizeFilename(filename), IsDropped) == Without(filename, IsDropped)
  {
    var a := Without(filename, IsNonAscii);
    var m := SubRuns(a, IsNameJunk, '_');
    WithoutNested(filename, IsNonAscii, IsDropped);
    SubRunsKeepsOthers(a, IsNameJunk, '_', IsDropped);
    StripKeepsOthers(m, IsUnderscore, IsDropped);
  }

  /** A run of whitespace, brackets and parentheses between two words the sanitizer keeps
      becomes exactly one '_': it is neither dropped nor doubled. */
  lemma {:induction false} SanitizeFilenameRun(a: string, junk: string, b: string)
    requires a != [] && junk != [] && b != []
    requires forall i :: 0 <= i < |a| ==> IsAscii(a[i]) && !IsNameJunk(a[i])
    requires forall i :: 0 <= i < |junk| ==> IsAscii(junk[i]) && IsNameJunk(junk[i])
    requires forall i :: 0 <= i < |b| ==> IsAscii(b[i]) && !IsNameJunk(b[i])
    requires a[0] != '_' && b[|b| - 1] != '_'
    ensures SanitizeFilename(a + junk + b) == a + "_" + b
  {
    var s := a + junk + b;
    assert Without(s, IsNonAscii) == s by {
      forall i | 0 <= i < |s| ensures !IsNonAscii(s[i]) {
        if i < |a| { assert s[i] == a[i]; }
        else if i < |a| + |junk| { assert s[i] == junk[i - |a|]; }
        else { assert s[i] == b[i - |a| - |junk|]; }
      }
      WithoutNone(s, IsNonAscii);
    }
    assert SubRuns(s, IsNameJunk, '_') == a + "_" + b by {
      SubRunsOneRun(a, junk, b, IsNameJunk, '_');
    }
    StripFixed(a + "_" + b, IsUnderscore);
  }

  // ---------------------------------------------------------------------------
  // clean_response_text

  /** What `clean_response_text` makes of one character. */
  function ResponseArrow(c: char): string
  {
    if IsPrivateUse(c) || c == '\U{2192}' then "->" else [c]
  }

  /** `clean_response_text(text)`: private-use characters become "->", then '→' does. */
  function CleanResponseText(text: string): string
  {
    if text == [] then [] else ReplaceChar(SubPrivateUse(text, "->"), '\U{2192}', "->")
  }

  lemma {:induction false} CleanResponseChain(text: string)
    ensures ReplaceChar(SubPrivateUse(text, "->"), '\U{2192}', "->") == ConcatMap(text, ResponseArrow)
  {
    if text != [] {
      var c := text[0];
      var head := if IsPrivateUse(c) then "->" else [c];
      CleanResponseChain(text[1..]);
      ReplaceCharAppend(head, SubPrivateUse(text[1..], "->"), '\U{2192}', "->");
      ReplaceCharAbsent("->", '\U{2192}', "->");
      if !IsPrivateUse(c) {
        assert ReplaceChar([c], '\U{2192}', "->") == ResponseArrow(c);
      }
    }
  }

  /** Each private-use character and each '→' becomes "->"; every other character stays,
      in order. */
  lemma CleanResponseTextPerChar(text: string)
    ensures CleanResponseText(text) == ConcatMap(text, ResponseArrow)
  {
    CleanResponseChain(text);
  }

  // ---------------------------------------------------------------------------
  // embed_text_with_retry

  /** `"429" in str(e)`. */
  predicate Has429(message: string) {
    Contains(message, "429")
  }

  /** `time.sleep(2 ** attempt)`. */
  function BusyDelay(attempt: nat): nat {
    Pow2(attempt)
  }

  const Busy: Retry.PyError := Retry.HttpException(429, "Google API Busy")

  /** Three attempts; after a 429 failure sleep 2 ** attempt seconds; re-raise anything else;
      raise HTTP 429 "Google API Busy" when all three were rate-limited. */
  method EmbedTextWithRetry(calls: nat -> Retry.Outcome<Embedding>)
    returns (result: Result<Embedding, Retry.PyError>, run: Retry.Run<Embedding>)
    ensures run == Retry.Expected(calls, Has429, 3, BusyDelay)
    ensures result == Retry.Finish(run.ending, Busy)
  {
    run := Retry.RetryLoop(calls, Has429, 3, BusyDelay);
    result := Retry.Finish(run.ending, Busy);
  }

  /** At most three attempts; the sleeps are a prefix of 1, 2, 4 seconds; HTTP 429 exactly when
      all three attempts hit a 429, after sleeping all of 1, 2 and 4; a re-raised error
      is never a 429. */
  lemma EmbedTextWithRetryPolicy(calls: nat -> Retry.Outcome<Embedding>)
    ensures var run := Retry.Expected(calls, Has429, 3, BusyDelay);
      var result := Retry.Finish(run.ending, Busy);
      run.attempts <= 3
      && run.sleeps <= [1, 2, 4]
      && (result == Failure(Busy) <==> forall k :: 0 <= k < 3 ==> Retry.RateLimited(calls(k), Has429))
      && (result == Failure(Busy) ==> run.sleeps == [1, 2, 4])
      && (result.Failure? && result.error.Exception? ==> !Has429(result.error.message))
  {
    var run := Retry.Expected(calls, Has429, 3, BusyDelay);
    Retry.ExpectedShape(calls, Has429, 3, BusyDelay);
    Retry.ExhaustedIff(calls, Has429, 3, BusyDelay);
    assert BusyDelay(0) == 1 && BusyDelay(1) == 2 && BusyDelay(2) == 4;
    if run.ending.Reraised? {
      Retry.ReraisedIff(calls, Has429, 3, BusyDelay, run.ending.message);
    }
  }

  // ---------------------------------------------------------------------------
  // The source list of /chat

  /** A search match: its metadata (string-valued entries) and its similarity score. */
  datatype Match = Match(metadata: map<string, string>, score: real)

  /** One entry of the reply's `sources`. */
  datatype SourceEntry = SourceEntry(source: string, pdfUrl: Option<string>, chapter: string, score: real)

  /** `m['metadata'].get('source', 'Unknown')`. */
  function SourceName(m: Match): string {
    if "source" in m.metadata then m.metadata["source"] else "Unknown"
  }

  /** The entry built for a match whose file name is new. */
  function EntryOf(m: Match): (e: SourceEntry)
    ensures e.source == SourceName(m)
  {
    SourceEntry(SourceName(m),
                if "pdf_url" in m.metadata then Some(m.metadata["pdf_url"]) else None,
                if "chapter" in m.metadata then m.metadata["chapter"] else "General",
                m.score)
  }

  function Names(es: seq<SourceEntry>): set<string> {
    set e | e in es :: e.source
  }

  /** `list(unique_sources.values())` after the loop over `ms`. */
  function FirstSources(ms: seq<Match>): seq<SourceEntry>
    decreases |ms|
  {
    if ms == [] then []
    else
      var prev := FirstSources(ms[..|ms| - 1]);
      var m := ms[|ms| - 1];
      if SourceName(m) in Names(prev) then prev else prev + [EntryOf(m)]
  }

  /** One more match adds its entry exactly when its file name is new. */
  lemma FirstSourcesStep(ms: seq<Match>, j: nat)
    requires j < |ms|
    ensures var prev := FirstSources(ms[..j]);
      FirstSources(ms[..j + 1]) == if SourceName(ms[j]) in Names(prev) then prev else prev + [EntryOf(ms[j])]
  {
    assert ms[..j + 1][..j] == ms[..j];
    assert ms[..j + 1][j] == ms[j];
  }

  /** The loop of `chat_endpoint` that fills `unique_sources`, then its values in insertion order. */
  method ExtractSources(matches: seq<Match>) returns (sources: seq<SourceEntry>)
    ensures sources == FirstSources(matches)
  {
    var unique: map<string, SourceEntry> := map[];
    var order: seq<string> := [];
    for j := 0 to |matches|
      invariant Tracks(unique, order, FirstSources(matches[..j]))
    {
      var m := matches[j];
      FirstSourcesStep(matches, j);
      TracksStep(unique, order, FirstSources(matches[..j]), m);
      var filename := SourceName(m);
      if filename !in unique {
        unique := unique[filename := EntryOf(m)];
        order := order + [filename];
      }
    }
    assert matches[..|matches|] == matches;
    sources := [];
    for k := 0 to |order|
      invariant sources == FirstSources(matches)[..k]
    {
      sources := sources + [unique[order[k]]];
    }
  }

  /** `unique` and its key order hold the entries `fs`: key `k` of the order maps to entry
      `k`, and every key is the file name of its entry. */
  ghost predicate Tracks(unique: map<string, SourceEntry>, order: seq<string>, fs: seq<SourceEntry>) {
    |order| == |fs|
    && (forall k :: 0 <= k < |order| ==> order[k] in unique && unique[order[k]] == fs[k])
    && (forall name :: name in unique ==> name in order && unique[name].source == name)
  }

  /** A match's file name is a key exactly when it is already listed, and adding the new
      ones keeps the map and the list in step. */
  lemma TracksStep(unique: map<string, SourceEntry>, order: seq<string>, fs: seq<SourceEntry>, m: Match)
    requires Tracks(unique, order, fs)
    ensures SourceName(m) in unique <==> SourceName(m) in Names(fs)
    ensures SourceName(m) !in unique ==>
      Tracks(unique[SourceName(m) := EntryOf(m)], order + [SourceName(m)], fs + [EntryOf(m)])
  {
    forall k | 0 <= k < |order| ensures order[k] == fs[k].source {
      assert unique[order[k]] == fs[k];
    }
  }

  /** One entry per file name: no name appears twice. */
  lemma {:induction false} FirstSourcesDistinct(ms: seq<Match>)
    ensures forall a, b :: 0 <= a < b < |FirstSources(ms)| ==> FirstSources(ms)[a].source != FirstSources(ms)[b].source
    decreases |ms|
  {
    if ms != [] {
      FirstSourcesDistinct(ms[..|ms| - 1]);
    }
  }

  /** Every match's file name has an entry, and no other name does. */
  lemma {:induction false} FirstSourcesNames(ms: seq<Match>)
    ensures Names(FirstSources(ms)) == set j | 0 <= j < |ms| :: SourceName(ms[j])
    decreases |ms|
  {
    if ms != [] {
      var init := ms[..|ms| - 1];
      FirstSourcesNames(init);
      MatchNamesSnoc(ms, init);
      NamesSnoc(FirstSources(init), EntryOf(ms[|ms| - 1]));
    }
  }

  lemma MatchNamesSnoc(ms: seq<Match>, init: seq<Match>)
    requires ms != [] && init == ms[..|ms| - 1]
    ensures (set j | 0 <= j < |ms| :: SourceName(ms[j]))
         == (set j | 0 <= j < |init| :: SourceName(init[j])) + {SourceName(ms[|ms| - 1])}
  {
    assert forall j :: 0 <= j < |init| ==> init[j] == ms[j];
  }

  lemma NamesSnoc(es: seq<SourceEntry>, e: SourceEntry)
    ensures Names(es + [e]) == Names(es) + {e.source}
  {
  }

  /** Match `i` is the first with its file name. */
  predicate IsFirst(ms: seq<Match>, i: nat)
    requires i < |ms|
  {
    forall j :: 0 <= j < i ==> SourceName(ms[j]) != SourceName(ms[i])
  }

  /** The entries of the first-appearing matches among `ms[..n]`, in index order. */
  function FirstsUpTo(ms: seq<Match>, n: nat): seq<SourceEntry>
    requires n <= |ms|
  {
    if n == 0 then []
    else FirstsUpTo(ms, n - 1) + (if IsFirst(ms, n - 1) then [EntryOf(ms[n - 1])] else [])
  }

  lemma {:induction false} FirstsUpToPrefix(ms: seq<Match>, n: nat)
    requires n < |ms|
    ensures FirstsUpTo(ms[..|ms| - 1], n) == FirstsUpTo(ms, n)
  {
    if n > 0 {
      FirstsUpToPrefix(ms, n - 1);
      var init := ms[..|ms| - 1];
      assert IsFirst(init, n - 1) == IsFirst(ms, n - 1) by {
        assert forall j :: 0 <= j < n ==> init[j] == ms[j];
      }
    }
  }

  /** The list holds exactly the entries of the matches that are the first with their file
      name, in the order of the matches: first appearance wins, and keeps its place. */
  lemma {:induction false} FirstSourcesAreFirsts(ms: seq<Match>)
    ensures FirstSources(ms) == FirstsUpTo(ms, |ms|)
    decreases |ms|
  {
    if ms != [] {
      var n := |ms|;
      var init := ms[..n - 1];
      FirstSourcesAreFirsts(init);
      FirstsUpToPrefix(ms, n - 1);
      LastSeenIffNotFirst(ms);
    }
  }

  /** The last match's file name is already listed exactly when that match is not the first
      with its name. */
  lemma LastSeenIffNotFirst(ms: seq<Match>)
    requires ms != []
    ensures SourceName(ms[|ms| - 1]) in Names(FirstSources(ms[..|ms| - 1])) <==> !IsFirst(ms, |ms| - 1)
  {
    var init := ms[..|ms| - 1];
    FirstSourcesNames(init);
    assert forall j :: 0 <= j < |init| ==> init[j] == ms[j];
  }

  // ---------------------------------------------------------------------------
  // The vectors of /upload

  /** The metadata stored with each chunk's vector. */
  datatype Metadata = Metadata(text: string, source: string, subject: string, chapter: string,
                               pdfUrl: string, chunkIndex: nat)

  datatype Vector = Vector(id: string, values: Embedding, metadata: Metadata)

  /** `f"{safe_filename}_chunk_{i}"`. */
  function ChunkId(safeName: string, i: nat): string {
    safeName + "_chunk_" + Decimal.NatToString(i)
  }

  /** What `embed_text_with_retry(chunk)` gives for chunk `i`, whose attempts are `calls(i)`. */
  function EmbedOf(calls: nat -> nat -> Retry.Outcome<Embedding>, i: nat): Result<Embedding, Retry.PyError> {
    Retry.Finish(Retry.Expected(calls(i), Has429, 3, BusyDelay).ending, Busy)
  }

  predicate AllEmbedded(n: nat, calls: nat -> nat -> Retry.Outcome<Embedding>) {
    forall i :: 0 <= i < n ==> EmbedOf(calls, i).Success?
  }

  /** The vector built for chunk `i`. */
  function VectorAt(safeName: string, subject: string, chapter: string, publicUrl: string,
                    chunks: seq<string>, calls: nat -> nat -> Retry.Outcome<Embedding>, i: nat): Vector
    requires i < |chunks| && EmbedOf(calls, i).Success?
  {
    Vector(ChunkId(safeName, i), EmbedOf(calls, i).value,
           Metadata(chunks[i], safeName, subject, chapter, publicUrl, i))
  }

  /** The list `vectors` once every chunk is embedded. */
  function Vectors(safeName: string, subject: string, chapter: string, publicUrl: string,
                   chunks: seq<string>, calls: nat -> nat -> Retry.Outcome<Embedding>): (vs: seq<Vector>)
    requires AllEmbedded(|chunks|, calls)
    ensures |vs| == |chunks|
  {
    seq(|chunks|, i requires 0 <= i < |chunks| => VectorAt(safeName, subject, chapter, publicUrl, chunks, calls, i))
  }

  /** Vector i carries chunk i, its index and the id "<safe_filename>_chunk_<i>"; the ids
      are pairwise distinct. */
  lemma VectorsIndexed(safeName: string, subject: string, chapter: string, publicUrl: string,
                       chunks: seq<string>, calls: nat -> nat -> Retry.Outcome<Embedding>)
    requires AllEmbedded(|chunks|, calls)
    ensures var vs := Vectors(safeName, subject, chapter, publicUrl, chunks, calls);
      (forall i :: 0 <= i < |vs| ==>
         vs[i].id == ChunkId(safeName, i) && vs[i].metadata.chunkIndex == i
         && vs[i].metadata.text == chunks[i] && vs[i].metadata.source == safeName)
      && (forall i, j :: 0 <= i < j < |vs| ==> vs[i].id != vs[j].id)
  {
    var vs := Vectors(safeName, subject, chapter, publicUrl, chunks, calls);
    forall i, j | 0 <= i < j < |vs| ensures vs[i].id != vs[j].id {
      Decimal.IndexedIdsDistinct(safeName + "_chunk_", i, j);
    }
  }

  /** `embed_text_with_retry(chunk)` for chunk `i`. */
  method EmbedChunk(calls: nat -> nat -> Retry.Outcome<Embedding>, i: nat)
    returns (embedded: Result<Embedding, Retry.PyError>)
    ensures embedded == EmbedOf(calls, i)
  {
    var run;
    embedded, run := EmbedTextWithRetry(calls(i));
  }

  /** The loop over the chunks: embed each one (an error leaves the loop and the handler)
      and append its vector. */
  method BuildVectors(safeName: string, subject: string, chapter: string, publicUrl: string,
                      chunks: seq<string>, calls: nat -> nat -> Retry.Outcome<Embedding>)
    returns (r: Result<seq<Vector>, Retry.PyError>)
    ensures AllEmbedded(|chunks|, calls) ==>
      r == Success(Vectors(safeName, subject, chapter, publicUrl, chunks, calls))
    ensures !AllEmbedded(|chunks|, calls) ==>
      exists i :: 0 <= i < |chunks| && AllEmbedded(i, calls)
                  && EmbedOf(calls, i).Failure? && r == Failure(EmbedOf(calls, i).error)
  {
    var vectors: seq<Vector> := [];
    for i := 0 to |chunks|
      invariant |vectors| == i && AllEmbedded(i, calls)
      invariant forall j :: 0 <= j < i ==>
                  vectors[j] == VectorAt(safeName, subject, chapter, publicUrl, chunks, calls, j)
    {
      var embedded := EmbedChunk(calls, i);
      if embedded.Failure? {
        assert AllEmbedded(i, calls) && EmbedOf(calls, i).Failure?;
        assert !AllEmbedded(|chunks|, calls);
        return Failure(embedded.error);
      }
      var v := Vector(ChunkId(safeName, i), embedded.value, Metadata(chunks[i], safeName, subject, chapter, publicUrl, i));
      assert AllEmbedded(i + 1, calls);
      assert v == VectorAt(safeName, subject, chapter, publicUrl, chunks, calls, i);
      vectors := vectors + [v];
    }
    VectorsByIndex(safeName, subject, chapter, publicUrl, chunks, calls, vectors);
    return Success(vectors);
  }

  /** A list that has vector `j` at every index `j` is the list of all vectors. */
  lemma VectorsByIndex(safeName: string, subject: string, chapter: string, publicUrl: string,
                       chunks: seq<string>, calls: nat -> nat -> Retry.Outcome<Embedding>, vectors: seq<Vector>)
    requires AllEmbedded(|chunks|, calls) && |vectors| == |chunks|
    requires forall j :: 0 <= j < |chunks| ==>
               vectors[j] == VectorAt(safeName, subject, chapter, publicUrl, chunks, calls, j)
    ensures vectors == Vectors(safeName, subject, chapter, publicUrl, chunks, calls)
  {
    var vs := Vectors(safeName, subject, chapter, publicUrl, chunks, calls);
    assert forall j :: 0 <= j < |chunks| ==> vs[j] == VectorAt(safeName, subject, chapter, publicUrl, chunks, calls, j);
  }

  /** The loop over `range(0, len(vectors), 100)`: upsert each slice; `upsert(k)` is the error
      (if any) of the k-th call, and the first error leaves the loop and the handler.
      `sent` lists the slices passed to `upsert`. */
  method UpsertBatches(vectors: seq<Vector>, upsert: nat -> Option<string>)
    returns (failure: Option<string>, sent: seq<seq<Vector>>)
    ensures sent <= Batching.Batches(vectors, 100)
    ensures forall k :: 0 <= k < |sent| - 1 ==> upsert(k).None?
    ensures failure.None? <==>
      sent == Batching.Batches(vectors, 100) && forall k :: 0 <= k < |sent| ==> upsert(k).None?
    ensures failure.Some? ==> sent != [] && failure == upsert(|sent| - 1)
  {
    ghost var bs := Batching.Batches(vectors, 100);
    sent := [];
    var i := 0;
    while i < |vectors|
      invariant sent + Batching.Batches(vectors[Min(i, |vectors|)..], 100) == bs
      invariant forall k :: 0 <= k < |sent| ==> upsert(k).None?
      decreases |vectors| - i
    {
      Batching.BatchesAdvance(vectors, 100, i, sent, bs);
      var batch := vectors[i..Min(i + 100, |vectors|)];
      ghost var rest := Batching.Batches(vectors[Min(i + 100, |vectors|)..], 100);
      sent := sent + [batch];
      var e := upsert(|sent| - 1);
      if e.Some? {
        SentPrefix(sent, rest, bs);
        return e, sent;
      }
      i := i + 100;
    }
    assert vectors[|vectors|..] == [];
    SentPrefix(sent, [], bs);
    return None, sent;
  }

  /** A list that a remainder completes to `bs` is a prefix of `bs`. */
  lemma SentPrefix<T>(sent: seq<T>, rest: seq<T>, bs: seq<T>)
    requires sent + rest == bs
    ensures sent <= bs && (rest == [] ==> sent == bs)
  {
    assert bs[..|sent|] == sent;
  }

  /** The body of `upload_file` after the text is split: the reply is the chunk count, or the
      error that the handler turns into HTTP 500. Every vector is sent exactly once, in
      order, in slices of at most 100, when nothing fails. */
  method UploadVectors(safeName: string, subject: string, chapter: string, publicUrl: string,
                       chunks: seq<string>, calls: nat -> nat -> Retry.Outcome<Embedding>,
                       upsert: nat -> Option<string>)
    returns (reply: Result<nat, Retry.PyError>, sent: seq<seq<Vector>>)
    ensures !AllEmbedded(|chunks|, calls) ==>
      sent == [] && exists i :: 0 <= i < |chunks| && AllEmbedded(i, calls)
                                && EmbedOf(calls, i).Failure? && reply == Failure(EmbedOf(calls, i).error)
    ensures AllEmbedded(|chunks|, calls) ==>
      var bs := Batching.Batches(Vectors(safeName, subject, chapter, publicUrl, chunks, calls), 100);
      sent <= bs
      && (reply.Success? <==> sent == bs && forall k :: 0 <= k < |bs| ==> upsert(k).None?)
      && (reply.Success? ==> reply.value == |chunks|)
      && (reply.Failure? ==> sent != [] && upsert(|sent| - 1).Some?
                             && reply.error == Retry.Exception(upsert(|sent| - 1).value))
  {
    var built := BuildVectors(safeName, subject, chapter, publicUrl, chunks, calls);
    if built.Failure? {
      return Failure(built.error), [];
    }
    var failure;
    failure, sent := UpsertBatches(built.value, upsert);
    if failure.Some? {
      return Failure(Retry.Exception(failure.value)), sent;
    }
    reply := Success(|chunks|);
  }

  /** When the first chunk's three embedding attempts all hit a 429, its embedding raises
      the helper's 429 and no prefix of the chunks past it is fully embedded. */
  lemma FirstChunkBusy(calls: nat -> nat -> Retry.Outcome<Embedding>)
    requires forall k :: 0 <= k < 3 ==> Retry.RateLimited(calls(0)(k), Has429)
    ensures EmbedOf(calls, 0) == Failure(Busy)
    ensures forall n :: n > 0 ==> !AllEmbedded(n, calls)
  {
    EmbedTextWithRetryPolicy(calls(0));
  }

  /** `/upload` as written ends in `except Exception as e: raise HTTPException(500, str(e))`,
      which also catches the embedding helper's 429: when the first chunk's three attempts
      are rate-limited the body fails at that chunk and the client gets a 500 whose detail
      is "429: Google API Busy". */
  lemma UploadBusyBecomes500(calls: nat -> nat -> Retry.Outcome<Embedding>)
    requires forall k :: 0 <= k < 3 ==> Retry.RateLimited(calls(0)(k), Has429)
    ensures !AllEmbedded(1, calls)
    ensures Retry.HandleAsWritten(Result<nat, Retry.PyError>.Failure(EmbedOf(calls, 0).error))
         == Failure(Retry.HttpException(500, "429: Google API Busy"))
  {
    FirstChunkBusy(calls);
    assert Decimal.NatToString(4) == "4";
    assert Decimal.NatToString(42) == "42";
    assert Decimal.NatToString(429) == "429";
    assert Retry.Str(Busy) == "429: Google API Busy";
  }

  /** `/upload` with the intended handler: an HTTPException raised in the body keeps its
      status and detail, any other error becomes a 500 with its text. An embedding failure
      stops the upload before any batch is sent; a failed upsert answers 500 with the store's
      message; when the first chunk's three attempts all hit a 429, the client gets the 429. */
  method UploadEndpoint(safeName: string, subject: string, chapter: string, publicUrl: string,
                        chunks: seq<string>, calls: nat -> nat -> Retry.Outcome<Embedding>,
                        upsert: nat -> Option<string>)
    returns (reply: Result<nat, Retry.PyError>, sent: seq<seq<Vector>>)
    ensures !AllEmbedded(|chunks|, calls) ==>
      sent == [] && exists i :: 0 <= i < |chunks| && AllEmbedded(i, calls) && EmbedOf(calls, i).Failure?
                                && reply == Retry.Handle(Failure(EmbedOf(calls, i).error))
    ensures AllEmbedded(|chunks|, calls) ==>
      var bs := Batching.Batches(Vectors(safeName, subject, chapter, publicUrl, chunks, calls), 100);
      sent <= bs
      && (reply.Success? <==> sent == bs && forall k :: 0 <= k < |bs| ==> upsert(k).None?)
      && (reply.Success? ==> reply.value == |chunks|)
      && (reply.Failure? ==> sent != [] && upsert(|sent| - 1).Some?
                             && reply.error == Retry.HttpException(500, upsert(|sent| - 1).value))
    ensures chunks != [] && (forall k :: 0 <= k < 3 ==> Retry.RateLimited(calls(0)(k), Has429)) ==>
      sent == [] && reply == Failure(Busy)
  {
    var body;
    body, sent := UploadVectors(safeName, subject, chapter, publicUrl, chunks, calls, upsert);
    reply := Retry.Handle(body);
    if chunks != [] && forall k :: 0 <= k < 3 ==> Retry.RateLimited(calls(0)(k), Has429) {
      FirstChunkBusy(calls);
      assert !AllEmbedded(|chunks|, calls);
      var i :| 0 <= i < |chunks| && AllEmbedded(i, calls) && EmbedOf(calls, i).Failure?
               && body == Failure(EmbedOf(calls, i).error);
      assert i == 0;
    }
  }

  // ---------------------------------------------------------------------------
  // Admin endpoints

  /** The guard as written, `if x_admin_secret != ADMIN_SECRET: raise 403`: the call passes
      when the header equals the configured secret, where either may be missing (None). */
  predicate AuthorizedAsWritten(configured: Option<string>, header: Option<string>) {
    header == configured
  }

  /** With ADMIN_SECRET unset and no header sent, `None != None` is False: the guard lets
      the call through. */
  lemma UnsetSecretAdmitsAnyone()
    ensures AuthorizedAsWritten(None, None)
  {
  }

  /** The guard as intended: a secret is configured and the header carries it. */
  predicate Authorized(configured: Option<string>, header: Option<string>) {
    configured.Some? && header == configured
  }

  /** The intended guard never admits a call when no secret is configured, and agrees with
      the written guard whenever one is. */
  lemma AuthorizedNeedsSecret(configured: Option<string>, header: Option<string>)
    ensures Authorized(configured, header) <==>
              configured.Some? && header.Some? && header.value == configured.value
    ensures configured.Some? ==> (Authorized(configured, header) <==> AuthorizedAsWritten(configured, header))
    ensures !Authorized(None, header)
  {
  }

  /** Which guard an admin endpoint runs: the one in the source, or the intended one. */
  datatype Guard = AsWritten | Intended

  predicate Admits(guard: Guard, configured: Option<string>, header: Option<string>) {
    match guard
    case AsWritten => AuthorizedAsWritten(configured, header)
    case Intended => Authorized(configured, header)
  }

  const Forbidden: Retry.PyError := Retry.HttpException(403, "Invalid Admin Password")
  const EmptySubject: Retry.PyError := Retry.HttpException(400, "Subject cannot be empty")
  const Mismatch: Retry.PyError :=
    Retry.HttpException(400, "Confirmation string mismatch. Type 'DELETE_EVERYTHING'.")

  /** `DELETE /admin/delete-topic`: the secret first (403), then the subject stripped of
      whitespace must be non-empty (400); then the index deletes by subject, whose error
      (if any) is `deleteError` and becomes HTTP 500. The reply is the subject deleted. */
  function DeleteTopic(guard: Guard, configured: Option<string>, header: Option<string>, subject: string,
                       deleteError: Option<string>): (r: Result<string, Retry.PyError>)
    ensures r.Success? <==> Admits(guard, configured, header) && Strip(subject, IsSpace) != [] && deleteError.None?
    ensures r.Success? ==> r.value == Strip(subject, IsSpace) && r.value != [] && !IsSpace(r.value[0])
    ensures r.Failure? ==> r.error.HttpException? && r.error.status in {403, 400, 500}
    ensures !Admits(guard, configured, header) <==> r == Failure(Forbidden)
    ensures Admits(guard, configured, header) && Strip(subject, IsSpace) == [] <==> r == Failure(EmptySubject)
    ensures Admits(guard, configured, header) && Strip(subject, IsSpace) != [] && deleteError.Some?
            ==> r == Failure(Retry.HttpException(500, deleteError.value))
  {
    if !Admits(guard, configured, header) then Failure(Forbidden)
    else
      var target := Strip(subject, IsSpace);
      if target == [] then Failure(EmptySubject)
      else if deleteError.Some? then Failure(Retry.HttpException(500, deleteError.value))
      else Success(target)
  }

  /** `DELETE /admin/nuke-system`: the secret first (403), then the confirmation must be
      exactly "DELETE_EVERYTHING" (400); then the wipe, whose error (if any) becomes HTTP 500. */
  function NukeSystem(guard: Guard, configured: Option<string>, header: Option<string>, confirmation: string,
                      wipeError: Option<string>): (r: Result<(), Retry.PyError>)
    ensures r.Success? <==>
              Admits(guard, configured, header) && confirmation == "DELETE_EVERYTHING" && wipeError.None?
    ensures r.Failure? ==> r.error.HttpException? && r.error.status in {403, 400, 500}
    ensures !Admits(guard, configured, header) <==> r == Failure(Forbidden)
    ensures Admits(guard, configured, header) && confirmation != "DELETE_EVERYTHING" <==> r == Failure(Mismatch)
    ensures Admits(guard, configured, header) && confirmation == "DELETE_EVERYTHING" && wipeError.Some?
            ==> r == Failure(Retry.HttpException(500, wipeError.value))
  {
    if !Admits(guard, configured, header) then Failure(Forbidden)
    else if confirmation != "DELETE_EVERYTHING" then Failure(Mismatch)
    else if wipeError.Some? then Failure(Retry.HttpException(500, wipeError.value))
    else Success(())
  }

  /** The secret is checked before the payload: under either guard, a refused call gets
      403 whatever its payload and whatever the store would do. */
  lemma AdminSecretCheckedFirst(guard: Guard, configured: Option<string>, header: Option<string>,
                                s1: string, s2: string, e1: Option<string>, e2: Option<string>)
    requires !Admits(guard, configured, header)
    ensures DeleteTopic(guard, configured, header, s1, e1) == DeleteTopic(guard, configured, header, s2, e2)
    ensures NukeSystem(guard, configured, header, s1, e1) == NukeSystem(guard, configured, header, s2, e2)
    ensures DeleteTopic(guard, configured, header, s1, e1) == Failure(Forbidden)
    ensures NukeSystem(guard, configured, header, s1, e1) == Failure(Forbidden)
  {
  }

  /** As written, with ADMIN_SECRET unset, a request with no X-Admin-Secret header deletes
      the topic "math" and wipes the whole system. */
  lemma UnsetSecretDeletesTopic()
    ensures DeleteTopic(AsWritten, None, None, "math", None) == Success("math")
    ensures NukeSystem(AsWritten, None, None, "DELETE_EVERYTHING", None) == Success(())
  {
    StripFixed("math", IsSpace);
  }

  /** With the intended guard, an unset secret locks both endpoints for every header and
      payload; once a secret is configured the two guards give the same answers. */
  lemma UnsetSecretLocksAdmin(configured: Option<string>, header: Option<string>, subject: string,
                              confirmation: string, storeError: Option<string>)
    ensures configured.None? ==>
              DeleteTopic(Intended, configured, header, subject, storeError) == Failure(Forbidden)
              && NukeSystem(Intended, configured, header, confirmation, storeError) == Failure(Forbidden)
    ensures configured.Some? ==>
              DeleteTopic(Intended, configured, header, subject, storeError)
                == DeleteTopic(AsWritten, configured, header, subject, storeError)
              && NukeSystem(Intended, configured, header, confirmation, storeError)
                == NukeSystem(AsWritten, configured, header, confirmation, storeError)
  {
    AuthorizedNeedsSecret(configured, header);
  }
}
