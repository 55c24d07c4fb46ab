/** The first server, `main.py` at the top of the repository: its retrying embedding and
    generation calls, its text cleaner, the context and sources of `/chat`, and the error
    handler around them. Gemini and ChromaDB are inputs: the outcome of every attempt and
    the query result are parameters. */
module ChromaMain {
  import opened Base
  import opened PyText
  import Retry
  import Decimal
  import ChromaIngest

  // ---------------------------------------------------------------------------
  // embed_text_with_retry and generate_with_retry

  /** `"429" in str(e) or "ResourceExhausted" in str(e)`. */
  predicate IsRateLimit(message: string) {
    Contains(message, "429") || Contains(message, "ResourceExhausted")
  }

  /** `base_wait * (2 ** attempt)` with `base_wait = 10`. */
  function Backoff(attempt: nat): nat {
    10 * Pow2(attempt)
  }

  const EmbedBusy: Retry.PyError := Retry.HttpException(429, "Google API is too busy. Please wait 2 minutes.")
  const GenerateBusy: Retry.PyError := Retry.HttpException(429, "AI Overloaded. Try again later.")

  /** The second, effective definition of `embed_text_with_retry`: five attempts, a back-off
      of 10, 20, 40, 80, 160 seconds after each rate limit, any other error re-raised. */
  method EmbedTextWithRetry(calls: nat -> Retry.Outcome<Embedding>)
    returns (result: Result<Embedding, Retry.PyError>, run: Retry.Run<Embedding>)
    ensures run == Retry.Expected(calls, IsRateLimit, 5, Backoff)
    ensures result == Retry.Finish(run.ending, EmbedBusy)
  {
    run := Retry.RetryLoop(calls, IsRateLimit, 5, Backoff);
    result := Retry.Finish(run.ending, EmbedBusy);
  }

  /** `generate_with_retry(prompt)`: the same loop around the text generation call. */
  method GenerateWithRetry(calls: nat -> Retry.Outcome<string>)
    returns (result: Result<string, Retry.PyError>, run: Retry.Run<string>)
    ensures run == Retry.Expected(calls, IsRateLimit, 5, Backoff)
    ensures result == Retry.Finish(run.ending, GenerateBusy)
  {
    run := Retry.RetryLoop(calls, IsRateLimit, 5, Backoff);
    result := Retry.Finish(run.ending, GenerateBusy);
  }

  /** The policy of both loops: at most five attempts; the sleeps are a prefix of
      10, 20, 40, 80, 160 seconds; the caller's 429 is raised exactly when all five attempts
      hit a rate limit, after sleeping all five delays; a re-raised error is never one the
      loop counts as a rate limit. */
  lemma RetryPolicy<T>(calls: nat -> Retry.Outcome<T>, busy: Retry.PyError)
    requires busy.HttpException?
    ensures var run := Retry.Expected(calls, IsRateLimit, 5, Backoff);
      var result := Retry.Finish(run.ending, busy);
      run.attempts <= 5
      && run.sleeps <= [10, 20, 40, 80, 160]
      && (result == Failure(busy) <==> forall k :: 0 <= k < 5 ==> Retry.RateLimited(calls(k), IsRateLimit))
      && (result == Failure(busy) ==> run.sleeps == [10, 20, 40, 80, 160])
      && (result.Failure? && result.error.Exception? ==> !IsRateLimit(result.error.message))
  {
    var run := Retry.Expected(calls, IsRateLimit, 5, Backoff);
    Retry.ExpectedShape(calls, IsRateLimit, 5, Backoff);
    Retry.ExhaustedIff(calls, IsRateLimit, 5, Backoff);
    BackoffPrefix(run.sleeps);
    if run.ending.Reraised? {
      Retry.ReraisedIff(calls, IsRateLimit, 5, Backoff, run.ending.message);
    }
  }

  /** Up to five sleeps of `Backoff(i)` each are a prefix of 10, 20, 40, 80, 160. */
  lemma BackoffPrefix(sleeps: seq<nat>)
    requires |sleeps| <= 5
    requires forall i :: 0 <= i < |sleeps| ==> sleeps[i] == Backoff(i)
    ensures sleeps <= [10, 20, 40, 80, 160]
    ensures |sleeps| == 5 ==> sleeps == [10, 20, 40, 80, 160]
  {
    assert Backoff(0) == 10 && Backoff(1) == 20 && Backoff(2) == 40;
    assert Backoff(3) == 80 && Backoff(4) == 160;
  }

  // ---------------------------------------------------------------------------
  // clean_text

  /** What `clean_text` makes of one character. */
  function ContextArrow(c: char): string
  {
    if c == '\U{2192}' || IsPrivateUse(c) then "->" else if c == '\U{21D2}' then "=>" else [c]
  }

  /** `clean_text(text)`: '→' becomes "->", then '⇒' becomes "=>", then every private-use
      character becomes "->". */
  function CleanText(text: string): string
  {
    if text == [] then [] else SubPrivateUse(ReplaceChar(ReplaceChar(text, '\U{2192}', "->"), '\U{21D2}', "=>"), "->")
  }

  /** The three replacements on a single character give its per-character image. */
  lemma CleanCharChain(c: char)
    ensures SubPrivateUse(ReplaceChar(ReplaceChar([c], '\U{2192}', "->"), '\U{21D2}', "=>"), "->")
         == ContextArrow(c)
  {
    var a := ReplaceChar([c], '\U{2192}', "->");
    assert [c][0] == c && [c][1..] == [];
    assert ReplaceChar([], '\U{2192}', "->") == [] && ReplaceChar([], '\U{21D2}', "=>") == [];
    if c == '\U{2192}' {
      assert a == "->";
      ReplaceCharAbsent("->", '\U{21D2}', "=>");
      assert SubPrivateUse("->", "->") == "->";
    } else if c == '\U{21D2}' {
      assert a == [c] && ReplaceChar(a, '\U{21D2}', "=>") == "=>";
      assert SubPrivateUse("=>", "->") == "=>";
    } else {
      assert a == [c] && ReplaceChar(a, '\U{21D2}', "=>") == [c];
    }
  }

  lemma {:induction false} CleanTextChain(text: string)
    ensures SubPrivateUse(ReplaceChar(ReplaceChar(text, '\U{2192}', "->"), '\U{21D2}', "=>"), "->")
         == ConcatMap(text, ContextArrow)
  {
    if text != [] {
      var c, rest := text[0], text[1..];
      assert text == [c] + rest;
      CleanTextChain(rest);
      ReplaceCharAppend([c], rest, '\U{2192}', "->");
      var a := ReplaceChar([c], '\U{2192}', "->");
      var ra := ReplaceChar(rest, '\U{2192}', "->");
      ReplaceCharAppend(a, ra, '\U{21D2}', "=>");
      var b := ReplaceChar(a, '\U{21D2}', "=>");
      SubPrivateUseAppend(b, ReplaceChar(ra, '\U{21D2}', "=>"), "->");
      CleanCharChain(c);
    }
  }

  /** Each '→' and each private-use character becomes "->", each '⇒' becomes "=>", and every
      other character stays, in order. */
  lemma CleanTextPerChar(text: string)
    ensures CleanText(text) == ConcatMap(text, ContextArrow)
  {
    CleanTextChain(text);
  }

  /** After a per-character rewrite that never yields '→', '⇒' or a private-use character,
      none of them is left. */
  lemma {:induction false} ConcatMapAvoids(s: string)
    ensures forall c :: c in ConcatMap(s, ContextArrow) ==>
              c != '\U{2192}' && c != '\U{21D2}' && !IsPrivateUse(c)
  {
    if s != [] {
      ConcatMapAvoids(s[1..]);
      assert ConcatMap(s, ContextArrow) == ContextArrow(s[0]) + ConcatMap(s[1..], ContextArrow);
    }
  }

  /** The cleaned text holds no '→', no '⇒' and no private-use character. */
  lemma CleanTextClean(text: string)
    ensures forall c :: c in CleanText(text) ==> c != '\U{2192}' && c != '\U{21D2}' && !IsPrivateUse(c)
  {
    CleanTextPerChar(text);
    ConcatMapAvoids(text);
  }

  /** Cleaning twice is cleaning once. */
  lemma {:induction false} ConcatMapFixed(s: string)
    requires forall c :: c in s ==> c != '\U{2192}' && c != '\U{21D2}' && !IsPrivateUse(c)
    ensures ConcatMap(s, ContextArrow) == s
  {
    if s != [] {
      assert s[0] in s;
      assert forall c :: c in s[1..] ==> c in s;
      ConcatMapFixed(s[1..]);
      assert s == [s[0]] + s[1..];
    }
  }

  lemma CleanTextIdempotent(text: string)
    ensures CleanText(CleanText(text)) == CleanText(text)
  {
    CleanTextClean(text);
    CleanTextPerChar(CleanText(text));
    ConcatMapFixed(CleanText(text));
  }

  // ---------------------------------------------------------------------------
  // The context and the sources of /chat

  /** `sep.join(parts)`. */
  function Join(parts: seq<string>, sep: string): string
  {
    if parts == [] then [] else if |parts| == 1 then parts[0] else parts[0] + sep + Join(parts[1..], sep)
  }

  /** Every character of a join comes from a part or from the separator. */
  lemma {:induction false} JoinChars(parts: seq<string>, sep: string)
    ensures forall c :: c in Join(parts, sep) ==> c in sep || exists i :: 0 <= i < |parts| && c in parts[i]
  {
    if |parts| > 1 {
      JoinChars(parts[1..], sep);
      forall c | c in Join(parts, sep)
        ensures c in sep || exists i :: 0 <= i < |parts| && c in parts[i]
      {
        if c !in parts[0] && c !in sep {
          assert c in Join(parts[1..], sep);
          if !(c in sep) {
            var i :| 0 <= i < |parts[1..]| && c in parts[1..][i];
            assert c in parts[i + 1];
          }
        }
      }
    }
  }

  /** `[clean_text(c) for c in chunks]`. */
  function CleanAll(chunks: seq<string>): (r: seq<string>)
    ensures |r| == |chunks| && forall i :: 0 <= i < |chunks| ==> r[i] == CleanText(chunks[i])
  {
    seq(|chunks|, i requires 0 <= i < |chunks| => CleanText(chunks[i]))
  }

  const NoNotes: string := "No relevant notes found."

  /** The context text handed to the model and the sources returned to the client.
      `documents` and `metadatas` are the query's per-query lists; reading `metadatas[0]`
      when that list is empty raises IndexError. */
  function Retrieved(documents: seq<seq<string>>, metadatas: seq<seq<ChromaIngest.ChromaMeta>>)
    : Result<(string, seq<ChromaIngest.ChromaMeta>), Retry.PyError>
  {
    if documents == [] || documents[0] == [] then Success((NoNotes, []))
    else if metadatas == [] then Failure(Retry.Exception("list index out of range"))
    else Success((Join(CleanAll(documents[0]), "\n\n"), metadatas[0]))
  }

  /** No hits give the fixed notice and no sources; otherwise the sources are the first
      query's metadata, and the context holds no '→', '⇒' or private-use character and no
      character that is neither in a chunk nor a newline. */
  lemma RetrievedShape(documents: seq<seq<string>>, metadatas: seq<seq<ChromaIngest.ChromaMeta>>)
    ensures documents == [] || documents[0] == [] ==> Retrieved(documents, metadatas) == Success((NoNotes, []))
    ensures documents != [] && documents[0] != [] && metadatas == [] ==> Retrieved(documents, metadatas).Failure?
    ensures documents != [] && documents[0] != [] && metadatas != [] ==>
      var r := Retrieved(documents, metadatas);
      r.Success? && r.value.1 == metadatas[0]
      && forall c :: c in r.value.0 ==>
           c != '\U{2192}' && c != '\U{21D2}' && !IsPrivateUse(c)
           && (c == '\n' || exists i :: 0 <= i < |documents[0]| && c in ConcatMap(documents[0][i], ContextArrow))
  {
    if documents != [] && documents[0] != [] && metadatas != [] {
      var parts := CleanAll(documents[0]);
      JoinChars(parts, "\n\n");
      forall c | c in Join(parts, "\n\n")
        ensures c != '\U{2192}' && c != '\U{21D2}' && !IsPrivateUse(c)
        ensures c == '\n' || exists i :: 0 <= i < |documents[0]| && c in ConcatMap(documents[0][i], ContextArrow)
      {
        if c !in "\n\n" {
          var i :| 0 <= i < |parts| && c in parts[i];
          CleanTextClean(documents[0][i]);
          CleanTextPerChar(documents[0][i]);
        }
      }
    }
  }

  // ---------------------------------------------------------------------------
  // The /chat endpoint and its error handler

  /** The reply body `{"answer": …, "sources": …}`. */
  datatype ChatReply = ChatReply(answer: string, sources: seq<ChromaIngest.ChromaMeta>)

  /** The body of the `try` block: embed the question, read the query result, generate,
      clean the answer. The prompt text is not modelled: `generate` is what the generation
      attempts return for it. */
  method ChatBody(embed: nat -> Retry.Outcome<Embedding>, queryError: Option<string>,
                  documents: seq<seq<string>>, metadatas: seq<seq<ChromaIngest.ChromaMeta>>,
                  generate: nat -> Retry.Outcome<string>)
    returns (r: Result<ChatReply, Retry.PyError>)
    ensures r == ChatOutcome(embed, queryError, documents, metadatas, generate)
  {
    var vector, _ := EmbedTextWithRetry(embed);
    if vector.Failure? {
      return Failure(vector.error);
    }
    if queryError.Some? {
      return Failure(Retry.Exception(queryError.value));
    }
    var retrieved := Retrieved(documents, metadatas);
    if retrieved.Failure? {
      return Failure(retrieved.error);
    }
    var answer, _ := GenerateWithRetry(generate);
    if answer.Failure? {
      return Failure(answer.error);
    }
    r := Success(ChatReply(CleanText(answer.value), retrieved.value.1));
  }

  /** What the `try` block gives: the first error raised, or the reply. */
  function ChatOutcome(embed: nat -> Retry.Outcome<Embedding>, queryError: Option<string>,
                       documents: seq<seq<string>>, metadatas: seq<seq<ChromaIngest.ChromaMeta>>,
                       generate: nat -> Retry.Outcome<string>)
    : Result<ChatReply, Retry.PyError>
  {
    var vector := Retry.Finish(Retry.Expected(embed, IsRateLimit, 5, Backoff).ending, EmbedBusy);
    var retrieved := Retrieved(documents, metadatas);
    var answer := Retry.Finish(Retry.Expected(generate, IsRateLimit, 5, Backoff).ending, GenerateBusy);
    if vector.Failure? then Failure(vector.error)
    else if queryError.Some? then Failure(Retry.Exception(queryError.value))
    else if retrieved.Failure? then Failure(retrieved.error)
    else if answer.Failure? then Failure(answer.error)
    else Success(ChatReply(CleanText(answer.value), retrieved.value.1))
  }

  /** When all five embedding attempts are rate-limited the client gets a 500 whose detail
      is "429: Google API is too busy. Please wait 2 minutes." instead of the 429. */
  lemma BusyBecomes500(embed: nat -> Retry.Outcome<Embedding>, queryError: Option<string>,
                       documents: seq<seq<string>>, metadatas: seq<seq<ChromaIngest.ChromaMeta>>,
                       generate: nat -> Retry.Outcome<string>)
    requires forall k :: 0 <= k < 5 ==> Retry.RateLimited(embed(k), IsRateLimit)
    ensures Retry.HandleAsWritten(ChatOutcome(embed, queryError, documents, metadatas, generate))
         == Failure(Retry.HttpException(500, "429" + ": " + EmbedBusy.detail))
  {
    Retry.ExhaustedIff(embed, IsRateLimit, 5, Backoff);
    assert Decimal.NatToString(4) == "4";
    assert Decimal.NatToString(42) == "42";
    assert Decimal.NatToString(429) == "429";
    assert ChatOutcome(embed, queryError, documents, metadatas, generate) == Failure(EmbedBusy);
  }

  /** `/chat` with the intended handler. */
  method ChatEndpoint(embed: nat -> Retry.Outcome<Embedding>, queryError: Option<string>,
                      documents: seq<seq<string>>, metadatas: seq<seq<ChromaIngest.ChromaMeta>>,
                      generate: nat -> Retry.Outcome<string>)
    returns (r: Result<ChatReply, Retry.PyError>)
    ensures r == Retry.Handle(ChatOutcome(embed, queryError, documents, metadatas, generate))
  {
    var body := ChatBody(embed, queryError, documents, metadatas, generate);
    r := Retry.Handle(body);
  }

  /** With the intended handler the rate-limit errors reach the client: 429 with the
      embedding helper's detail when every embedding attempt was rate-limited, 429 with the
      generation helper's detail when the question was embedded and the context read but
      every generation attempt was rate-limited. A failing `collection.query` after a
      successful embedding, and the IndexError of a missing metadata list, answer 500 with
      the error's text. A reply's answer holds no '→', '⇒' or private-use character. */
  lemma ChatEndpointOutcomes(embed: nat -> Retry.Outcome<Embedding>, queryError: Option<string>,
                             documents: seq<seq<string>>, metadatas: seq<seq<ChromaIngest.ChromaMeta>>,
                             generate: nat -> Retry.Outcome<string>)
    ensures var r := Retry.Handle(ChatOutcome(embed, queryError, documents, metadatas, generate));
      ((forall k :: 0 <= k < 5 ==> Retry.RateLimited(embed(k), IsRateLimit)) ==> r == Failure(EmbedBusy))
      && (r == Failure(EmbedBusy) ==> forall k :: 0 <= k < 5 ==> Retry.RateLimited(embed(k), IsRateLimit))
      && (r.Success? ==> forall c :: c in r.value.answer ==> c != '\U{2192}' && c != '\U{21D2}' && !IsPrivateUse(c))
      && (Retry.Finish(Retry.Expected(embed, IsRateLimit, 5, Backoff).ending, EmbedBusy).Success?
          && queryError.Some?
          ==> r == Failure(Retry.HttpException(500, queryError.value)))
      && (Retry.Finish(Retry.Expected(embed, IsRateLimit, 5, Backoff).ending, EmbedBusy).Success?
          && queryError.None? && Retrieved(documents, metadatas).Failure?
          ==> r == Failure(Retry.HttpException(500, "list index out of range")))
      && (Retry.Finish(Retry.Expected(embed, IsRateLimit, 5, Backoff).ending, EmbedBusy).Success?
          && queryError.None? && Retrieved(documents, metadatas).Success?
          && (forall k :: 0 <= k < 5 ==> Retry.RateLimited(generate(k), IsRateLimit))
          ==> r == Failure(GenerateBusy))
  {
    ChatEmbedBusy(embed, queryError, documents, metadatas, generate);
    if Retry.Finish(Retry.Expected(embed, IsRateLimit, 5, Backoff).ending, EmbedBusy).Success?
       && queryError.None? && Retrieved(documents, metadatas).Success?
       && (forall k :: 0 <= k < 5 ==> Retry.RateLimited(generate(k), IsRateLimit)) {
      ChatGenerateBusy(embed, queryError, documents, metadatas, generate);
    }
    var r := Retry.Handle(ChatOutcome(embed, queryError, documents, metadatas, generate));
    if r.Success? {
      var answer := Retry.Finish(Retry.Expected(generate, IsRateLimit, 5, Backoff).ending, GenerateBusy);
      CleanTextClean(answer.value);
    }
  }

  lemma ChatEmbedBusy(embed: nat -> Retry.Outcome<Embedding>, queryError: Option<string>,
                      documents: seq<seq<string>>, metadatas: seq<seq<ChromaIngest.ChromaMeta>>,
                      generate: nat -> Retry.Outcome<string>)
    ensures Retry.Handle(ChatOutcome(embed, queryError, documents, metadatas, generate)) == Failure(EmbedBusy)
        <==> forall k :: 0 <= k < 5 ==> Retry.RateLimited(embed(k), IsRateLimit)
  {
    RetryPolicy(embed, EmbedBusy);
    RetryPolicy(generate, GenerateBusy);
  }

  lemma ChatGenerateBusy(embed: nat -> Retry.Outcome<Embedding>, queryError: Option<string>,
                         documents: seq<seq<string>>, metadatas: seq<seq<ChromaIngest.ChromaMeta>>,
                         generate: nat -> Retry.Outcome<string>)
    requires Retry.Finish(Retry.Expected(embed, IsRateLimit, 5, Backoff).ending, EmbedBusy).Success?
    requires queryError.None? && Retrieved(documents, metadatas).Success?
    requires forall k :: 0 <= k < 5 ==> Retry.RateLimited(generate(k), IsRateLimit)
    ensures Retry.Handle(ChatOutcome(embed, queryError, documents, metadatas, generate)) == Failure(GenerateBusy)
  {
    RetryPolicy(generate, GenerateBusy);
  }
}
