# Cue2Clarity core, modelled in Dafny

Cue2Clarity is a study assistant. PDF lecture notes are ingested into a vector store, and a
chat page answers questions from them. This project models the parts of the repository
that are plain sequential logic once the outside services are abstracted. Each `.dfy` file
models one source file, or a helper that several of them share. The modelled parts are:

- the text cleaners of both servers and both ingesters;
- the filename sanitizer;
- the retry loops around the embedding and generation calls;
- the source de-duplication and the vector ids and batches of the uploads and ingesters;
- the admin endpoints, under their guard as written and as evidently intended;
- the error handlers of the chat and upload endpoints, as written and as evidently intended;
- the axios 429 interceptor;
- the validation and handlers of the three sign-in pages;
- the message log of the two chat pages.

Outside services appear as parameters:

- Gemini (embedding and generation): a function from the attempt number to the attempt's
  outcome, a value or an error message that may count as a rate limit.
- Pinecone: the search matches of the chat endpoint are given; the outcome of the upsert
  of batch k, and of the admin delete and wipe, is an optional error message.
- ChromaDB: the query's result lists are given, together with an optional error for a
  query that raises; the outcome of the `add` of batch k is an optional error message.
- Firebase: each sign-in or sign-up call either succeeds or fails, given as a boolean.
- The axios transport: a function from the attempt number to a response or an error status.
- Supabase storage is not modelled; the file's public URL is an input.
- pdfplumber and the text splitter: the pages and chunks are given.
- The network reply of the chat page: a `Reply` value.

Waiting is recorded as a list of delays instead of being performed.

Shared helpers:

- `base.dfy`: `Option`, `Result`, `Pow2` and `Min`.
- `pytext.dfy`: Python's `str.replace`, `re.sub` over a character class, `strip`, and
  `re.sub(r'\s+', ' ', …).strip()`.
- `jstext.dfy`: JavaScript's `trim`, `.length` in UTF-16 code units, the password character
  classes, and the unanchored regular expression `\S+@\S+\.\S+`.
- `text_repair.dfy`: the replace-then-collapse cleaner and the page loop of the ingesters.
- `retry.dfy`: the closed form of a Python retry loop.
- `batching.dfy`: the slices `xs[i:i+size]` for `i in range(0, len(xs), size)`.
- `decimal.dfy`: `f"{i}"` and its parse.
- `forms.dfy`: the email rule and `handleChange`'s error clearing.
- `chat_log.dfy`: messages and their numbering.

Where the code and its comments disagree, the model follows the code:

- `api.js` computes the interceptor's delays as 2000, 4000 and 8000 ms. Its comment says
  1 s, 2 s, 4 s.
- The top-level `main.py` defines `embed_text_with_retry` twice. The second definition
  replaces the first, so only lines 66-86 are modelled.

## Model

| member | source | states |
|---|---|---|
| PyText.ReplaceEachChars | Backend/main.py:72-73 | after the replacements run in dictionary order, no key character remains (when no value contains a key), and every character comes from the input or from a value |
| PyText.NormalizeSpaceShape | Backend/main.py:74 | after the whitespace collapse and strip: no leading, trailing or adjacent whitespace, non-whitespace characters kept in order, and only ' ' is new |
| PyText.NormalizeSpaceIdempotent | Backend/main.py:74 | collapsing and stripping twice equals doing it once |
| PyText.SubRunsNoAdjacent | Backend/main.py:118 | after each run of a class is replaced by one character, no two class characters are adjacent |
| TextRepair.ReplaceAll | Backend/main.py:72-73 | the loop over the replacement pairs leaves the text with every pair applied in order |
| TextRepair.CleanAndRepairText | Backend/main.py:69-74 | the method's result is the cleaner's specification: "" for empty input, otherwise replacements, then collapse and strip |
| TextRepair.CleanAndRepairShape | Backend/main.py:69-74 | for a map whose values avoid its keys and whose keys are not whitespace: empty in gives empty out; no key remains; no leading, trailing or adjacent whitespace; non-space characters match those of the replaced text; every character is ' ', from the input or from a value |
| TextRepair.CleanAndRepairIdempotent | ingested_master.py:38-53 | cleaning a cleaned text changes nothing (same map conditions) |
| TextRepair.ExtractPages | Backend/ingested_master.py:108-112 | the page loop appends each page with text, cleaned and followed by a blank line, and skips pages without text |
| TextRepair.JoinPagesNoKeys | Backend/main.py:299-302 | the joined text of all pages contains no key of the map |
| TextRepair.JoinPagesEmptyIff | ingested_master.py:63-71 | the joined text is empty exactly when no page has text |
| BackendMain.RepairsWellFormed | Backend/main.py:71 | the five-entry map's values avoid its keys and no key is whitespace |
| BackendMain.CleanAndRepairText | Backend/main.py:69-74 | empty in, empty out; none of U+F0E0, '⇒', '→', '–', '•' remains; no leading, trailing or adjacent whitespace |
| BackendMain.CleanAndRepairTextIdempotent | Backend/main.py:69-74 | cleaning twice equals cleaning once |
| BackendMain.SanitizeFilenameShape | Backend/main.py:116-119 | the name is ASCII, has no whitespace, '[', ']', '(' or ')', and neither starts nor ends with '_' |
| BackendMain.SanitizeFilenameIdempotent | Backend/main.py:116-119 | sanitizing a sanitized name changes nothing |
| BackendMain.SanitizeFilenameKeepsOthers | Backend/main.py:116-119 | every character outside the removed classes and '_' survives, in order |
| BackendMain.SanitizeFilenameRun | Backend/main.py:118 | a run of whitespace and brackets between two ASCII parts without them (not ending or starting in '_') becomes exactly one '_' |
| BackendMain.CleanResponseChain | Backend/main.py:140 | the private-use substitution followed by the arrow replace equals a per-character map |
| BackendMain.CleanResponseTextPerChar | Backend/main.py:138-140 | each private-use character and each '→' becomes "->", and every other character is kept in order (empty in, empty out) |
| BackendMain.EmbedTextWithRetry | Backend/main.py:121-136 | the loop's attempts, sleeps and result are the retry specification with 3 attempts, "429" as the rate-limit test, sleeps of 2 ** attempt, and HTTP 429 "Google API Busy" on exhaustion |
| BackendMain.EmbedTextWithRetryPolicy | Backend/main.py:121-136 | at most 3 attempts; sleeps are a prefix of 1, 2, 4; HTTP 429 exactly when all three attempts hit the rate limit, and then all three sleeps happen; a re-raised error is never a 429 |
| BackendMain.ExtractSources | Backend/main.py:232-242 | the dictionary loop yields the first-occurrence list of sources |
| BackendMain.FirstSourcesDistinct | Backend/main.py:232-242 | no source name appears twice |
| BackendMain.FirstSourcesNames | Backend/main.py:234-236 | the names listed are exactly the names of the matches ("Unknown" when missing) |
| BackendMain.FirstSourcesAreFirsts | Backend/main.py:233-242 | the list is the entries of the matches whose name did not occur earlier, in match order, each built from that first match (its pdf_url, its chapter or "General", its score) |
| BackendMain.VectorsIndexed | Backend/main.py:308-321 | vector i has id "<name>_chunk_<i>", chunk_index i, the chunk's text and the file as source; ids are pairwise distinct |
| BackendMain.BuildVectors | Backend/main.py:308-321 | with every embedding successful, the vectors are built one per chunk; otherwise the first failing chunk's error is raised |
| BackendMain.UpsertBatches | Backend/main.py:323-325 | batches of 100 are sent in order; the first failure stops the loop and is raised; success means every batch was sent |
| BackendMain.UploadVectors | Backend/main.py:307-327 | nothing is upserted if an embedding fails; otherwise the upserted batches are a prefix of the batches of 100; success means all of them and reports the chunk count; failure carries the failing upsert's error |
| BackendMain.FirstChunkBusy | Backend/main.py:308-309 | three rate limits on the first chunk make its embedding the 429 "Google API Busy" and stop every prefix of the chunks from being fully embedded |
| BackendMain.UploadBusyBecomes500 | Backend/main.py:329-331 | as written, three rate limits on the first chunk stop the upload at that chunk, and the handler turns its 429 into 500 "429: Google API Busy" |
| BackendMain.UploadEndpoint | Backend/main.py:273-331 | with the corrected handler: an embedding failure sends nothing and its HTTP error passes through; a failed upsert answers 500 with the store's message; success sends every batch of 100; three rate limits on the first chunk reach the client as the 429 |
| BackendMain.UnsetSecretAdmitsAnyone | Backend/main.py:341 | as written, with ADMIN_SECRET unset a request without the header passes the guard |
| BackendMain.AuthorizedNeedsSecret | Backend/main.py:341-342 | the corrected guard admits exactly a configured secret equal to the header, and agrees with the original whenever a secret is configured |
| BackendMain.DeleteTopic | Backend/main.py:339-353 | under the guard as written or the corrected one: success exactly for an admitted caller, a subject non-empty after strip and a delete that does not raise, and then the value is the stripped subject; 403 "Invalid Admin Password" exactly when not admitted; 400 "Subject cannot be empty" exactly when admitted with a blank subject; otherwise 500 with the store's error |
| BackendMain.NukeSystem | Backend/main.py:356-362 | under either guard: success exactly for an admitted caller, the confirmation "DELETE_EVERYTHING" and a wipe that does not raise; 403 exactly when not admitted; the 400 mismatch message exactly when admitted with another confirmation; otherwise 500 with the error |
| BackendMain.AdminSecretCheckedFirst | Backend/main.py:341-346 | under either guard, a caller not admitted gets 403 "Invalid Admin Password" from both endpoints, the same answer whatever the subject, confirmation or store outcome |
| BackendMain.UnsetSecretDeletesTopic | Backend/main.py:339-362 | as written, with ADMIN_SECRET unset and no header, deleting the topic "math" succeeds and the full wipe succeeds |
| BackendMain.UnsetSecretLocksAdmin | Backend/main.py:341-342 | with the corrected guard an unset secret answers 403 on both endpoints whatever the request; with a secret configured both guards give the same answers |
| Retry.RetryLoop | Backend/main.py:123-136 | the attempt loop yields the closed-form run: the attempts made, the sleeps taken and the ending |
| Retry.ExpectedShape | Backend/ingested_master.py:61-74 | attempts are at most the limit (and at least 1); a sleep follows each rate-limited attempt, including the last; sleep i is delay(i) |
| Retry.ExhaustedIff | Backend/ingested_master.py:74 | the loop runs out exactly when every attempt hits the rate limit |
| Retry.ReturnedIff | Backend/ingested_master.py:68 | a value is returned exactly when some attempt succeeds with it after only rate-limited attempts |
| Retry.ReraisedIff | Backend/ingested_master.py:73 | an error is re-raised exactly when the first attempt that is not rate-limited fails with it |
| BackendIngest.RepairsWellFormed | Backend/ingested_master.py:79 | the four-entry map is well formed for the cleaner lemmas |
| BackendIngest.CleanAndRepairText | Backend/ingested_master.py:77-82 | empty in, empty out; none of U+F0E0, '⇒', '→', '–' remains; no leading, trailing or adjacent whitespace |
| BackendIngest.CleanAndRepairKeepsBullet | Backend/ingested_master.py:79 | '•' is not in this map: for any text, the bullets of the cleaned text are those of the input, in order, and '•' is in the result exactly when it is in the input |
| BackendIngest.GetEmbedding | Backend/ingested_master.py:59-74 | the loop's run and result are the retry specification with 5 attempts and sleeps of (2 ** attempt) * 2, raising "Embedding failed." on exhaustion |
| BackendIngest.GetEmbeddingPolicy | Backend/ingested_master.py:59-74 | at most 5 attempts; sleeps are a prefix of 2, 4, 8, 16, 32; exhausted exactly when all five are rate limits, and then all five sleeps happen |
| BackendIngest.IngestVectors | Backend/ingested_master.py:123-141 | the loop keeps exactly the records of the chunks whose embedding succeeds |
| BackendIngest.KeptRecords | Backend/ingested_master.py:127-138 | every kept record belongs to a chunk whose embedding succeeded: id "<basename>_<i>", chunk_index i, that chunk's text |
| BackendIngest.KeptOrdered | Backend/ingested_master.py:123-139 | kept records are in strictly increasing chunk order |
| BackendIngest.KeptComplete | Backend/ingested_master.py:123-141 | every chunk whose embedding succeeds has a record; failing chunks are skipped |
| BackendIngest.KeptIdsDistinct | Backend/ingested_master.py:137 | the ids use the original chunk index and are pairwise distinct |
| BackendIngest.UpsertAll | Backend/ingested_master.py:144-152 | every batch of 20 is attempted, in order, whatever fails; the failed batches are exactly those whose upsert raised |
| Batching.BatchesFlatten | Backend/main.py:323-325 | the slices, concatenated, are the whole list: every element exactly once, in order |
| Batching.BatchesCount | Backend/main.py:324 | the number of slices is the ceiling of length / size |
| Batching.BatchAt | ingested_master.py:104-107 | slice k is xs[k*size : min(k*size+size, len)] |
| Batching.BatchesAligned | ingested_master.py:104-107 | lists of equal length are cut into the same number of slices of matching lengths |
| Batching.FailedBelow | Backend/ingested_master.py:146-152 | the logged batches are exactly those below the count whose call failed |
| Decimal.ParseNatToString | Backend/main.py:311 | parsing the decimal rendering of i gives back i |
| Decimal.IndexedIdsDistinct | ingested_master.py:98 | ids that share a prefix and differ in index are different |
| ChromaIngest.RepairsWellFormed | ingested_master.py:38-47 | the nine-entry map is well formed for the cleaner lemmas |
| ChromaIngest.CleanAndRepairText | ingested_master.py:34-54 | empty in, empty out; no key of the nine-entry map remains; no leading, trailing or adjacent whitespace |
| ChromaIngest.CleanAndRepairTextIdempotent | ingested_master.py:34-54 | cleaning twice equals cleaning once |
| ChromaIngest.ExtractText | ingested_master.py:63-71 | the page loop's text has no key of the map, and is empty exactly when no page has text |
| ChromaIngest.ChunkIdIndex | ingested_master.py:98 | the id is the basename, "_chunk_" and a decimal that parses back to the index |
| ChromaIngest.ChunkIdsDistinct | ingested_master.py:98 | different indices give different ids |
| ChromaIngest.PrepareRecords | ingested_master.py:86-98 | the three lists have the length of the chunks; entry i is the chunk, its metadata with chunk_index i, and its id |
| ChromaIngest.PreparedIdsDistinct | ingested_master.py:98 | the prepared ids are pairwise distinct |
| ChromaIngest.AddBatches | ingested_master.py:101-118 | the three lists are cut at the same bounds into batches of 10; every batch is attempted; the failed ones are exactly those whose call raised |
| ChromaIngest.AlignedBatch | ingested_master.py:104-107 | batch k of each list is that list's slice [k*10, min(k*10+10, n)) |
| ChromaIngest.BatchesLeft | ingested_master.py:104 | a batch k exists exactly when k*10 is below the length |
| ChromaIngest.IngestChunks | ingested_master.py:86-118 | the documents of the batches, concatenated, are the chunks; each batch carries its chunks' metadata and ids; failures do not stop later batches |
| ChromaMain.EmbedTextWithRetry | main.py:66-86 | the live definition's run and result are the retry specification: 5 attempts, back-off 10 * 2 ** attempt, rate limit = "429" or "ResourceExhausted", HTTP 429 "Google API is too busy. Please wait 2 minutes." |
| ChromaMain.GenerateWithRetry | main.py:90-106 | the same schedule, with HTTP 429 "AI Overloaded. Try again later." |
| ChromaMain.RetryPolicy | main.py:67-106 | at most 5 attempts; sleeps are a prefix of 10, 20, 40, 80, 160; the 429 exactly when all five are rate limits, and then all five sleeps happen; a re-raised error is not a rate limit |
| ChromaMain.CleanTextChain | main.py:111-114 | the three replacements in sequence equal a per-character map |
| ChromaMain.CleanTextPerChar | main.py:109-115 | '→' and private-use characters become "->", '⇒' becomes "=>", everything else (whitespace included) is kept in order |
| ChromaMain.CleanTextClean | main.py:109-115 | the result has no '→', '⇒' or private-use character |
| ChromaMain.CleanTextIdempotent | main.py:109-115 | cleaning twice equals cleaning once |
| ChromaMain.JoinChars | main.py:138 | every character of the joined text comes from the separator or from a part |
| ChromaMain.RetrievedShape | main.py:132-139 | no documents give "No relevant notes found." and no sources; otherwise the context consists of cleaned chunk characters and newlines, and the sources are the first metadata list; a missing metadata list is an error |
| ChromaMain.ChatBody | main.py:122-180 | the endpoint's steps compute the reply specification: the embedding's error, then a failing query's error, then the IndexError of a missing metadata list, then the generation's error, else the cleaned answer with the sources |
| Retry.HandleAsWrittenOnly500 | main.py:182-184 | as written, every error leaves the handler as HTTP 500 |
| ChromaMain.BusyBecomes500 | main.py:182-184 | as written, five rate limits on the embedding reach the client as 500 with detail "429: Google API is too busy. Please wait 2 minutes." |
| Retry.HandleShape | main.py:182-184 | corrected: success passes through and every error leaves as an HTTP error; a 500 comes out only for a plain error or an HTTP 500, so a 429 reaches the client unchanged; a plain error's text becomes the detail; handling twice is handling once |
| ChromaMain.ChatEndpoint | main.py:119-184 | the endpoint's result is the corrected handler applied to the reply specification |
| ChromaMain.ChatEndpointOutcomes | main.py:119-184 | with the corrected handler: five embedding rate limits, and only they, give the embedding 429; after a successful embedding, a failing query gives 500 with its text and a missing metadata list gives 500 "list index out of range"; a successful answer is clean; rate limits on all five generation attempts give the generation 429 |
| ApiClient.RequestConfig.OnError | Frontend/src/services/api.js:29-53 | only a 429 is retried; the counter defaults to 0, is raised by one before each retry, and a retry happens only below 3 with delay 2 ** count * 1000; anything else is rejected and the config is unchanged |
| ApiClient.Send | Frontend/src/services/api.js:27-53 | re-sending the same config follows the request's life specification, and the config's counter ends raised by one per retry |
| ApiClient.LifecycleBounds | Frontend/src/services/api.js:37-48 | from a counter c ≤ 3: at most 4 - c attempts, and one delay 2 ** (c+1+i) * 1000 before each attempt after the first |
| ApiClient.RequestPolicy | Frontend/src/services/api.js:27-53 | 1 to 4 attempts; delays are a prefix of 2000, 4000, 8000; a first success passes through; a non-429 error (with or without a response) is rejected at once |
| ApiClient.FourthRateLimitRejected | Frontend/src/services/api.js:40-52 | four 429s: three retries after 2, 4 and 8 seconds, then rejection |
| ApiClient.ExhaustedConfigRejects | Frontend/src/services/api.js:37-52 | a config already retried three times is rejected on its next 429 without waiting |
| JsText.TrimEmptyIff | Front/Frontend/src/pages/ChatInterface.jsx:83 | trim gives "" exactly when the text is all whitespace |
| JsText.Utf16LengthOfBmp | Front/Frontend/src/pages/Register.jsx:37 | `.length` is the character count when no character lies beyond U+FFFF |
| JsText.EmailLikeUnanchored | Front/Frontend/src/pages/Register.jsx:51 | the test is unanchored: text around a match keeps it a match |
| JsText.EmailNeedsAt | Front/Frontend/src/pages/Register.jsx:51 | text without '@' fails the test |
| JsText.EmailShortest | Front/Frontend/src/pages/Register.jsx:51 | "a@b.c" passes |
| JsText.EmailSpaceAfterAt | Front/Frontend/src/pages/Register.jsx:51 | "a@ b.c" fails |
| Forms.EmailError | Front/Frontend/src/pages/Register.jsx:50-51 | no error exactly when the test passes; "Email is required" exactly for empty; "Email is invalid" exactly for non-empty failing |
| Forms.ClearError | Front/Frontend/src/pages/Register.jsx:26-31 | the changed field's error is no longer shown; every other entry and the key set stay |
| RegisterPage.ValidatePasswordFirstFailing | Front/Frontend/src/pages/Register.jsx:35-43 | null exactly for a strong password; each message exactly when its rule is the first to fail, in the order length, upper, lower, digit, special |
| RegisterPage.StrongNotEmpty | Front/Frontend/src/pages/Register.jsx:37 | a password passing the rules is not empty |
| RegisterPage.CollectErrors | Front/Frontend/src/pages/Register.jsx:48-61 | the field-by-field checks build the error map specification |
| RegisterPage.RegistrationErrorsShape | Front/Frontend/src/pages/Register.jsx:48-66 | no errors exactly for a set name, a passing email, a strong password and a matching confirmation; an empty password is only "required"; a mismatch is always reported |
| RegisterPage.Register.HandleChange | Front/Frontend/src/pages/Register.jsx:20-33 | only the named field changes, only its error is blanked, authError is cleared |
| RegisterPage.Register.HandleSubmit | Front/Frontend/src/pages/Register.jsx:45-78 | with errors: the map replaces the errors and nothing else happens; without: one signup with loading true, then /chat or the fixed message, and loading false |
| RegisterPage.Register.HandleGuestLogin | Front/Frontend/src/pages/Register.jsx:80-91 | one guest call with loading true; /chat or the fixed message; loading false |
| LoginPage.CollectErrors | Front/Frontend/src/pages/Login.jsx:64-78 | the checks build the error map specification |
| LoginPage.LoginErrorsShape | Front/Frontend/src/pages/Login.jsx:64-83 | no errors exactly for a passing email and a non-empty password; no other password rule |
| LoginPage.Login.HandleChange | Front/Frontend/src/pages/Login.jsx:19-33 | only the named field changes, only its error is blanked, authError is cleared |
| LoginPage.Login.RunProvider | Front/Frontend/src/pages/Login.jsx:35-46 | a provider call runs with loading true; success goes to /chat, failure shows the given message; loading ends false |
| LoginPage.Login.HandleGoogleSignIn | Front/Frontend/src/pages/Login.jsx:35-46 | one Google call; /chat or 'Failed to sign in with Google'; loading false |
| LoginPage.Login.HandleGuestLogin | Front/Frontend/src/pages/Login.jsx:48-59 | one guest call; /chat or the fixed message; loading false |
| LoginPage.Login.HandleSubmit | Front/Frontend/src/pages/Login.jsx:61-97 | login only with no errors, with loading true; every failure gives the same message; loading false afterwards |
| MockLoginPage.CollectErrors | src/pages/Login.jsx:32-44 | the checks build the error map specification |
| MockLoginPage.MockLoginErrorsShape | src/pages/Login.jsx:32-44 | no errors exactly for a passing email and a password of at least 6; "required" for empty, "at least 6 characters" for short |
| MockLoginPage.MockLogin.HandleChange | src/pages/Login.jsx:15-28 | only the named field changes and only its error is blanked |
| MockLoginPage.MockLogin.HandleSubmit | src/pages/Login.jsx:30-53 | with errors they replace the map; without, navigation to /chat |
| ChatLog.NumberedAppend | Frontend/src/pages/ChatInterface.jsx:63 | appending a message whose id is the new length keeps ids equal to positions + 1 |
| ChatLog.NumberedDistinct | Frontend/src/pages/ChatInterface.jsx:63 | in such a log, ids are distinct |
| ChatLog.BlankIff | Frontend/src/pages/ChatInterface.jsx:60 | a send is ignored exactly when no file is staged and the input is all whitespace |
| ChatFetch.FetchChat.constructor | Front/Frontend/src/pages/ChatInterface.jsx:50-52 | the log starts as the one welcome message with id 1 |
| ChatFetch.FetchChat.SetInput | Front/Frontend/src/pages/ChatInterface.jsx:279 | the text box sets the input only |
| ChatFetch.FetchChat.SendMessage | Front/Frontend/src/pages/ChatInterface.jsx:82-106 | blank: no change; otherwise the user message (captured text, id length + 1) is appended, the input cleared, the file dropped (never sent), typing set, the text posted as the question; a settled log becomes awaiting |
| ChatFetch.FetchChat.Complete | Front/Frontend/src/pages/ChatInterface.jsx:108-133 | exactly one bot message per reply; typing false on every path; an awaiting log becomes settled |
| ChatFetch.FetchChat.NewChat | Front/Frontend/src/pages/ChatInterface.jsx:162-164 | the log is exactly the 'Fresh start' message with id 1 |
| ChatFetch.FetchChat.ClearChat | Front/Frontend/src/pages/ChatInterface.jsx:166 | the log is empty; nothing else changes |
| ChatFetch.FetchChat.ToggleDropdown | Front/Frontend/src/pages/ChatInterface.jsx:216 | the menu flips open or closed; nothing else changes |
| ChatFetch.FetchChat.SelectMode | Front/Frontend/src/pages/ChatInterface.jsx:222 | the mode is set and the menu closed; the log is untouched |
| ChatFetch.FetchChat.PickFile | Front/Frontend/src/pages/ChatInterface.jsx:149-160 | a picked or dropped file replaces the staged one; no file changes nothing |
| ChatFetch.FetchChat.RemoveFile | Front/Frontend/src/pages/ChatInterface.jsx:268 | the remove button unstages the file and changes nothing else; a send is then blank exactly when the input is all whitespace |
| ChatFetch.SendAndReply | Front/Frontend/src/pages/ChatInterface.jsx:82-134 | from a settled page, one send and its reply append the user message and the bot message with consecutive ids, post the question, and leave the page settled with typing off |
| ChatMock.MockChat.constructor | Frontend/src/pages/ChatInterface.jsx:27-37 | the log is 'Happy to help you!' with id 1; three history entries, only the first active |
| ChatMock.MockChat.SetInput | Frontend/src/pages/ChatInterface.jsx:329-330 | the text box sets the input only |
| ChatMock.MockChat.SendMessage | Frontend/src/pages/ChatInterface.jsx:59-75 | blank: no change; otherwise the user message (id length + 1) is appended, the input cleared, the file dropped, typing set, a timer started |
| ChatMock.MockChat.TimerFires | Frontend/src/pages/ChatInterface.jsx:75-84 | exactly one canned reply with id (length seen) + 2; typing false; an awaiting log becomes settled |
| ChatMock.MockChat.NewChat | Frontend/src/pages/ChatInterface.jsx:113-118 | the log is the greeting with id 1; no history entry is active and their other fields are unchanged |
| ChatMock.MockChat.ClearChat | Frontend/src/pages/ChatInterface.jsx:120-122 | the log is empty |
| ChatMock.MockChat.ToggleDropdown | Frontend/src/pages/ChatInterface.jsx:202 | the menu flips open or closed |
| ChatMock.MockChat.SelectMode | Frontend/src/pages/ChatInterface.jsx:214-224 | the mode is set, the menu closed, and one system notice appended; numbering is kept |
| ChatMock.MockChat.PickFile | Frontend/src/pages/ChatInterface.jsx:94-111 | a picked or dropped file replaces the staged one only when present |
| ChatMock.MockChat.RemoveFile | Frontend/src/pages/ChatInterface.jsx:302-303 | the remove button unstages the file and changes nothing else; a send is then blank exactly when the input is all whitespace |
| ChatMock.ModeSwitchWhileTyping | Frontend/src/pages/ChatInterface.jsx:77 | a mode switch while a reply is pending gives the notice and the reply the same id 3 (the reply's id `messages.length + 2` here against the notice's `prev.length + 1` at line 219) |

## Left out

- The relevance guardrail (`score < 0.35`) of the Pinecone server: the scores are floats. Its chat endpoint's prompt and the generation call are not modelled either; only the source list is.
- Reading PDFs, splitting text, Supabase storage, temporary files and the static-file routes: external libraries and file-system I/O. Pages, chunks and URLs are inputs.
- Real waiting: `time.sleep`, `setTimeout` and the 0.3 s pause per chunk are recorded as delays or not at all.
- Progress and log messages (`print`, `console.error`).
- The first `embed_text_with_retry` in `main.py` (lines 44-61): the second definition replaces it, so it can never run.
- Retry.Str: the detail text of an exception is modelled as Starlette's "<status>: <detail>" rendering of an HTTP error and the message of any other error; the exact `str(e)` of library exceptions is not modelled.
- Timestamps of chat messages: clock values.
- Overlapping sends and out-of-order replies: concurrency. Replies are taken oldest first, and the id invariant is stated for one send and its reply at a time. ChatMock.ModeSwitchWhileTyping shows one consequence of ids taken from a stale length.
- The chat pages' logout, key-press handler, sidebar and scrolling; the fetch page's single history entry, which no handler changes: presentational.
- Authentication (Firebase, AuthContext) and the axios request interceptor: each provider call either succeeds or throws, given as a parameter.
- JSX markup, the components, the routers and the animated background.
- Metadata values other than strings and numbers: the sources of the chat page are name and URL pairs.
- The upload endpoint's `finally` clause that deletes the temporary file.

## Findings

| source | as written | input that shows it | evidently intended | confidence | as-written member | corrected member |
|---|---|---|---|---|---|---|
| Backend/main.py:341 | `x_admin_secret != ADMIN_SECRET` admits a request when both are `None` | ADMIN_SECRET unset and no X-Admin-Secret header: the guard passes, the topic "math" is deleted and the full wipe runs | an unset secret locks the admin endpoints | not executed | BackendMain.UnsetSecretDeletesTopic | BackendMain.UnsetSecretLocksAdmin |
| main.py:182-184 | `except Exception` also catches the HTTPException 429 raised by the retry helpers and re-raises it as 500 | five rate limits on the embedding call: the client gets 500 "429: Google API is too busy. Please wait 2 minutes." | the 429 reaches the client as a 429 | not executed | ChromaMain.BusyBecomes500 | ChromaMain.ChatEndpointOutcomes |
| Backend/main.py:329-331 | the upload's `except Exception` also catches the HTTPException 429 raised by `embed_text_with_retry` and re-raises it as 500 | three rate limits on the first chunk's embedding: the client gets 500 "429: Google API Busy" | the 429 reaches the client as a 429 | not executed | BackendMain.UploadBusyBecomes500 | BackendMain.UploadEndpoint |
