# artifact-specs core, modelled in Dafny

This project models the core of `aspec`, a command-line tool that extracts
structured JSON from text according to a JSON-schema "spec". Before extraction,
a long input is cut into chunks that fit a token budget. Each chunk goes to a
completion provider, and the partial results are merged by one of three
strategies. A provider answer is checked against the spec's schema; when it is
rejected, a bounded repair loop asks again. Specs are kept in a local cache
directory, one JSON file per spec. The spec manager lists them and resolves
the identifier a user types to a single spec.

Modules, one per file:

- `Wrappers` (wrappers.dfy): `Option` and `Result`. A `Result` error is the
  text of Go's error value.
- `Text` (text.dfy): the string operations the code uses. It covers Go's
  `unicode.IsSpace`, `strings.TrimSpace`, `Contains`, `Index`, `Split` and
  `Join`, and ASCII `ToLower`. It has `fmt.Sprintf` with `%s`/`%d` verbs,
  given as the literal pieces around the verbs, and Go's byte-wise string
  order `<`.
- `Filtering` (filter.dfy): the order-preserving `append`-if loop shared by
  the cache search and the manager.
- `Completion` (completion.dfy): the provider. Its behaviour is a fixed oracle
  from (call number, request) to an answer or an error. A `Provider` object
  logs every call made to it.
- `SpecTypes` (spectypes.dfy): the `Spec` record and the two spec types.
- `Tokenizer` (tokenizer.dfy): the token estimate, `ChunkText`,
  `findOptimalChunk`, `tryBoundary`, `forceSplit`, `ValidateBoundary` and
  `GetEstimatedChunkCount`.
- `Merger` (merger.dfy): the three prompt builders and `ProcessChunks` with
  its incremental, two-pass and template-driven strategies.
- `Validation` (validation.dfy): `Validate`, `FormatErrors`,
  `createRepairPrompt` and `ValidateAndRetry`.
- `SpecCache` (speccache.dfy): the cache directory with `SaveSpec`,
  `LoadSpec`, `ListSpecs` and `SearchSpecs`.
- `SpecManager` (specmanager.dfy): `ListSpecs`, `GetSpec` and `getSpeSlugs`.

Each operation that changes state or loops in Go is a Dafny method. These
include the merger's and the validator's calls to the provider, the cache's
writes, and the chunking, search and slug loops. Each such method is proved to
equal a specification function: a "run" (the calls made, in order, and the
outcome) or a pure value. The promises of the source are then proved as
lemmas about those functions.

## Model

| member | source | states |
|---|---|---|
| Tokenizer.CountTokens | cli/internal/chunking/tokenizer.go:23-33 | The estimate is 0 exactly for text shorter than four runes. |
| Tokenizer.FitsIffWithinRuneBudget | cli/internal/chunking/tokenizer.go:23-33 | A text's estimate is within a budget exactly when its rune count is within `RuneBudget` of that budget. |
| Tokenizer.CountTokensMonotone | cli/internal/chunking/tokenizer.go:23-33 | A text with no more runes than another never gets a larger estimate. |
| Tokenizer.WithinCharLimitFits | cli/internal/chunking/tokenizer.go:152 | Text no longer than `forceSplit`'s character limit (maxTokens × 4 × 0.8, truncated) is within the budget. |
| Tokenizer.BoundarySplitSpec | cli/internal/chunking/tokenizer.go:112-147 | No delimiter, or a first piece over budget, gives ("", text). Otherwise the chunk is within budget and is the whole text, or is followed by the delimiter and the remainder (`chunk ++ delimiter ++ rest == text`). Adding the next piece would go over budget. |
| Tokenizer.TryBoundary | cli/internal/chunking/tokenizer.go:112-147 | The accumulation loop returns exactly `BoundarySplit`. |
| Tokenizer.Candidates | cli/internal/chunking/tokenizer.go:85-94 | One candidate split per delimiter, in the order of the eight delimiters. |
| Tokenizer.LongestIsLongest | cli/internal/chunking/tokenizer.go:96-108 | The pick is ("", text) exactly when no delimiter yields a chunk. Otherwise it is a candidate no other candidate beats in length, and every earlier candidate is strictly shorter (ties go to the coarser delimiter). |
| Tokenizer.FindOptimalChunk | cli/internal/chunking/tokenizer.go:79-109 | The loop over delimiters returns exactly `OptimalSplit`, which is the whole text when it fits. |
| Tokenizer.LastBreak | cli/internal/chunking/tokenizer.go:159-165 | The backward scan finds the last space, newline or tab at an index in 1..cut, or 0 when there is none. |
| Tokenizer.ForcedSplitSpec | cli/internal/chunking/tokenizer.go:150-172 | Text within the limit gives (text, ""). Otherwise the chunk is a prefix of at most the limit. It ends just before the last break at an index in 1..limit, or exactly at the limit when there is none. The rest is the trimmed suffix. |
| Tokenizer.ForceSplit | cli/internal/chunking/tokenizer.go:150-172 | The scanning method returns exactly `ForcedSplit`. |
| Tokenizer.ForcedChunkPrefix | cli/internal/chunking/tokenizer.go:159-171 | Past a positive limit, the forced chunk is a non-empty prefix no longer than the limit. |
| Tokenizer.OverBudgetExceedsCharLimit | cli/internal/chunking/tokenizer.go:152 | Over-budget text is longer than the character limit, so a forced split always cuts. |
| Tokenizer.OptimalStepSound | cli/internal/chunking/tokenizer.go:61 | A delimiter chunk of over-budget text is within budget. The text is chunk, delimiter (or nothing) and a strictly shorter remainder. |
| Tokenizer.ForcedStepSound | cli/internal/chunking/tokenizer.go:62-65 | With a budget of at least one token, a forced chunk is non-empty and within budget. Only white space is lost around it, and the remainder is shorter. |
| Tokenizer.ChunkStepSound | cli/internal/chunking/tokenizer.go:61-67 | One loop step on over-budget text, at any budget, yields a chunk within budget and a remainder no longer than the text; only a delimiter or white space is lost. The remainder is strictly shorter unless the step returns an empty chunk and the text unchanged. With a budget of at least one the chunk is never empty and the remainder always shorter. |
| Tokenizer.StallNeedsZeroBudget | cli/internal/chunking/tokenizer.go:59-68 | A remainder on which the loop makes no progress (non-empty, over budget, and the step gives back "" and the same remainder) exists only when the budget is 0. |
| Tokenizer.NextChunk | cli/internal/chunking/tokenizer.go:61-65 | The loop body returns exactly `ChunkStep`, the optimal chunk with the forced split as fallback. |
| Tokenizer.ChunkText | cli/internal/chunking/tokenizer.go:50-76 | Text within budget comes back as exactly `[text]`. Otherwise every chunk is within budget, and the chunks, in order and separated only by delimiters or white space, make up the text. With a budget of at least one the call always succeeds, with at least one chunk, each non-empty. It fails only on a remainder, taken from the text, where the loop makes no progress (see Findings). |
| Tokenizer.ChunkLoop | cli/internal/chunking/tokenizer.go:56-75 | The loop terminates, at any budget. On success every chunk is within budget (and non-empty with a positive budget) and the chunks reassemble the text. It fails only at a stalled remainder, which a positive budget never reaches. |
| Tokenizer.LastPieceKept | cli/internal/chunking/tokenizer.go:70-73 | A remainder that is not blank is appended untrimmed as the last chunk, and the chunks still reassemble the text. |
| Tokenizer.LastPieceDropped | cli/internal/chunking/tokenizer.go:70-73 | A blank remainder is dropped without losing anything but white space. |
| Tokenizer.ZeroBudgetStalls | cli/internal/chunking/tokenizer.go:59-68 | As written: with budget 0, a text of four or more runes and no white space is a stalled remainder. It is over budget, and a loop step returns ("", text) unchanged, so the loop never ends. |
| Tokenizer.EstimatedChunkCount | cli/internal/chunking/tokenizer.go:182-187 | 1 when the text fits (empty text included). Otherwise r is the least r with r × maxTokens ≥ the estimate, i.e. the ceiling. |
| Tokenizer.ValidateBoundary | cli/internal/chunking/tokenizer.go:175-179 | An accepted delimiter occurs in the text and the text has at least 30 runes; the empty delimiter is never accepted. |
| Merger.ExtractionPromptEmbeds | cli/internal/chunking/merger.go:313-338 | The extraction prompt embeds the chunk, the whole schema, and the title (the slug when the title is empty). |
| Merger.MergePromptEmbeds | cli/internal/chunking/merger.go:341-376 | The merge prompt embeds the previous JSON, the chunk, the whole schema and the title or slug. It holds the configured instructions, or the default merge instructions verbatim when none are configured. |
| Merger.ResultBlocksInOrder | cli/internal/chunking/merger.go:389-392 | The result blocks are "Result 1".."Result n" in order: block i+1 with the i-th JSON follows the blocks before it. |
| Merger.ConsolidationPromptEmbeds | cli/internal/chunking/merger.go:379-407 | The consolidation prompt embeds every result in its labelled block, the whole schema, and the configured or default consolidation instructions. |
| Merger.JsonOf | cli/internal/chunking/merger.go:280-283 | The JSON handed to consolidation is each result's JSON, in order. |
| Merger.ProcessDispatch | cli/internal/chunking/merger.go:61-81 | No chunks: the error "no chunks to process" and no call. One chunk: exactly one extraction call, whatever the strategy, succeeding exactly when it is answered. Two or more chunks with an unknown strategy: an error naming it, and no call. |
| Merger.IncrementalChain | cli/internal/chunking/merger.go:97-124 | Incremental merging of n ≥ 2 chunks makes 1..n calls. Call 0 extracts chunk 0, and call i merges chunk i into the answer to call i−1, which was answered. |
| Merger.IncrementalSuccess | cli/internal/chunking/merger.go:107-130 | It succeeds exactly when all n calls were made and the last was answered. The result is that answer with index n−1. |
| Merger.IncrementalFailure | cli/internal/chunking/merger.go:97-117 | A failure stops at the failed call. Its error is wrapped as "failed to process first chunk: extraction failed: …" or "failed to merge chunk i: merge failed: …". |
| Merger.ExtractAllCalls | cli/internal/chunking/merger.go:146-164 | Phase 1 makes at most one call per chunk, call j extracting chunk j, and stops at the first error, wrapped with the chunk index. |
| Merger.ExtractAllSuccess | cli/internal/chunking/merger.go:146-164 | Phase 1 succeeds exactly when every chunk's call is answered. Result j then holds chunk j and the answer to call j. |
| Merger.ExtractAllJson | cli/internal/chunking/merger.go:280-285 | The JSON consolidated after phase 1 is the answers to its calls, in order. |
| Merger.TwoPassCalls | cli/internal/chunking/merger.go:134-226 | Two-pass and template-driven merging of n ≥ 2 chunks make at most n+1 calls: the extractions in index order, then one consolidation of the extracted JSON. |
| Merger.TwoPassOutcome | cli/internal/chunking/merger.go:134-310 | They succeed exactly when all n+1 calls were made and the consolidation was answered. The result has index −1 and content "consolidated". A failure has at most n+1 calls and the last call failed. If it is call k ≤ n, the error is "failed to process chunk k−1: extraction failed: " plus the provider's error. If it is call n+1, the error is "consolidation failed: " plus the provider's error. |
| Merger.EveryCallBuilt | cli/internal/chunking/merger.go:229-303 | Every call of every strategy forces JSON and carries a prompt one of the three builders made. |
| Merger.EveryCallCarriesSchema | cli/internal/chunking/merger.go:313-407 | With the builders of merger.go, every call forces JSON and its prompt embeds the whole schema. |
| Merger.Merger.constructor | cli/internal/chunking/merger.go:50-58 | A merger holds the spec, the client, the options and the wording of merger.go. |
| Merger.Merger.ProcessChunks | cli/internal/chunking/merger.go:61-81 | The provider log grows by exactly the calls of `ProcessRun`, and the result is its outcome. |
| Merger.Merger.ProcessIncremental | cli/internal/chunking/merger.go:84-131 | It makes exactly the calls of `IncrementalRun` and returns its outcome. |
| Merger.Merger.MergeRemaining | cli/internal/chunking/merger.go:107-130 | The merge loop makes exactly the calls of `MergeFrom` from chunk 1 and returns its outcome. |
| Merger.Merger.ExtractAll | cli/internal/chunking/merger.go:145-164 | The extraction loop makes exactly the calls of `ExtractFrom` and returns its outcome. |
| Merger.Merger.ProcessTwoPass | cli/internal/chunking/merger.go:134-182 | It makes exactly the calls of `TwoPassRun` and returns its outcome. |
| Merger.Merger.ProcessTemplateDriven | cli/internal/chunking/merger.go:185-226 | The same calls and outcome as two-pass (`TwoPassRun`). |
| Merger.Merger.ProcessSingleChunk | cli/internal/chunking/merger.go:229-249 | One extraction call with JSON forced. The answer becomes the chunk's result; an error is wrapped "extraction failed: ". |
| Merger.Merger.MergeWithPrevious | cli/internal/chunking/merger.go:252-272 | One merge call with JSON forced. The answer becomes the chunk's result; an error is wrapped "merge failed: ". |
| Merger.Merger.MergeAllResults | cli/internal/chunking/merger.go:275-303 | A single result comes back with no call. Otherwise there is one consolidation call, following `ConsolidateRun`. |
| Merger.Merger.MergeByTemplate | cli/internal/chunking/merger.go:306-310 | Exactly what `mergeAllResults` does. |
| Merger.Merger.CreateConsolidationPrompt | cli/internal/chunking/merger.go:379-407 | The block-appending loop builds exactly `ConsolidationPrompt`. |
| Completion.Provider.Complete | cli/internal/validate/validator.go:153-156 | A call is logged and answered as the oracle says for its position in the log. |
| Validation.ValidateReport | cli/internal/validate/validator.go:42-75 | A payload is valid exactly when it parses and conforms, and exactly then has no findings. Otherwise there is exactly one finding at "root": "Invalid JSON: " plus the decoder's error, or "Validation failed". |
| Validation.FormatLines | cli/internal/validate/validator.go:141-148 | One line per finding, in order. |
| Validation.FormatErrorsLines | cli/internal/validate/validator.go:136-151 | For an invalid report with at least one finding, where no path or message contains a line break, the text reads back as the header "Validation errors:\n" followed by one line per finding, in order. Each line is indented by two spaces, with the path shown exactly when it is neither empty nor "root". |
| Validation.ValidateThenFormat | cli/internal/validate/validator.go:136-151 | A valid payload formats as "No validation errors". A rejected one formats as the header and "  Invalid JSON: …" or "  Validation failed". |
| Validation.RepairLines | cli/internal/validate/validator.go:115-118 | One "- path: message" line per finding, in order. |
| Validation.RepairPromptEmbeds | cli/internal/validate/validator.go:114-134 | A repair prompt holds the original prompt, the rejected payload and every finding's line. |
| Validation.RetryCalls | cli/internal/validate/validator.go:77-109 | At most maxRetries+1 calls (one when maxRetries ≤ 0). Call 0 sends the original prompt. Call j is the repair prompt for the payload rejected at call j−1. |
| Validation.RetryValid | cli/internal/validate/validator.go:87-108 | There is no error exactly when the last call got a valid payload; that payload and its report come back. The loop stops at the first valid repair. |
| Validation.RetryFirstValid | cli/internal/validate/validator.go:79-89 | A valid first answer: exactly one call, and its data and a valid report with no error. |
| Validation.RetryInitialFailure | cli/internal/validate/validator.go:79-82 | A provider error on the first call gives (nil, nil, "initial completion failed: …") after that one call. |
| Validation.RetryAttemptFailure | cli/internal/validate/validator.go:98-101 | A provider error on repair k gives no data, the report of the payload being repaired, and "retry attempt k failed: …", with no further call. |
| Validation.RetryExhausted | cli/internal/validate/validator.go:92-111 | A last call with a rejected payload means every attempt was used: maxRetries+1 calls. The last payload and its report come back with "validation failed after k retries". |
| Validation.RetryNeverValid | cli/internal/validate/validator.go:92-111 | A provider that always answers invalidly gets exactly k+1 calls for maxRetries = k ≥ 0, and the last payload is returned with the error. |
| Validation.RetryPromptsCarryInput | cli/internal/validate/validator.go:96 | Every repair prompt embeds the original prompt, never an earlier repair prompt, and the payload the call before it got back. |
| Validation.ValidateAndRetry | cli/internal/validate/validator.go:77-112 | The provider log grows by exactly the calls of `RetryRun`, and the returned data, report and error are its outcome. |
| Validation.RepairLoop | cli/internal/validate/validator.go:92-111 | The retry loop makes exactly the calls of `RetryFrom` and returns its outcome. |
| SpecCache.FileNameMatches | cli/internal/specs/cache.go:44-88 | A saved file's name matches the listing glob of its own type and gives back its slug. |
| SpecCache.FileNameInjective | cli/internal/specs/cache.go:44-88 | For the two spec types, a file name determines type and slug, and it matches only its own type's glob. |
| SpecCache.LoadOutcome | cli/internal/specs/cache.go:50-80 | Loading succeeds exactly for a stored file, with its spec. A missing file gives "spec <slug> not found in cache". A read error gives "failed to read cached spec: …" and a decode error "failed to unmarshal cached spec: …". |
| SpecCache.Listing | cli/internal/specs/cache.go:87-88 | The glob lists exactly the existing files of the type, in ascending name order. |
| SpecCache.ListedMembers | cli/internal/specs/cache.go:93-108 | A spec is listed exactly when some file of the type holds it; unreadable and undecodable files are skipped instead of failing the listing. |
| SpecCache.ReadableNone | cli/internal/specs/cache.go:94-103 | A listing whose files all fail to read or decode is empty, not an error. |
| SpecCache.ReadAll | cli/internal/specs/cache.go:93-106 | The reading loop returns exactly the decoded specs of the globbed files, in order. |
| SpecCache.SearchMembers | cli/internal/specs/cache.go:130-138 | A non-empty search keeps exactly the specs whose lower-cased slug or title contains the lower-cased term. |
| SpecCache.SearchShrinks | cli/internal/specs/cache.go:126-138 | The empty search returns the specs unchanged. Any search keeps a subsequence of the listing: its elements at strictly increasing positions, in the listing's order, so never more specs than the listing has. |
| SpecCache.SearchIgnoresCase | cli/internal/specs/cache.go:130 | Lower-casing the term does not change the result. |
| SpecCache.Cache.constructor | cli/internal/specs/cache.go:19-26 | A cache over a directory's files. |
| SpecCache.Cache.SaveSpec | cli/internal/specs/cache.go:32-48 | The spec is stamped with the given time and stored under `<type>_<slug>.json`; no other file changes. |
| SpecCache.Cache.LoadSpec | cli/internal/specs/cache.go:50-80 | Returns exactly `Load` of the files. |
| SpecCache.Cache.ListSpecs | cli/internal/specs/cache.go:82-109 | Returns exactly the readable specs of the globbed files, in file-name order. |
| SpecCache.Cache.SearchSpecs | cli/internal/specs/cache.go:111-146 | Returns exactly the search filter of the listing, order preserved. |
| SpecCache.SaveThenLoad | cli/internal/specs/cache.go:44-51 | A saved spec loads back, stamped, by its type and slug. |
| SpecCache.SaveKeepsOthers | cli/internal/specs/cache.go:44-51 | Saving a spec leaves every other (type, slug) loading as before. |
| SpecCache.SaveThenList | cli/internal/specs/cache.go:44-105 | A saved spec is listed under its type. |
| SpecManager.SlugsOf | cli/internal/specs/manager.go:144-150 | The slugs of the specs, one per spec, in order. |
| SpecManager.GetSpeSlugs | cli/internal/specs/manager.go:144-150 | The slug-collecting loop returns exactly `SlugsOf`. |
| SpecManager.ListTextShows | cli/internal/specs/manager.go:125-133 | Every slug appears in the `%v` text of the slug list. |
| SpecManager.GetCacheHit | cli/internal/specs/manager.go:87-90 | A spec stored under (type, identifier) is returned as is, without a search. |
| SpecManager.PickNone | cli/internal/specs/manager.go:98-100 | No search result: "no specs found matching '<identifier>'". |
| SpecManager.PickSingle | cli/internal/specs/manager.go:102-104 | A single search result is returned, even one matched by title only. |
| SpecManager.PickExactUnique | cli/internal/specs/manager.go:107-122 | Among several results, the only one whose slug equals the identifier, ignoring case, is returned. |
| SpecManager.PickExactAmbiguous | cli/internal/specs/manager.go:124-126 | Two exact slugs are an error "multiple exact matches for '…': […]" listing both. |
| SpecManager.PickPartialUnique | cli/internal/specs/manager.go:128-131 | With no exact slug, the only slug containing the identifier is returned. |
| SpecManager.PickUndecided | cli/internal/specs/manager.go:133 | Otherwise: "multiple matches for '…': […]", listing every result's slug. |
| SpecManager.PickChoosesResult | cli/internal/specs/manager.go:98-133 | Whatever is picked is a result. It is the only result, the only exact slug, or (with no exact slug) the only partial one. |
| SpecManager.CollectMatches | cli/internal/specs/manager.go:107-118 | The loop splits the results into exact and partial slug matches, each in order. |
| SpecManager.Insert | cli/internal/specs/manager.go:77-80 | Insertion adds exactly the one spec. |
| SpecManager.InsertSorted | cli/internal/specs/manager.go:77-80 | Insertion keeps slug order. |
| SpecManager.SortBySlug | cli/internal/specs/manager.go:77-80 | A permutation of its input, sorted ascending by slug. |
| SpecManager.Manager.constructor | cli/internal/specs/manager.go:16-30 | A manager over a cache. |
| SpecManager.Manager.ListSpecs | cli/internal/specs/manager.go:62-83 | A permutation of the cache's search result, sorted ascending by slug. |
| SpecManager.Manager.GetSpec | cli/internal/specs/manager.go:85-134 | Returns exactly `Get`: the cache hit, else the choice among the search results described by the `Pick` lemmas. |

## Left out

- Text is a sequence of runes. Go measures and cuts chunks in bytes: `len(chunk) > len(bestChunk)` in `findOptimalChunk`, `len(text)`, `text[cutPoint]` and `text[:cutPoint]` in `forceSplit`, and `len(text)/10` in `ValidateBoundary`. Here all of them count runes; the two agree for ASCII text. The token estimate counts runes in Go as well.
- Tokenizer.CountTokens: the float arithmetic (`/ 4.0`, `* 1.1`, `* 0.8`) is taken as exact rational arithmetic truncated to an integer; float rounding at very large counts is not modelled.
- Tokenizer.ChunkText: budgets are natural numbers; a negative `maxTokens`, which Go accepts, is not modelled. Where Go's loop reaches a remainder on which a step makes no progress, which happens only with a zero budget, the model returns an error instead of looping forever (see Findings). Other zero-budget inputs are chunked as Go chunks them, and those chunks may be empty strings.
- Tokenizer.EstimatedChunkCount: requires a positive budget unless the text's estimate is 0, because Go divides by zero there.
- `NewTokenCounter` and `NewChunker`: constructors only; the four characters per token and the budget are parameters of every function.
- ToLower is ASCII-only; Go's `strings.ToLower` also folds non-ASCII letters.
- The JSON decoder and the schema library are the two functions of a `Validator` (decoder error, conforms); `NewValidator` and schema compilation errors are not modelled.
- The progress line that `ValidateAndRetry` prints to stdout on each retry (validator.go:93) and all logging calls are left out.
- The provider is an oracle from (call number, request) to an answer; HTTP, streaming, token counts and durations are not modelled, and the response is reduced to its content.
- Merger.ChunkResult: the `Error` field, always nil, is left out; `Stats` is the whole response.
- `MaxRetries` and `ShowStats` of the merge options are carried but never read by the merger.
- Context cancellation (`ctx`) is not modelled.
- The cache directory is a map from file name to what reading and decoding that file yields; `ensureCacheDir`, glob-pattern errors, marshal errors and write errors are left out, as are slugs holding path separators.
- SpecCache.Cache.SaveSpec: `time.Now()` is the parameter `now`. The spec stored is the spec saved: the JSON marshal/unmarshal round trip, which re-indents the schema text, is taken as the identity. Go stamps the caller's spec in place; here the stamped spec is returned.
- SpecManager.SortBySlug: Go calls the library's in-place `sort.Slice`, and this repository has no sorting loop of its own to mirror. The model sorts a sequence by recursive insertion and compares only the outcome: a permutation sorted by slug.
- SpecManager.Manager.ListSpecs: `sort.Slice` is not stable, so only the multiset and the slug order are promised, not the order among equal slugs.
- `NewCache`, `Clear`, `Dir`, `NewManager`'s GitHub client, `UpdateSpecs`, `GetSpecByURL` and `GetSpecByPath` depend on the network or the real filesystem and are not part of this model.

## Findings

| source | as written | input that shows it | evidently intended | confidence | as-written member | corrected member |
|---|---|---|---|---|---|---|
| cli/internal/chunking/tokenizer.go:59-68 | With `maxTokens` 0, over-budget text with no white space makes no progress: every delimiter split is rejected and `forceSplit`'s limit is 0, so the cut falls back to 0 and the chunk is empty and the remainder unchanged | `maxTokens` = 0, text "aaaa" (estimate 1 > 0): the loop appends "" forever | `ChunkText` always terminates. Where a step makes no progress it reports an error; otherwise it returns chunks within budget that reassemble the text, as Go does | not executed | Tokenizer.ZeroBudgetStalls | Tokenizer.ChunkText |
