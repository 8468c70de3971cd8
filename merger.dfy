/**
 * The merge-strategy engine (cli/internal/chunking/merger.go): it extracts
 * structured data from each chunk through the completion provider and
 * combines the partial results by one of three strategies.
 *
 * Each operation is specified by a "run": the calls it makes, in order, and
 * its outcome, as a function of the provider's oracle and of the number of
 * calls made before it. The methods of `Merger` are proved to make exactly
 * those calls and return exactly that outcome.
 */
module Merger {
  import opened Wrappers
  import opened Text
  import opened Completion
  import opened SpecTypes

  /** The three `MergeStrategy` values. */
  const Incremental := "incremental"
  const TwoPass := "two-pass"
  const TemplateDriven := "template-driven"

  /** `MergeOptions`; `MaxRetries` and `ShowStats` are carried but not read by the merger. */
  datatype MergeOptions = MergeOptions(strategy: string, instructions: string, maxRetries: int, showStats: bool)

  /**
   * `ChunkResult`: the index of the chunk (-1 for a consolidation), the text
   * it stands for, the JSON the provider returned and the response itself.
   * The `Error` field is always nil and is not modelled.
   */
  datatype ChunkResult = ChunkResult(chunkIndex: int, content: string, jsonData: string, stats: Response)

  /** The name a prompt calls the specification by: its title, or its slug when the title is empty. */
  function Title(spec: Spec): string {
    if spec.title == [] then spec.slug else spec.title
  }

  /**
   * The fixed text of the three prompts, in the pieces that surround the
   * `%s` verbs of each `fmt.Sprintf` template, and the two default sets of
   * instructions.
   */
  datatype Templates = Templates(extraction: seq<string>, merge: seq<string>, consolidation: seq<string>,
                                 mergeInstructions: string, consolidationInstructions: string)

  /** Templates with one more piece than each prompt has verbs. */
  type Wording = t: Templates | |t.extraction| == 4 && |t.merge| == 6 && |t.consolidation| == 4
    witness Templates(["", "", "", ""], ["", "", "", "", "", ""], ["", "", "", ""], "", "")

  // The wording of merger.go, piece by piece.
  const ExtractionHead: string := "Extract structured data from the following input according to the \""
  const ExtractionInput: string := "\" specification.\n\nInstructions:\n- Extract only information that is explicitly present in this chunk\n- Do not invent or infer information not directly stated\n- Leave fields empty/null if the information is not available in this chunk\n- Follow the JSON schema structure exactly\n- This is part of a larger document, so partial information is expected\n\nInput:\n"
  const ExtractionSchema: string := "\n\nJSON Schema Reference:\n"
  const ExtractionTail: string := "\n\nProvide the extracted data as valid JSON:"
  const MergeHead: string := "You have existing extracted data and a new chunk of text to process. Merge the new information with the existing data according to the \""
  const MergeInstructions: string := "\" specification.\n\n"
  const MergeExisting: string := "\n\nExisting extracted data:\n"
  const MergeChunk: string := "\n\nNew chunk to merge:\n"
  const MergeSchema: string := "\n\nJSON Schema Reference:\n"
  const MergeTail: string := "\n\nProvide the merged result as valid JSON that follows the schema:"
  const ConsolidationHead: string := "Consolidate the following partial extraction results into a single comprehensive result.\n\n"
  const ConsolidationResults: string := "\n\nPartial results to consolidate:\n"
  const ConsolidationSchema: string := "\n\nJSON Schema Reference:\n"
  const ConsolidationTail: string := "\n\nProvide the consolidated result as valid JSON:"
  const DefaultMergeInstructions: string := "Merge the new data with the existing data:\n- Combine arrays by appending new items\n- Update object fields with new information\n- Preserve existing data when not conflicted\n- Use new data to fill in missing fields\n- When data conflicts, prefer the new data"
  const DefaultConsolidationInstructions: string := "Consolidate all the partial results into a single comprehensive result:\n- Merge arrays by combining all items\n- Merge objects by combining all fields\n- Remove duplicates where appropriate\n- Ensure the final result follows the schema structure"

  /** The wording of merger.go. */
  const GoWording: Wording := Templates(
    [ExtractionHead, ExtractionInput, ExtractionSchema, ExtractionTail],
    [MergeHead, MergeInstructions, MergeExisting, MergeChunk, MergeSchema, MergeTail],
    [ConsolidationHead, ConsolidationResults, ConsolidationSchema, ConsolidationTail],
    DefaultMergeInstructions, DefaultConsolidationInstructions)

  /** The instructions a prompt uses: the configured ones, or the default when none are configured. */
  function Instructions(options: MergeOptions, default: string): string {
    if options.instructions == [] then default else options.instructions
  }

  /** `createExtractionPrompt`: the extraction template filled with the spec's name, the chunk and the schema. */
  function ExtractionPrompt(w: Wording, spec: Spec, chunk: string): string {
    Format(w.extraction, [Title(spec), chunk, spec.schema])
  }

  /** An extraction prompt embeds the chunk, the whole schema, and the spec's title, or its slug when the title is empty. */
  lemma ExtractionPromptEmbeds(w: Wording, spec: Spec, chunk: string)
    ensures var r := ExtractionPrompt(w, spec, chunk);
      Contains(r, chunk) && Contains(r, spec.schema)
      && (spec.title != [] ==> Contains(r, spec.title))
      && (spec.title == [] ==> Contains(r, spec.slug))
  {
    var args := [Title(spec), chunk, spec.schema];
    FormatContainsArg(w.extraction, args, 0);
    FormatContainsArg(w.extraction, args, 1);
    FormatContainsArg(w.extraction, args, 2);
  }

  /** `createMergePrompt`: the merge template filled with the spec's name, the instructions, the previous JSON, the chunk and the schema. */
  function MergePrompt(w: Wording, spec: Spec, options: MergeOptions, previousJSON: string, chunk: string): string {
    Format(w.merge, [Title(spec), Instructions(options, w.mergeInstructions), previousJSON, chunk, spec.schema])
  }

  /**
   * A merge prompt embeds the previous JSON, the new chunk and the whole
   * schema, the configured instructions or the default merge instructions
   * verbatim when none are configured, and the spec's title or slug.
   */
  lemma MergePromptEmbeds(w: Wording, spec: Spec, options: MergeOptions, previousJSON: string, chunk: string)
    ensures var r := MergePrompt(w, spec, options, previousJSON, chunk);
      Contains(r, previousJSON) && Contains(r, chunk) && Contains(r, spec.schema)
      && (options.instructions != [] ==> Contains(r, options.instructions))
      && (options.instructions == [] ==> Contains(r, w.mergeInstructions))
      && (spec.title != [] ==> Contains(r, spec.title))
      && (spec.title == [] ==> Contains(r, spec.slug))
  {
    var args := [Title(spec), Instructions(options, w.mergeInstructions), previousJSON, chunk, spec.schema];
    FormatContainsArg(w.merge, args, 0);
    FormatContainsArg(w.merge, args, 1);
    FormatContainsArg(w.merge, args, 2);
    FormatContainsArg(w.merge, args, 3);
    FormatContainsArg(w.merge, args, 4);
  }

  /** The block for the `i`-th result (counting from one) of a consolidation prompt. */
  function ResultBlock(i: nat, json: string): string {
    Format(["Result ", ":\n", "\n\n"], [NatToString(i), json])
  }

  /** The labelled blocks for a list of results: "Result 1" for the first, and so on. */
  function ResultBlocks(jsons: seq<string>): string {
    if jsons == [] then []
    else ResultBlocks(jsons[..|jsons| - 1]) + ResultBlock(|jsons|, jsons[|jsons| - 1])
  }

  /**
   * The blocks come in order: the blocks of the first `i` results, then the
   * block labelled `i + 1` holding result `i`, start the whole list.
   */
  lemma {:induction false} ResultBlocksInOrder(jsons: seq<string>, i: nat)
    requires i < |jsons|
    ensures var head := ResultBlocks(jsons[..i]) + ResultBlock(i + 1, jsons[i]);
      var all := ResultBlocks(jsons);
      |head| <= |all| && all[..|head|] == head
    decreases |jsons|
  {
    var init := jsons[..|jsons| - 1];
    if i == |jsons| - 1 {
      assert jsons[..i] == init;
    } else {
      ResultBlocksInOrder(init, i);
      assert init[..i] == jsons[..i] && init[i] == jsons[i];
      var last := ResultBlock(|jsons|, jsons[|jsons| - 1]);
      var head := ResultBlocks(jsons[..i]) + ResultBlock(i + 1, jsons[i]);
      assert ResultBlocks(jsons) == ResultBlocks(init) + last;
      assert ResultBlocks(jsons)[..|head|] == ResultBlocks(init)[..|head|];
    }
  }

  /** Result `i`'s block occurs in the blocks of the whole list. */
  lemma BlockInBlocks(jsons: seq<string>, i: nat)
    requires i < |jsons|
    ensures Contains(ResultBlocks(jsons), ResultBlock(i + 1, jsons[i]))
  {
    ResultBlocksInOrder(jsons, i);
    ContainsInPrefix(ResultBlocks(jsons), ResultBlocks(jsons[..i]), ResultBlock(i + 1, jsons[i]));
  }

  /** The text `createConsolidationPrompt` builds: the consolidation template filled with the instructions, the result blocks and the schema. */
  function ConsolidationPrompt(w: Wording, spec: Spec, options: MergeOptions, jsons: seq<string>): string {
    Format(w.consolidation, [Instructions(options, w.consolidationInstructions), ResultBlocks(jsons), spec.schema])
  }

  /**
   * A consolidation prompt embeds every partial result in its labelled
   * block, the whole schema, and the configured instructions or the default
   * consolidation instructions when none are configured.
   */
  lemma ConsolidationPromptEmbeds(w: Wording, spec: Spec, options: MergeOptions, jsons: seq<string>)
    ensures var r := ConsolidationPrompt(w, spec, options, jsons);
      Contains(r, ResultBlocks(jsons)) && Contains(r, spec.schema)
      && (forall i :: 0 <= i < |jsons| ==> Contains(r, ResultBlock(i + 1, jsons[i])))
      && (options.instructions != [] ==> Contains(r, options.instructions))
      && (options.instructions == [] ==> Contains(r, w.consolidationInstructions))
  {
    var r := ConsolidationPrompt(w, spec, options, jsons);
    var args := [Instructions(options, w.consolidationInstructions), ResultBlocks(jsons), spec.schema];
    FormatContainsArg(w.consolidation, args, 0);
    FormatContainsArg(w.consolidation, args, 1);
    FormatContainsArg(w.consolidation, args, 2);
    forall i | 0 <= i < |jsons|
      ensures Contains(r, ResultBlock(i + 1, jsons[i]))
    {
      BlockInBlocks(jsons, i);
      ContainsTransitive(r, ResultBlocks(jsons), ResultBlock(i + 1, jsons[i]));
    }
  }

  /** The JSON of each result, in order. */
  function JsonOf(results: seq<ChunkResult>): (jsons: seq<string>)
    ensures |jsons| == |results|
    ensures forall i :: 0 <= i < |results| ==> jsons[i] == results[i].jsonData
  {
    if results == [] then [] else JsonOf(results[..|results| - 1]) + [results[|results| - 1].jsonData]
  }

  /**
   * The three prompt builders of a merger. The runs below are stated for
   * any builders; `PromptsFor` gives the ones merger.go uses.
   */
  datatype Prompts = Prompts(extract: string -> string, merge: (string, string) -> string, consolidate: seq<string> -> string)

  /** `createExtractionPrompt`, `createMergePrompt` and `createConsolidationPrompt` for a wording, a spec and options. */
  function PromptsFor(w: Wording, spec: Spec, options: MergeOptions): Prompts {
    Prompts(chunk => ExtractionPrompt(w, spec, chunk),
            (previousJSON, chunk) => MergePrompt(w, spec, options, previousJSON, chunk),
            jsons => ConsolidationPrompt(w, spec, options, jsons))
  }

  /** Prefixes a failure's message, as `fmt.Errorf("...: %w", err)` does; success passes through. */
  function Wrap<T>(prefix: string, r: Result<T>): Result<T> {
    if r.Failure? then Failure(prefix + r.error) else r
  }

  /** The run of `processSingleChunk`: one extraction call with the given prompt. */
  function SingleChunkRun(reply: Oracle, start: nat, prompt: string, chunk: string, index: int): Run<ChunkResult> {
    var call := Call(prompt, ForceJSON);
    match reply(start, call)
    case Failure(e) => Run([call], Failure("extraction failed: " + e))
    case Success(resp) => Run([call], Success(ChunkResult(index, chunk, resp.content, resp)))
  }

  /** The run of `mergeWithPrevious`: one merge call with the given prompt. */
  function MergeRun(reply: Oracle, start: nat, prompt: string, chunk: string, index: int): Run<ChunkResult> {
    var call := Call(prompt, ForceJSON);
    match reply(start, call)
    case Failure(e) => Run([call], Failure("merge failed: " + e))
    case Success(resp) => Run([call], Success(ChunkResult(index, chunk, resp.content, resp)))
  }

  /**
   * The merge calls of incremental merging from chunk `i` on, folding each
   * chunk into `acc`, the result for chunk `i - 1`: one merge call per
   * chunk, stopping at the first failure with the error wrapped with the
   * index of the chunk.
   */
  function MergeFrom(reply: Oracle, start: nat, p: Prompts, chunks: seq<string>, i: nat, acc: ChunkResult): Run<ChunkResult>
    requires 1 <= i <= |chunks|
    decreases |chunks| - i
  {
    if i == |chunks| then Run([], Success(acc))
    else
      var step := MergeRun(reply, start, p.merge(acc.jsonData, chunks[i]), chunks[i], i);
      if step.outcome.Failure? then Run(step.calls, Failure("failed to merge chunk " + NatToString(i) + ": " + step.outcome.error))
      else
        var rest := MergeFrom(reply, start + 1, p, chunks, i + 1, step.outcome.value);
        Run(step.calls + rest.calls, rest.outcome)
  }

  /** One step of the merges from chunk `i` on: the merge of chunk `i`, then the merges after it when it is answered. */
  lemma MergeFromStep(reply: Oracle, start: nat, p: Prompts, chunks: seq<string>, i: nat, acc: ChunkResult)
    returns (step: Run<ChunkResult>)
    requires 1 <= i < |chunks|
    ensures step == MergeRun(reply, start, p.merge(acc.jsonData, chunks[i]), chunks[i], i)
    ensures |step.calls| == 1
    ensures var run := MergeFrom(reply, start, p, chunks, i, acc);
      if step.outcome.Failure? then run == Run(step.calls, Failure("failed to merge chunk " + NatToString(i) + ": " + step.outcome.error))
      else
        var rest := MergeFrom(reply, start + 1, p, chunks, i + 1, step.outcome.value);
        run == Run(step.calls + rest.calls, rest.outcome)
  {
    step := MergeRun(reply, start, p.merge(acc.jsonData, chunks[i]), chunks[i], i);
  }

  /**
   * One merge of the `processIncremental` loop: the calls logged so far and
   * the merges still to come add up to the same run as before it.
   */
  lemma MergeKeepsTotal(reply: Oracle, p: Prompts, chunks: seq<string>, i: nat, acc: ChunkResult,
                        before: seq<Call>, after: seq<Call>, merged: Result<ChunkResult>)
    requires 1 <= i < |chunks|
    requires var step := MergeRun(reply, |before|, p.merge(acc.jsonData, chunks[i]), chunks[i], i);
      after == before + step.calls && merged == step.outcome
    ensures var run := MergeFrom(reply, |before|, p, chunks, i, acc);
      (merged.Failure? ==>
         after == before + run.calls
         && run.outcome == Failure("failed to merge chunk " + NatToString(i) + ": " + merged.error))
      && (merged.Success? ==>
            var rest := MergeFrom(reply, |after|, p, chunks, i + 1, merged.value);
            after + rest.calls == before + run.calls && rest.outcome == run.outcome)
  {
    var step := MergeFromStep(reply, |before|, p, chunks, i, acc);
    if merged.Success? {
      var rest := MergeFrom(reply, |after|, p, chunks, i + 1, merged.value);
      assert after + rest.calls == before + (step.calls + rest.calls);
    }
  }

  /**
   * The run of `processIncremental`: the extraction of chunk 0, then the
   * merges of the other chunks into it, one by one.
   */
  function IncrementalRun(reply: Oracle, start: nat, p: Prompts, chunks: seq<string>): Run<ChunkResult>
    requires |chunks| >= 1
  {
    var first := SingleChunkRun(reply, start, p.extract(chunks[0]), chunks[0], 0);
    if first.outcome.Failure? then Run(first.calls, Failure("failed to process first chunk: " + first.outcome.error))
    else
      var rest := MergeFrom(reply, start + 1, p, chunks, 1, first.outcome.value);
      Run(first.calls + rest.calls, rest.outcome)
  }

  /**
   * Link `j` of a chain of merge calls whose call 0 is for chunk `from`:
   * call `j - 1` was answered, and call `j` merges chunk `from + j` into
   * that answer.
   */
  ghost predicate Link(reply: Oracle, start: nat, p: Prompts, chunks: seq<string>, from: nat, calls: seq<Call>, j: nat) {
    1 <= j < |calls| && from + j < |chunks| && reply(start + j - 1, calls[j - 1]).Success?
    && calls[j] == Call(p.merge(reply(start + j - 1, calls[j - 1]).value.content, chunks[from + j]), ForceJSON)
  }

  /**
   * The merges from chunk `i` on make at most one call per remaining chunk:
   * the first merges chunk `i` into `acc`, and each later one merges the
   * next chunk into the answer to the call before it.
   */
  lemma {:induction false} MergeFromCalls(reply: Oracle, start: nat, p: Prompts, chunks: seq<string>, i: nat, acc: ChunkResult)
    requires 1 <= i <= |chunks|
    ensures var run := MergeFrom(reply, start, p, chunks, i, acc);
      |run.calls| <= |chunks| - i
      && (|run.calls| >= 1 ==> run.calls[0] == Call(p.merge(acc.jsonData, chunks[i]), ForceJSON))
      && forall j :: 1 <= j < |run.calls| ==> Link(reply, start, p, chunks, i, run.calls, j)
    decreases |chunks| - i
  {
    if i < |chunks| {
      var step := MergeFromStep(reply, start, p, chunks, i, acc);
      if step.outcome.Success? {
        var next := step.outcome.value;
        MergeFromCalls(reply, start + 1, p, chunks, i + 1, next);
        var rest := MergeFrom(reply, start + 1, p, chunks, i + 1, next);
        var run := MergeFrom(reply, start, p, chunks, i, acc);
        assert run.calls == step.calls + rest.calls;
        forall j | 1 <= j < |run.calls|
          ensures Link(reply, start, p, chunks, i, run.calls, j)
        {
          assert run.calls[j] == rest.calls[j - 1];
          if j >= 2 {
            assert Link(reply, start + 1, p, chunks, i + 1, rest.calls, j - 1);
            assert run.calls[j - 1] == rest.calls[j - 2];
          }
        }
      }
    }
  }

  /**
   * The merges from chunk `i` on succeed exactly when there is a call for
   * every remaining chunk and the last is answered; the result is then the
   * last answer, for the last chunk (`acc` itself when no chunk remains).
   */
  lemma {:induction false} MergeFromSuccess(reply: Oracle, start: nat, p: Prompts, chunks: seq<string>, i: nat, acc: ChunkResult)
    requires 1 <= i <= |chunks|
    ensures var run := MergeFrom(reply, start, p, chunks, i, acc);
      var k := |run.calls|;
      k <= |chunks| - i
      && (run.outcome.Success? <==> k == |chunks| - i && (k >= 1 ==> reply(start + k - 1, run.calls[k - 1]).Success?))
      && (run.outcome.Success? && k == 0 ==> run.outcome.value == acc)
      && (run.outcome.Success? && k >= 1 ==>
            var last := reply(start + k - 1, run.calls[k - 1]).value;
            run.outcome.value == ChunkResult(|chunks| - 1, chunks[|chunks| - 1], last.content, last))
    decreases |chunks| - i
  {
    if i < |chunks| {
      var step := MergeFromStep(reply, start, p, chunks, i, acc);
      if step.outcome.Success? {
        var next := step.outcome.value;
        MergeFromSuccess(reply, start + 1, p, chunks, i + 1, next);
        var rest := MergeFrom(reply, start + 1, p, chunks, i + 1, next);
        var run := MergeFrom(reply, start, p, chunks, i, acc);
        assert run.calls == step.calls + rest.calls;
        var k := |run.calls|;
        if k >= 2 {
          assert run.calls[k - 1] == rest.calls[k - 2];
        }
      }
    }
  }

  /** A failure of the merges from chunk `i` on is the last call's error, wrapped with the index of its chunk. */
  lemma {:induction false} MergeFromFailure(reply: Oracle, start: nat, p: Prompts, chunks: seq<string>, i: nat, acc: ChunkResult)
    requires 1 <= i <= |chunks|
    ensures var run := MergeFrom(reply, start, p, chunks, i, acc);
      var k := |run.calls|;
      run.outcome.Failure? ==>
        k >= 1 && reply(start + k - 1, run.calls[k - 1]).Failure?
        && run.outcome.error == "failed to merge chunk " + NatToString(i + k - 1) + ": "
                                + ("merge failed: " + reply(start + k - 1, run.calls[k - 1]).error)
    decreases |chunks| - i
  {
    if i < |chunks| {
      var step := MergeFromStep(reply, start, p, chunks, i, acc);
      if step.outcome.Success? {
        var next := step.outcome.value;
        MergeFromFailure(reply, start + 1, p, chunks, i + 1, next);
        var rest := MergeFrom(reply, start + 1, p, chunks, i + 1, next);
        var run := MergeFrom(reply, start, p, chunks, i, acc);
        assert run.calls == step.calls + rest.calls;
        var k := |run.calls|;
        if k >= 2 {
          assert run.calls[k - 1] == rest.calls[k - 2];
        }
      }
    }
  }

  /**
   * The extraction calls of phase 1 of `processTwoPass` and
   * `processTemplateDriven` from chunk `i` on, appending each result to
   * `acc`: one call per chunk in index order, stopping at the first failure
   * with the error wrapped with the index of the chunk.
   */
  function ExtractFrom(reply: Oracle, start: nat, extract: string -> string, chunks: seq<string>, i: nat, acc: seq<ChunkResult>): Run<seq<ChunkResult>>
    requires i <= |chunks|
    decreases |chunks| - i
  {
    if i == |chunks| then Run([], Success(acc))
    else
      var step := SingleChunkRun(reply, start, extract(chunks[i]), chunks[i], i);
      if step.outcome.Failure? then Run(step.calls, Failure("failed to process chunk " + NatToString(i) + ": " + step.outcome.error))
      else
        var rest := ExtractFrom(reply, start + 1, extract, chunks, i + 1, acc + [step.outcome.value]);
        Run(step.calls + rest.calls, rest.outcome)
  }

  /** One step of the extractions from chunk `i` on: the extraction of chunk `i`, then the ones after it when it is answered. */
  lemma ExtractFromStep(reply: Oracle, start: nat, extract: string -> string, chunks: seq<string>, i: nat, acc: seq<ChunkResult>)
    returns (step: Run<ChunkResult>)
    requires i < |chunks|
    ensures step == SingleChunkRun(reply, start, extract(chunks[i]), chunks[i], i)
    ensures |step.calls| == 1
    ensures var run := ExtractFrom(reply, start, extract, chunks, i, acc);
      if step.outcome.Failure? then run == Run(step.calls, Failure("failed to process chunk " + NatToString(i) + ": " + step.outcome.error))
      else
        var rest := ExtractFrom(reply, start + 1, extract, chunks, i + 1, acc + [step.outcome.value]);
        run == Run(step.calls + rest.calls, rest.outcome)
  {
    step := SingleChunkRun(reply, start, extract(chunks[i]), chunks[i], i);
  }

  /**
   * The extractions from chunk `i` on make at most one call per remaining
   * chunk, call `j` extracting chunk `i + j`, and every call but the last
   * was answered.
   */
  lemma {:induction false} ExtractFromCalls(reply: Oracle, start: nat, extract: string -> string, chunks: seq<string>, i: nat, acc: seq<ChunkResult>)
    requires i <= |chunks|
    ensures var run := ExtractFrom(reply, start, extract, chunks, i, acc);
      |run.calls| <= |chunks| - i
      && (forall j :: 0 <= j < |run.calls| ==> run.calls[j] == Call(extract(chunks[i + j]), ForceJSON))
      && (forall j :: 0 <= j < |run.calls| - 1 ==> reply(start + j, run.calls[j]).Success?)
    decreases |chunks| - i
  {
    if i < |chunks| {
      var step := ExtractFromStep(reply, start, extract, chunks, i, acc);
      if step.outcome.Success? {
        var next := acc + [step.outcome.value];
        ExtractFromCalls(reply, start + 1, extract, chunks, i + 1, next);
        var rest := ExtractFrom(reply, start + 1, extract, chunks, i + 1, next);
        var run := ExtractFrom(reply, start, extract, chunks, i, acc);
        assert run.calls == step.calls + rest.calls;
        forall j | 1 <= j < |run.calls|
          ensures run.calls[j] == Call(extract(chunks[i + j]), ForceJSON)
          ensures j < |run.calls| - 1 ==> reply(start + j, run.calls[j]).Success?
        {
          assert run.calls[j] == rest.calls[j - 1];
        }
      }
    }
  }

  /**
   * The extractions from chunk `i` on succeed exactly when there is a call
   * for every remaining chunk and the last is answered.
   */
  lemma {:induction false} ExtractFromSuccess(reply: Oracle, start: nat, extract: string -> string, chunks: seq<string>, i: nat, acc: seq<ChunkResult>)
    requires i <= |chunks|
    ensures var run := ExtractFrom(reply, start, extract, chunks, i, acc);
      var k := |run.calls|;
      run.outcome.Success? <==> k == |chunks| - i && (k >= 1 ==> reply(start + k - 1, run.calls[k - 1]).Success?)
    decreases |chunks| - i
  {
    if i < |chunks| {
      var step := ExtractFromStep(reply, start, extract, chunks, i, acc);
      if step.outcome.Success? {
        var next := acc + [step.outcome.value];
        ExtractFromSuccess(reply, start + 1, extract, chunks, i + 1, next);
        ExtractFromCalls(reply, start + 1, extract, chunks, i + 1, next);
        var rest := ExtractFrom(reply, start + 1, extract, chunks, i + 1, next);
        var run := ExtractFrom(reply, start, extract, chunks, i, acc);
        assert run.calls == step.calls + rest.calls;
        var k := |run.calls|;
        if k >= 2 {
          assert run.calls[k - 1] == rest.calls[k - 2];
        }
      }
    }
  }

  /**
   * A successful run of the extractions from chunk `i` on answers every
   * call and returns `acc` followed by one result per remaining chunk,
   * chunk `i + j` with the answer to call `j`.
   */
  lemma {:induction false} ExtractFromResults(reply: Oracle, start: nat, extract: string -> string, chunks: seq<string>, i: nat, acc: seq<ChunkResult>)
    requires i <= |chunks|
    ensures var run := ExtractFrom(reply, start, extract, chunks, i, acc);
      var k := |run.calls|;
      k <= |chunks| - i
      && (run.outcome.Success? ==>
            |run.outcome.value| == |acc| + k && run.outcome.value[..|acc|] == acc
            && forall j :: 0 <= j < k ==>
                 reply(start + j, run.calls[j]).Success?
                 && run.outcome.value[|acc| + j]
                    == ChunkResult(i + j, chunks[i + j], reply(start + j, run.calls[j]).value.content, reply(start + j, run.calls[j]).value))
    decreases |chunks| - i
  {
    ExtractFromCalls(reply, start, extract, chunks, i, acc);
    if i < |chunks| {
      var step := ExtractFromStep(reply, start, extract, chunks, i, acc);
      if step.outcome.Success? {
        var next := acc + [step.outcome.value];
        ExtractFromResults(reply, start + 1, extract, chunks, i + 1, next);
        var rest := ExtractFrom(reply, start + 1, extract, chunks, i + 1, next);
        var run := ExtractFrom(reply, start, extract, chunks, i, acc);
        assert run.calls == step.calls + rest.calls;
        if run.outcome.Success? {
          var v := run.outcome.value;
          var k := |run.calls|;
          assert v[..|acc|] == acc by {
            assert v[..|acc|] == v[..|next|][..|acc|];
          }
          forall j | 0 <= j < k
            ensures reply(start + j, run.calls[j]).Success?
            ensures v[|acc| + j] == ChunkResult(i + j, chunks[i + j], reply(start + j, run.calls[j]).value.content, reply(start + j, run.calls[j]).value)
          {
            if j == 0 {
              assert v[|acc|] == v[..|next|][|acc|];
            } else {
              assert run.calls[j] == rest.calls[j - 1];
              assert v[|next| + (j - 1)] == v[|acc| + j];
            }
          }
        }
      }
    }
  }

  /** A failure of the extractions from chunk `i` on is the last call's error, wrapped with the index of its chunk. */
  lemma {:induction false} ExtractFromFailure(reply: Oracle, start: nat, extract: string -> string, chunks: seq<string>, i: nat, acc: seq<ChunkResult>)
    requires i <= |chunks|
    ensures var run := ExtractFrom(reply, start, extract, chunks, i, acc);
      var k := |run.calls|;
      run.outcome.Failure? ==>
        k >= 1 && reply(start + k - 1, run.calls[k - 1]).Failure?
        && run.outcome.error == "failed to process chunk " + NatToString(i + k - 1) + ": "
                                + ("extraction failed: " + reply(start + k - 1, run.calls[k - 1]).error)
    decreases |chunks| - i
  {
    if i < |chunks| {
      var step := ExtractFromStep(reply, start, extract, chunks, i, acc);
      if step.outcome.Success? {
        var next := acc + [step.outcome.value];
        ExtractFromFailure(reply, start + 1, extract, chunks, i + 1, next);
        var rest := ExtractFrom(reply, start + 1, extract, chunks, i + 1, next);
        var run := ExtractFrom(reply, start, extract, chunks, i, acc);
        assert run.calls == step.calls + rest.calls;
        var k := |run.calls|;
        if k >= 2 {
          assert run.calls[k - 1] == rest.calls[k - 2];
        }
      }
    }
  }

  /**
   * One extraction of the phase-1 loop: the calls logged so far and the
   * extractions still to come add up to the same run as before it.
   */
  lemma ExtractKeepsTotal(reply: Oracle, extract: string -> string, chunks: seq<string>, i: nat, acc: seq<ChunkResult>,
                          before: seq<Call>, after: seq<Call>, result: Result<ChunkResult>)
    requires i < |chunks|
    requires var step := SingleChunkRun(reply, |before|, extract(chunks[i]), chunks[i], i);
      after == before + step.calls && result == step.outcome
    ensures var run := ExtractFrom(reply, |before|, extract, chunks, i, acc);
      (result.Failure? ==>
         after == before + run.calls
         && run.outcome == Failure("failed to process chunk " + NatToString(i) + ": " + result.error))
      && (result.Success? ==>
            var rest := ExtractFrom(reply, |after|, extract, chunks, i + 1, acc + [result.value]);
            after + rest.calls == before + run.calls && rest.outcome == run.outcome)
  {
    var step := ExtractFromStep(reply, |before|, extract, chunks, i, acc);
    if result.Success? {
      var rest := ExtractFrom(reply, |after|, extract, chunks, i + 1, acc + [result.value]);
      assert after + rest.calls == before + (step.calls + rest.calls);
    }
  }

  /** The run of `mergeAllResults`: a single result is returned as is, otherwise one consolidation call. */
  function ConsolidateRun(reply: Oracle, start: nat, p: Prompts, results: seq<ChunkResult>): Run<ChunkResult> {
    if |results| == 1 then Run([], Success(results[0]))
    else
      var call := Call(p.consolidate(JsonOf(results)), ForceJSON);
      match reply(start, call)
      case Failure(e) => Run([call], Failure("consolidation failed: " + e))
      case Success(resp) => Run([call], Success(ChunkResult(-1, "consolidated", resp.content, resp)))
  }

  /** The run of `processTwoPass`: phase 1, then the consolidation of its results. */
  function TwoPassRun(reply: Oracle, start: nat, p: Prompts, chunks: seq<string>): Run<ChunkResult> {
    var phase1 := ExtractFrom(reply, start, p.extract, chunks, 0, []);
    if phase1.outcome.Failure? then Run(phase1.calls, Failure(phase1.outcome.error))
    else
      var phase2 := ConsolidateRun(reply, start + |phase1.calls|, p, phase1.outcome.value);
      Run(phase1.calls + phase2.calls, phase2.outcome)
  }

  /** The run of `ProcessChunks`: dispatch on the number of chunks, then on the strategy. */
  function ProcessRun(reply: Oracle, start: nat, p: Prompts, strategy: string, chunks: seq<string>): Run<ChunkResult> {
    if chunks == [] then Run([], Failure("no chunks to process"))
    else if |chunks| == 1 then SingleChunkRun(reply, start, p.extract(chunks[0]), chunks[0], 0)
    else if strategy == Incremental then IncrementalRun(reply, start, p, chunks)
    else if strategy == TwoPass || strategy == TemplateDriven then TwoPassRun(reply, start, p, chunks)
    else Run([], Failure("unknown merge strategy: " + strategy))
  }

  /** The first `k` calls of a run were answered. */
  ghost predicate AnsweredBefore(reply: Oracle, start: nat, calls: seq<Call>, k: nat)
    requires k <= |calls|
  {
    forall i :: 0 <= i < k ==> reply(start + i, calls[i]).Success?
  }

  /** The content of the answers to a sequence of answered calls. */
  ghost function Answers(reply: Oracle, start: nat, calls: seq<Call>): (jsons: seq<string>)
    requires AnsweredBefore(reply, start, calls, |calls|)
    ensures |jsons| == |calls|
    ensures forall i :: 0 <= i < |calls| ==> jsons[i] == reply(start + i, calls[i]).value.content
  {
    seq(|calls|, i requires 0 <= i < |calls| => reply(start + i, calls[i]).value.content)
  }

  /**
   * No chunks: an error and no call. One chunk: a single extraction call
   * whatever the strategy, even an unknown one, succeeding exactly when it
   * is answered. Several chunks and an unknown strategy: an error naming it
   * and no call.
   */
  lemma ProcessDispatch(reply: Oracle, start: nat, p: Prompts, strategy: string, chunks: seq<string>)
    ensures var run := ProcessRun(reply, start, p, strategy, chunks);
      (chunks == [] ==> run.calls == [] && run.outcome == Failure("no chunks to process"))
      && (|chunks| == 1 ==>
            run.calls == [Call(p.extract(chunks[0]), ForceJSON)]
            && (run.outcome.Success? <==> reply(start, run.calls[0]).Success?))
      && (|chunks| >= 2 && strategy !in {Incremental, TwoPass, TemplateDriven} ==>
            run.calls == [] && run.outcome == Failure("unknown merge strategy: " + strategy))
  {
  }

  /**
   * Incremental merging of `n >= 2` chunks makes between one and `n`
   * calls; every call but the last was answered; call 0 extracts chunk 0
   * and call `i` merges chunk `i` into the answer to call `i - 1`.
   */
  lemma IncrementalChain(reply: Oracle, start: nat, p: Prompts, chunks: seq<string>)
    requires |chunks| >= 2
    ensures var run := ProcessRun(reply, start, p, Incremental, chunks);
      1 <= |run.calls| <= |chunks|
      && run.calls[0] == Call(p.extract(chunks[0]), ForceJSON)
      && forall i :: 1 <= i < |run.calls| ==> Link(reply, start, p, chunks, 0, run.calls, i)
  {
    var run := ProcessRun(reply, start, p, Incremental, chunks);
    assert run == IncrementalRun(reply, start, p, chunks);
    var call := Call(p.extract(chunks[0]), ForceJSON);
    var first := SingleChunkRun(reply, start, p.extract(chunks[0]), chunks[0], 0);
    assert first.calls == [call];
    if first.outcome.Success? {
      var acc := first.outcome.value;
      MergeFromCalls(reply, start + 1, p, chunks, 1, acc);
      var rest := MergeFrom(reply, start + 1, p, chunks, 1, acc);
      assert run.calls == [call] + rest.calls;
      forall i | 1 <= i < |run.calls|
        ensures Link(reply, start, p, chunks, 0, run.calls, i)
      {
        assert run.calls[i] == rest.calls[i - 1];
        if i >= 2 {
          assert Link(reply, start + 1, p, chunks, 1, rest.calls, i - 1);
          assert run.calls[i - 1] == rest.calls[i - 2];
        }
      }
    }
  }

  /**
   * Incremental merging of `n >= 2` chunks succeeds exactly when it made
   * all `n` calls and the last was answered, and then returns that answer
   * as the result for chunk `n - 1`.
   */
  lemma IncrementalSuccess(reply: Oracle, start: nat, p: Prompts, chunks: seq<string>)
    requires |chunks| >= 2
    ensures var run := ProcessRun(reply, start, p, Incremental, chunks);
      var k := |run.calls|;
      1 <= k <= |chunks|
      && (run.outcome.Success? <==> k == |chunks| && reply(start + k - 1, run.calls[k - 1]).Success?)
      && (run.outcome.Success? ==>
            var last := reply(start + k - 1, run.calls[k - 1]).value;
            run.outcome.value == ChunkResult(k - 1, chunks[k - 1], last.content, last))
  {
    var run := ProcessRun(reply, start, p, Incremental, chunks);
    assert run == IncrementalRun(reply, start, p, chunks);
    var call := Call(p.extract(chunks[0]), ForceJSON);
    var first := SingleChunkRun(reply, start, p.extract(chunks[0]), chunks[0], 0);
    assert first.calls == [call];
    if first.outcome.Success? {
      var acc := first.outcome.value;
      MergeFromSuccess(reply, start + 1, p, chunks, 1, acc);
      var rest := MergeFrom(reply, start + 1, p, chunks, 1, acc);
      assert run.calls == [call] + rest.calls;
      var k := |run.calls|;
      if k >= 2 {
        assert run.calls[k - 1] == rest.calls[k - 2];
      }
    }
  }

  /**
   * When incremental merging of `n >= 2` chunks fails, its last call failed,
   * no call followed it, and the error is that call's error wrapped with
   * the phase and the chunk index.
   */
  lemma IncrementalFailure(reply: Oracle, start: nat, p: Prompts, chunks: seq<string>)
    requires |chunks| >= 2
    ensures var run := ProcessRun(reply, start, p, Incremental, chunks);
      var k := |run.calls|;
      run.outcome.Failure? ==>
        1 <= k
        && reply(start + k - 1, run.calls[k - 1]).Failure?
        && (k == 1 ==>
              run.outcome.error == "failed to process first chunk: " + ("extraction failed: " + reply(start, run.calls[0]).error))
        && (k >= 2 ==>
              run.outcome.error == "failed to merge chunk " + NatToString(k - 1) + ": "
                                   + ("merge failed: " + reply(start + k - 1, run.calls[k - 1]).error))
  {
    var run := ProcessRun(reply, start, p, Incremental, chunks);
    assert run == IncrementalRun(reply, start, p, chunks);
    var call := Call(p.extract(chunks[0]), ForceJSON);
    var first := SingleChunkRun(reply, start, p.extract(chunks[0]), chunks[0], 0);
    assert first.calls == [call];
    if first.outcome.Success? {
      var acc := first.outcome.value;
      MergeFromFailure(reply, start + 1, p, chunks, 1, acc);
      var rest := MergeFrom(reply, start + 1, p, chunks, 1, acc);
      assert run.calls == [call] + rest.calls;
      var k := |run.calls|;
      if k >= 2 {
        assert run.calls[k - 1] == rest.calls[k - 2];
        assert 1 + (k - 1) - 1 == k - 1;
      }
    }
  }

  /**
   * Phase 1 over all the chunks makes at most one call per chunk, call `j`
   * extracting chunk `j`; every call but the last was answered, and a
   * failure is the last call's error wrapped with the index of its chunk.
   */
  lemma ExtractAllCalls(reply: Oracle, start: nat, extract: string -> string, chunks: seq<string>)
    ensures var run := ExtractFrom(reply, start, extract, chunks, 0, []);
      var k := |run.calls|;
      k <= |chunks|
      && (forall j :: 0 <= j < k ==> run.calls[j] == Call(extract(chunks[j]), ForceJSON))
      && (forall j :: 0 <= j < k - 1 ==> reply(start + j, run.calls[j]).Success?)
      && (run.outcome.Failure? ==>
            k >= 1 && reply(start + k - 1, run.calls[k - 1]).Failure?
            && run.outcome.error == "failed to process chunk " + NatToString(k - 1) + ": "
                                    + ("extraction failed: " + reply(start + k - 1, run.calls[k - 1]).error))
  {
    var run := ExtractFrom(reply, start, extract, chunks, 0, []);
    ExtractFromCalls(reply, start, extract, chunks, 0, []);
    ExtractFromFailure(reply, start, extract, chunks, 0, []);
    ExtractCallsFromZero(reply, start, extract, chunks, run);
  }

  /** The facts about the extractions from chunk `i` on, read at `i` = 0. */
  lemma ExtractCallsFromZero(reply: Oracle, start: nat, extract: string -> string, chunks: seq<string>, run: Run<seq<ChunkResult>>)
    requires var k := |run.calls|;
      k <= |chunks| - 0
      && (forall j :: 0 <= j < k ==> run.calls[j] == Call(extract(chunks[0 + j]), ForceJSON))
      && (run.outcome.Failure? ==>
            k >= 1 && reply(start + k - 1, run.calls[k - 1]).Failure?
            && run.outcome.error == "failed to process chunk " + NatToString(0 + k - 1) + ": "
                                    + ("extraction failed: " + reply(start + k - 1, run.calls[k - 1]).error))
    ensures var k := |run.calls|;
      (forall j :: 0 <= j < k ==> run.calls[j] == Call(extract(chunks[j]), ForceJSON))
      && (run.outcome.Failure? ==>
            run.outcome.error == "failed to process chunk " + NatToString(k - 1) + ": "
                                 + ("extraction failed: " + reply(start + k - 1, run.calls[k - 1]).error))
  {
  }

  /**
   * Phase 1 over all the chunks succeeds exactly when every chunk's call is
   * answered; the results are then one per chunk in index order, chunk `j`
   * with the answer to call `j`.
   */
  lemma ExtractAllSuccess(reply: Oracle, start: nat, extract: string -> string, chunks: seq<string>)
    ensures var run := ExtractFrom(reply, start, extract, chunks, 0, []);
      (run.outcome.Success? <==> |run.calls| == |chunks| && AnsweredBefore(reply, start, run.calls, |run.calls|))
      && (run.outcome.Success? ==>
            |run.outcome.value| == |chunks|
            && forall j :: 0 <= j < |chunks| ==>
                 run.outcome.value[j] == ChunkResult(j, chunks[j], reply(start + j, run.calls[j]).value.content, reply(start + j, run.calls[j]).value))
  {
    var run := ExtractFrom(reply, start, extract, chunks, 0, []);
    var acc: seq<ChunkResult> := [];
    ExtractFromCalls(reply, start, extract, chunks, 0, acc);
    ExtractFromSuccess(reply, start, extract, chunks, 0, acc);
    ExtractFromResults(reply, start, extract, chunks, 0, acc);
    if run.outcome.Success? {
      forall j | 0 <= j < |chunks|
        ensures run.outcome.value[j] == ChunkResult(j, chunks[j], reply(start + j, run.calls[j]).value.content, reply(start + j, run.calls[j]).value)
      {
        assert |acc| + j == j && 0 + j == j;
      }
    }
  }

  /** The JSON phase 1 hands to consolidation is the answers to its calls, in order. */
  lemma ExtractAllJson(reply: Oracle, start: nat, extract: string -> string, chunks: seq<string>)
    requires ExtractFrom(reply, start, extract, chunks, 0, []).outcome.Success?
    ensures var run := ExtractFrom(reply, start, extract, chunks, 0, []);
      AnsweredBefore(reply, start, run.calls, |run.calls|)
      && JsonOf(run.outcome.value) == Answers(reply, start, run.calls)
  {
    ExtractAllSuccess(reply, start, extract, chunks);
  }

  /**
   * Two-pass (and template-driven) merging of `n >= 2` chunks extracts the
   * chunks in index order, each call but the last answered; when it gets
   * to `n + 1` calls, the last is the consolidation of the extracted JSON,
   * in chunk order.
   */
  lemma TwoPassCalls(reply: Oracle, start: nat, p: Prompts, strategy: string, chunks: seq<string>)
    requires |chunks| >= 2 && strategy in {TwoPass, TemplateDriven}
    ensures var run := ProcessRun(reply, start, p, strategy, chunks);
      var n := |chunks|;
      1 <= |run.calls| <= n + 1
      && (forall i :: 0 <= i < |run.calls| && i < n ==> run.calls[i] == Call(p.extract(chunks[i]), ForceJSON))
      && AnsweredBefore(reply, start, run.calls, |run.calls| - 1)
      && (|run.calls| == n + 1 ==> run.calls[n] == Call(p.consolidate(Answers(reply, start, run.calls[..n])), ForceJSON))
  {
    var n := |chunks|;
    var run := ProcessRun(reply, start, p, strategy, chunks);
    var phase1 := ExtractFrom(reply, start, p.extract, chunks, 0, []);
    assert run == TwoPassRun(reply, start, p, chunks);
    ExtractAllCalls(reply, start, p.extract, chunks);
    ExtractAllSuccess(reply, start, p.extract, chunks);
    if phase1.outcome.Success? {
      ExtractAllJson(reply, start, p.extract, chunks);
      var phase2 := ConsolidateRun(reply, start + n, p, phase1.outcome.value);
      assert run.calls == phase1.calls + phase2.calls;
      assert run.calls[..n] == phase1.calls;
    }
  }

  /**
   * Two-pass (and template-driven) merging of `n >= 2` chunks succeeds
   * exactly when it makes `n + 1` calls and the last, the consolidation, is
   * answered; the result is that answer with index -1 and content
   * "consolidated". A failure is the last call's error: a failed extraction
   * of chunk `k - 1` wrapped with that index, or a failed consolidation.
   */
  lemma TwoPassOutcome(reply: Oracle, start: nat, p: Prompts, strategy: string, chunks: seq<string>)
    requires |chunks| >= 2 && strategy in {TwoPass, TemplateDriven}
    ensures var run := ProcessRun(reply, start, p, strategy, chunks);
      var n := |chunks|;
      var k := |run.calls|;
      1 <= k
      && (run.outcome.Success? <==> k == n + 1 && reply(start + n, run.calls[n]).Success?)
      && (run.outcome.Success? ==>
            run.outcome.value == ChunkResult(-1, "consolidated", reply(start + n, run.calls[n]).value.content, reply(start + n, run.calls[n]).value))
      && (run.outcome.Failure? ==> k <= n + 1 && reply(start + k - 1, run.calls[k - 1]).Failure?)
      && (run.outcome.Failure? && k <= n ==>
            run.outcome.error == "failed to process chunk " + NatToString(k - 1) + ": "
                                 + ("extraction failed: " + reply(start + k - 1, run.calls[k - 1]).error))
      && (run.outcome.Failure? && k == n + 1 ==>
            run.outcome.error == "consolidation failed: " + reply(start + n, run.calls[n]).error)
  {
    var n := |chunks|;
    var run := ProcessRun(reply, start, p, strategy, chunks);
    var phase1 := ExtractFrom(reply, start, p.extract, chunks, 0, []);
    assert run == TwoPassRun(reply, start, p, chunks);
    ExtractAllCalls(reply, start, p.extract, chunks);
    ExtractAllSuccess(reply, start, p.extract, chunks);
    if phase1.outcome.Success? {
      var phase2 := ConsolidateRun(reply, start + n, p, phase1.outcome.value);
      assert run.calls == phase1.calls + phase2.calls;
      assert run.calls[n] == phase2.calls[0];
    }
  }

  /** A prompt one of the builders made. */
  ghost predicate Built(p: Prompts, prompt: string) {
    (exists chunk :: prompt == p.extract(chunk))
    || (exists previousJSON, chunk :: prompt == p.merge(previousJSON, chunk))
    || (exists jsons :: prompt == p.consolidate(jsons))
  }

  /** Whatever the strategy and the answers, every call forces JSON and has a prompt one of the builders made. */
  lemma EveryCallBuilt(reply: Oracle, start: nat, p: Prompts, strategy: string, chunks: seq<string>)
    ensures var run := ProcessRun(reply, start, p, strategy, chunks);
      forall i :: 0 <= i < |run.calls| ==> run.calls[i].options == ForceJSON && Built(p, run.calls[i].prompt)
  {
    var run := ProcessRun(reply, start, p, strategy, chunks);
    if |chunks| >= 2 && strategy == Incremental {
      IncrementalChain(reply, start, p, chunks);
      forall i | 0 <= i < |run.calls| ensures run.calls[i].options == ForceJSON && Built(p, run.calls[i].prompt) {
        if i >= 1 {
          assert Link(reply, start, p, chunks, 0, run.calls, i);
          var previousJSON := reply(start + i - 1, run.calls[i - 1]).value.content;
          assert run.calls[i].prompt == p.merge(previousJSON, chunks[i]);
        }
      }
    } else if |chunks| >= 2 && strategy in {TwoPass, TemplateDriven} {
      TwoPassCalls(reply, start, p, strategy, chunks);
    }
  }

  /** With the builders of merger.go, in any wording, every call the merger makes forces JSON and carries the whole schema. */
  lemma EveryCallCarriesSchema(reply: Oracle, start: nat, w: Wording, spec: Spec, options: MergeOptions, chunks: seq<string>)
    ensures var run := ProcessRun(reply, start, PromptsFor(w, spec, options), options.strategy, chunks);
      forall i :: 0 <= i < |run.calls| ==> run.calls[i].options == ForceJSON && Contains(run.calls[i].prompt, spec.schema)
  {
    var p := PromptsFor(w, spec, options);
    EveryCallBuilt(reply, start, p, options.strategy, chunks);
    forall chunk | true ensures Contains(p.extract(chunk), spec.schema) {
      ExtractionPromptEmbeds(w, spec, chunk);
    }
    forall previousJSON, chunk | true ensures Contains(p.merge(previousJSON, chunk), spec.schema) {
      MergePromptEmbeds(w, spec, options, previousJSON, chunk);
    }
    forall jsons | true ensures Contains(p.consolidate(jsons), spec.schema) {
      ConsolidationPromptEmbeds(w, spec, options, jsons);
    }
  }

  /** The merge engine: the spec being extracted, the provider, the options, and the wording of its prompts. */
  class Merger {
    const spec: Spec
    const client: Provider
    const options: MergeOptions
    const wording: Wording

    /** `NewMerger`: a merger with the wording of merger.go. */
    constructor (spec: Spec, client: Provider, options: MergeOptions)
      ensures this.spec == spec && this.client == client && this.options == options && wording == GoWording
    {
      this.spec := spec;
      this.client := client;
      this.options := options;
      wording := GoWording;
    }

    /** `ProcessChunks`: makes exactly the calls of `ProcessRun` and returns its outcome. */
    method ProcessChunks(chunks: seq<string>) returns (r: Result<ChunkResult>)
      modifies client
      ensures var run := ProcessRun(client.reply, |old(client.log)|, PromptsFor(wording, spec, options), options.strategy, chunks);
        client.log == old(client.log) + run.calls && r == run.outcome
    {
      if |chunks| == 0 {
        return Failure("no chunks to process");
      }
      if |chunks| == 1 {
        r := ProcessSingleChunk(chunks[0], 0);
        return;
      }
      if options.strategy == Incremental {
        r := ProcessIncremental(chunks);
      } else if options.strategy == TwoPass {
        r := ProcessTwoPass(chunks);
      } else if options.strategy == TemplateDriven {
        r := ProcessTemplateDriven(chunks);
      } else {
        r := Failure("unknown merge strategy: " + options.strategy);
      }
    }

    /** `processIncremental`: extract the first chunk, then fold the others in one merge call each. */
    method ProcessIncremental(chunks: seq<string>) returns (r: Result<ChunkResult>)
      requires |chunks| >= 1
      modifies client
      ensures var run := IncrementalRun(client.reply, |old(client.log)|, PromptsFor(wording, spec, options), chunks);
        client.log == old(client.log) + run.calls && r == run.outcome
    {
      var first := ProcessSingleChunk(chunks[0], 0);
      if first.Failure? {
        return Failure("failed to process first chunk: " + first.error);
      }
      r := MergeRemaining(chunks, first.value);
    }

    /** The loop of `processIncremental`: merge chunks 1, 2, ... in turn into the result so far. */
    method MergeRemaining(chunks: seq<string>, first: ChunkResult) returns (r: Result<ChunkResult>)
      requires |chunks| >= 1
      modifies client
      ensures var run := MergeFrom(client.reply, |old(client.log)|, PromptsFor(wording, spec, options), chunks, 1, first);
        client.log == old(client.log) + run.calls && r == run.outcome
    {
      ghost var log0 := client.log;
      ghost var p := PromptsFor(wording, spec, options);
      ghost var whole := MergeFrom(client.reply, |log0|, p, chunks, 1, first);
      var result := first;
      ghost var rest := whole;
      var i := 1;
      while i < |chunks|
        invariant 1 <= i <= |chunks|
        invariant rest == MergeFrom(client.reply, |client.log|, p, chunks, i, result)
        invariant client.log + rest.calls == log0 + whole.calls && rest.outcome == whole.outcome
      {
        ghost var before := client.log;
        assert p.merge(result.jsonData, chunks[i]) == MergePrompt(wording, spec, options, result.jsonData, chunks[i]);
        var merged := MergeWithPrevious(result.jsonData, chunks[i], i);
        MergeKeepsTotal(client.reply, p, chunks, i, result, before, client.log, merged);
        if merged.Failure? {
          return Failure("failed to merge chunk " + NatToString(i) + ": " + merged.error);
        }
        rest := MergeFrom(client.reply, |client.log|, p, chunks, i + 1, merged.value);
        result := merged.value;
        i := i + 1;
      }
      return Success(result);
    }

    /** Phase 1 of `processTwoPass` and of `processTemplateDriven`: extract every chunk in index order. */
    method ExtractAll(chunks: seq<string>) returns (r: Result<seq<ChunkResult>>)
      modifies client
      ensures var run := ExtractFrom(client.reply, |old(client.log)|, PromptsFor(wording, spec, options).extract, chunks, 0, []);
        client.log == old(client.log) + run.calls && r == run.outcome
    {
      ghost var log0 := client.log;
      ghost var extract := PromptsFor(wording, spec, options).extract;
      ghost var whole := ExtractFrom(client.reply, |log0|, extract, chunks, 0, []);
      var chunkResults: seq<ChunkResult> := [];
      ghost var rest := whole;
      var i := 0;
      while i < |chunks|
        invariant i <= |chunks|
        invariant rest == ExtractFrom(client.reply, |client.log|, extract, chunks, i, chunkResults)
        invariant client.log + rest.calls == log0 + whole.calls && rest.outcome == whole.outcome
      {
        ghost var before := client.log;
        var result := ProcessSingleChunk(chunks[i], i);
        assert extract(chunks[i]) == ExtractionPrompt(wording, spec, chunks[i]);
        ExtractKeepsTotal(client.reply, extract, chunks, i, chunkResults, before, client.log, result);
        if result.Failure? {
          return Failure("failed to process chunk " + NatToString(i) + ": " + result.error);
        }
        rest := ExtractFrom(client.reply, |client.log|, extract, chunks, i + 1, chunkResults + [result.value]);
        chunkResults := chunkResults + [result.value];
        i := i + 1;
      }
      return Success(chunkResults);
    }

    /** `processTwoPass`: extract every chunk, then consolidate all the results. */
    method ProcessTwoPass(chunks: seq<string>) returns (r: Result<ChunkResult>)
      modifies client
      ensures var run := TwoPassRun(client.reply, |old(client.log)|, PromptsFor(wording, spec, options), chunks);
        client.log == old(client.log) + run.calls && r == run.outcome
    {
      var results := ExtractAll(chunks);
      if results.Failure? {
        return Failure(results.error);
      }
      r := MergeAllResults(results.value);
    }

    /** `processTemplateDriven`: the same as two-pass, consolidating through `mergeByTemplate`. */
    method ProcessTemplateDriven(chunks: seq<string>) returns (r: Result<ChunkResult>)
      modifies client
      ensures var run := TwoPassRun(client.reply, |old(client.log)|, PromptsFor(wording, spec, options), chunks);
        client.log == old(client.log) + run.calls && r == run.outcome
    {
      var results := ExtractAll(chunks);
      if results.Failure? {
        return Failure(results.error);
      }
      r := MergeByTemplate(results.value);
    }

    /** `processSingleChunk`: one extraction call. */
    method ProcessSingleChunk(chunk: string, index: int) returns (r: Result<ChunkResult>)
      modifies client
      ensures var run := SingleChunkRun(client.reply, |old(client.log)|, ExtractionPrompt(wording, spec, chunk), chunk, index);
        client.log == old(client.log) + run.calls && r == run.outcome
    {
      var prompt := ExtractionPrompt(wording, spec, chunk);
      var response := client.Complete(prompt, ForceJSON);
      if response.Failure? {
        return Failure("extraction failed: " + response.error);
      }
      return Success(ChunkResult(index, chunk, response.value.content, response.value));
    }

    /** `mergeWithPrevious`: one merge call. */
    method MergeWithPrevious(previousJSON: string, newChunk: string, chunkIndex: int) returns (r: Result<ChunkResult>)
      modifies client
      ensures var run := MergeRun(client.reply, |old(client.log)|, MergePrompt(wording, spec, options, previousJSON, newChunk), newChunk, chunkIndex);
        client.log == old(client.log) + run.calls && r == run.outcome
    {
      var prompt := MergePrompt(wording, spec, options, previousJSON, newChunk);
      var response := client.Complete(prompt, ForceJSON);
      if response.Failure? {
        return Failure("merge failed: " + response.error);
      }
      return Success(ChunkResult(chunkIndex, newChunk, response.value.content, response.value));
    }

    /** `mergeAllResults`: a single result as is, otherwise one consolidation call. */
    method MergeAllResults(results: seq<ChunkResult>) returns (r: Result<ChunkResult>)
      modifies client
      ensures var run := ConsolidateRun(client.reply, |old(client.log)|, PromptsFor(wording, spec, options), results);
        client.log == old(client.log) + run.calls && r == run.outcome
    {
      if |results| == 1 {
        return Success(results[0]);
      }
      var jsonResults: seq<string> := [];
      for i := 0 to |results|
        invariant jsonResults == JsonOf(results[..i])
      {
        assert results[..i + 1][..i] == results[..i];
        jsonResults := jsonResults + [results[i].jsonData];
      }
      assert results[..|results|] == results;
      var prompt := CreateConsolidationPrompt(jsonResults);
      var response := client.Complete(prompt, ForceJSON);
      if response.Failure? {
        return Failure("consolidation failed: " + response.error);
      }
      return Success(ChunkResult(-1, "consolidated", response.value.content, response.value));
    }

    /** `mergeByTemplate`: delegates to `mergeAllResults`. */
    method MergeByTemplate(results: seq<ChunkResult>) returns (r: Result<ChunkResult>)
      modifies client
      ensures var run := ConsolidateRun(client.reply, |old(client.log)|, PromptsFor(wording, spec, options), results);
        client.log == old(client.log) + run.calls && r == run.outcome
    {
      r := MergeAllResults(results);
    }

    /** `createConsolidationPrompt`: appends one labelled block per result, then fills the template. */
    method CreateConsolidationPrompt(jsonResults: seq<string>) returns (prompt: string)
      ensures prompt == ConsolidationPrompt(wording, spec, options, jsonResults)
    {
      var resultsStr: string := [];
      for i := 0 to |jsonResults|
        invariant resultsStr == ResultBlocks(jsonResults[..i])
      {
        assert jsonResults[..i + 1][..i] == jsonResults[..i];
        resultsStr := resultsStr + Format(["Result ", ":\n", "\n\n"], [NatToString(i + 1), jsonResults[i]]);
      }
      assert jsonResults[..|jsonResults|] == jsonResults;
      var instructions := options.instructions;
      if instructions == [] {
        instructions := wording.consolidationInstructions;
      }
      prompt := Format(wording.consolidation, [instructions, resultsStr, spec.schema]);
    }
  }
}
