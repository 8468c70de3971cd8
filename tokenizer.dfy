/**
 * The token estimator and the semantic chunker (cli/internal/chunking/tokenizer.go).
 *
 * Text is a `seq<char>` with one element per rune. The Go code counts tokens
 * by runes but measures and cuts chunks by bytes (`len(chunk)` in
 * findOptimalChunk, `len(text)`, `text[cutPoint]` and `text[:cutPoint]` in
 * forceSplit, `len(text)/10` in ValidateBoundary); here every one of those
 * lengths and offsets is a rune count, which is the same thing on ASCII text.
 */
module Tokenizer {
  import opened Wrappers
  import opened Text

  /**
   * The token estimate: a quarter of the rune count, rounded down, plus ten
   * per cent, rounded down again. The float arithmetic of the source is exact
   * here (a division by 4.0, then a product with 1.1 truncated to int).
   */
  function CountTokens(text: string): (r: nat)
    ensures r == 0 <==> |text| < 4
  {
    if text == [] then 0 else (|text| / 4) * 11 / 10
  }

  /** The most runes a text can have and still be estimated at `maxTokens` or fewer. */
  function RuneBudget(maxTokens: nat): nat {
    4 * ((10 * maxTokens + 9) / 11) + 3
  }

  lemma FloorDivBelow(a: nat, d: nat, b: nat)
    requires d > 0
    ensures a / d <= b <==> a < d * (b + 1)
  {
    var q, r := a / d, a % d;
    assert a == d * q + r && 0 <= r < d;
    if q <= b {
      assert d * q <= d * b;
    } else {
      assert d * q >= d * (b + 1);
    }
  }

  /**
   * The estimate is at most `maxTokens` exactly when the text has at most
   * RuneBudget(maxTokens) runes: an independent description of the estimate
   * as a threshold on length.
   */
  lemma FitsIffWithinRuneBudget(text: string, maxTokens: nat)
    ensures CountTokens(text) <= maxTokens <==> |text| <= RuneBudget(maxTokens)
  {
    var q := |text| / 4;
    var budget := (10 * maxTokens + 9) / 11;
    assert CountTokens(text) == q * 11 / 10;
    FloorDivBelow(q * 11, 10, maxTokens);
    assert q * 11 / 10 <= maxTokens <==> q <= budget by {
      if q >= 1 {
        FloorDivBelow(10 * maxTokens + 9, 11, q - 1);
      }
    }
    FloorDivBelow(|text|, 4, budget);
  }

  /** Longer text never gets a smaller estimate. */
  lemma CountTokensMonotone(a: string, b: string)
    requires |a| <= |b|
    ensures CountTokens(a) <= CountTokens(b)
  {
    FitsIffWithinRuneBudget(b, CountTokens(b));
    FitsIffWithinRuneBudget(a, CountTokens(b));
  }

  /** `forceSplit`'s character limit, maxTokens * 4.0 * 0.8 truncated. */
  function CharLimit(maxTokens: nat): nat {
    maxTokens * 16 / 5
  }

  /** A text no longer than the character limit is within the budget. */
  lemma WithinCharLimitFits(text: string, maxTokens: nat)
    requires |text| <= CharLimit(maxTokens)
    ensures CountTokens(text) <= maxTokens
  {
    CharLimitWithinRuneBudget(maxTokens);
    FitsIffWithinRuneBudget(text, maxTokens);
  }

  type Delimiter = s: string | s != [] witness " "

  /** The delimiters `findOptimalChunk` tries, coarsest first. */
  const Boundaries: seq<Delimiter> := ["\n\n\n", "\n\n", "\n", ". ", "? ", "! ", ", ", " "]

  /** What may separate two consecutive chunks: a delimiter or white space. */
  predicate IsGap(g: string) {
    g in Boundaries || IsBlank(g)
  }

  /**
   * The number of leading pieces `tryBoundary` accumulates: the first `u` at
   * or after `i` for which pieces 0..u joined are over budget, or all of them.
   */
  function FirstOverflow(parts: seq<string>, b: string, maxTokens: nat, i: nat): (u: nat)
    requires i <= |parts|
    ensures i <= u <= |parts|
    ensures forall j :: i < j <= u ==> CountTokens(Join(parts[..j], b)) <= maxTokens
    ensures u < |parts| ==> CountTokens(Join(parts[..u + 1], b)) > maxTokens
    decreases |parts| - i
  {
    if i == |parts| then i
    else if CountTokens(Join(parts[..i + 1], b)) > maxTokens then i
    else FirstOverflow(parts, b, maxTokens, i + 1)
  }

  /** The pair (chunk, remaining) that `tryBoundary` returns. */
  function BoundarySplit(text: string, b: Delimiter, maxTokens: nat): (string, string) {
    var parts := Split(text, b);
    if |parts| <= 1 then ([], text)
    else
      var u := FirstOverflow(parts, b, maxTokens, 0);
      if u == 0 then ([], text)
      else if u == |parts| then (Join(parts, b), [])
      else (Join(parts[..u], b), Join(parts[u..], b))
  }

  /**
   * A delimiter that is absent, or whose first piece alone is over budget,
   * is rejected with ("", text). Otherwise the chunk is within budget and is
   * either the whole text, or is followed in the text by the delimiter and
   * the remainder, and is maximal: adding the remainder's first piece would
   * go over budget.
   */
  lemma BoundarySplitSpec(text: string, b: Delimiter, maxTokens: nat)
    ensures var (chunk, rest) := BoundarySplit(text, b, maxTokens);
      var parts := Split(text, b);
      ((!Contains(text, b) || CountTokens(parts[0]) > maxTokens) ==> chunk == [] && rest == text)
      && ((Contains(text, b) && CountTokens(parts[0]) <= maxTokens) ==>
            CountTokens(chunk) <= maxTokens
            && ((chunk == text && rest == [])
                || (chunk + b + rest == text && CountTokens(chunk + b + Split(rest, b)[0]) > maxTokens)))
  {
    var parts := Split(text, b);
    var (chunk, rest) := BoundarySplit(text, b, maxTokens);
    if |parts| > 1 {
      assert parts[..1] == [parts[0]];
      var u := FirstOverflow(parts, b, maxTokens, 0);
      if 0 < u < |parts| {
        assert parts[..u - 1 + 1] == parts[..u];
        SplitSuffix(text, b, u);
        CutAround(parts, b, u);
      } else if u == |parts| {
        assert parts[..|parts| - 1 + 1] == parts;
      }
    }
  }

  /**
   * Cutting the pieces before piece `u`: the two joins around one delimiter
   * give the whole join, and the first join, the delimiter and piece `u`
   * give the join of the first `u + 1` pieces.
   */
  lemma CutAround(parts: seq<string>, b: Delimiter, u: nat)
    requires 0 < u < |parts|
    ensures Join(parts[..u], b) + b + Join(parts[u..], b) == Join(parts, b)
    ensures Join(parts[..u], b) + b + parts[u] == Join(parts[..u + 1], b)
  {
    JoinAround(parts, b, u);
    var next := parts[..u + 1];
    JoinAround(next, b, u);
    assert next[..u] == parts[..u];
    assert next[u..] == [parts[u]];
  }

  /** `tryBoundary`: accumulate pieces while the growing candidate stays within budget. */
  method TryBoundary(text: string, b: Delimiter, maxTokens: nat) returns (chunk: string, remaining: string)
    ensures (chunk, remaining) == BoundarySplit(text, b, maxTokens)
  {
    var parts := Split(text, b);
    if |parts| <= 1 {
      return [], text;
    }
    var current: string := [];
    var used := 0;
    for i := 0 to |parts|
      invariant used == i
      invariant current == Join(parts[..i], b)
      invariant FirstOverflow(parts, b, maxTokens, 0) == FirstOverflow(parts, b, maxTokens, i)
    {
      var candidate := current;
      if i > 0 {
        candidate := candidate + b;
      }
      candidate := candidate + parts[i];
      assert candidate == Join(parts[..i + 1], b) by {
        if i == 0 {
          assert parts[..1] == [parts[0]];
        } else {
          CutAround(parts, b, i);
        }
      }
      if CountTokens(candidate) > maxTokens {
        if used == 0 {
          return [], text;
        }
        return current, Join(parts[used..], b);
      }
      if i > 0 {
        current := current + b;
      }
      current := current + parts[i];
      used := i + 1;
    }
    assert parts[..|parts|] == parts;
    return current, [];
  }

  /** What `tryBoundary` gives for each delimiter, in the order they are tried. */
  function Candidates(text: string, maxTokens: nat): (r: seq<(string, string)>)
    ensures |r| == |Boundaries|
    ensures forall i :: 0 <= i < |r| ==> r[i] == BoundarySplit(text, Boundaries[i], maxTokens)
  {
    seq(|Boundaries|, i requires 0 <= i < |Boundaries| => BoundarySplit(text, Boundaries[i], maxTokens))
  }

  /** The longest non-empty chunk among the candidates, the first one on ties; ("", text) if there is none. */
  function Longest(cands: seq<(string, string)>, text: string): (string, string) {
    if cands == [] then ([], text)
    else
      var best := Longest(cands[..|cands| - 1], text);
      var last := cands[|cands| - 1];
      if last.0 != [] && |last.0| > |best.0| then last else best
  }

  /** The pair (chunk, remaining) that `findOptimalChunk` returns. */
  function OptimalSplit(text: string, maxTokens: nat): (string, string) {
    if CountTokens(text) <= maxTokens then (text, [])
    else Longest(Candidates(text, maxTokens), text)
  }

  /**
   * An empty pick means no candidate has a chunk; otherwise the pick is one
   * of the candidates, no candidate's chunk is longer, and every earlier
   * candidate's chunk is strictly shorter.
   */
  lemma {:induction false} LongestIsLongest(cands: seq<(string, string)>, text: string)
    ensures var best := Longest(cands, text);
      (best.0 == [] ==>
         (best.1 == text && forall i :: 0 <= i < |cands| ==> cands[i].0 == []))
      && (best.0 != [] ==>
            (exists j :: 0 <= j < |cands| && best == cands[j]
               && (forall i :: 0 <= i < j ==> |cands[i].0| < |best.0|)))
      && (forall i :: 0 <= i < |cands| ==> |cands[i].0| <= |best.0|)
  {
    if cands != [] {
      var init := cands[..|cands| - 1];
      LongestIsLongest(init, text);
      assert cands == init + [cands[|cands| - 1]];
      LongestSnoc(init, cands[|cands| - 1], text, Longest(init, text), Longest(cands, text));
    }
  }

  /** The step of `LongestIsLongest`: keeping the better of the pick so far and one more candidate. */
  lemma LongestSnoc(init: seq<(string, string)>, last: (string, string), text: string, prev: (string, string), best: (string, string))
    requires prev.0 == [] ==> prev.1 == text && forall i :: 0 <= i < |init| ==> init[i].0 == []
    requires prev.0 != [] ==>
      exists j :: 0 <= j < |init| && prev == init[j] && (forall i :: 0 <= i < j ==> |init[i].0| < |prev.0|)
    requires forall i :: 0 <= i < |init| ==> |init[i].0| <= |prev.0|
    requires best == if last.0 != [] && |last.0| > |prev.0| then last else prev
    ensures var cands := init + [last];
      (best.0 == [] ==>
         (best.1 == text && forall i :: 0 <= i < |cands| ==> cands[i].0 == []))
      && (best.0 != [] ==>
            (exists j :: 0 <= j < |cands| && best == cands[j]
               && (forall i :: 0 <= i < j ==> |cands[i].0| < |best.0|)))
      && (forall i :: 0 <= i < |cands| ==> |cands[i].0| <= |best.0|)
  {
    var cands := init + [last];
    assert forall i :: 0 <= i < |init| ==> cands[i] == init[i];
    if best == last && best != prev {
      assert best == cands[|init|];
    } else if prev.0 != [] {
      var j :| 0 <= j < |init| && prev == init[j] && (forall i :: 0 <= i < j ==> |init[i].0| < |prev.0|);
      assert best == cands[j];
    }
  }

  /** `findOptimalChunk`: try every delimiter and keep the longest chunk. */
  method FindOptimalChunk(text: string, maxTokens: nat) returns (chunk: string, remaining: string)
    ensures (chunk, remaining) == OptimalSplit(text, maxTokens)
  {
    if CountTokens(text) <= maxTokens {
      return text, [];
    }
    ghost var cands := Candidates(text, maxTokens);
    var bestChunk: string := [];
    var bestRemaining := text;
    for i := 0 to |Boundaries|
      invariant (bestChunk, bestRemaining) == Longest(cands[..i], text)
    {
      var c, rest := TryBoundary(text, Boundaries[i], maxTokens);
      assert cands[..i + 1][..i] == cands[..i];
      if c != [] && |c| > |bestChunk| {
        bestChunk := c;
        bestRemaining := rest;
      }
    }
    assert cands[..|Boundaries|] == cands;
    return bestChunk, bestRemaining;
  }

  /** The characters `forceSplit` accepts as a cut point. */
  predicate IsBreak(c: char) {
    c == ' ' || c == '\n' || c == '\t'
  }

  /** The backward scan of `forceSplit`: the last break at an index in 1..cut, or 0 if there is none. */
  function LastBreak(text: string, cut: nat): (r: nat)
    requires cut < |text|
    ensures r <= cut
    ensures r > 0 ==> IsBreak(text[r])
    ensures forall j :: r < j <= cut ==> !IsBreak(text[j])
    decreases cut
  {
    if cut == 0 then 0
    else if IsBreak(text[cut]) then cut
    else LastBreak(text, cut - 1)
  }

  /** The pair (chunk, remaining) that `forceSplit` returns. */
  function ForcedSplit(text: string, maxTokens: nat): (string, string) {
    var limit := CharLimit(maxTokens);
    if |text| <= limit then (text, [])
    else
      var last := LastBreak(text, limit);
      var cut := if last == 0 then limit else last;
      (text[..cut], TrimSpace(text[cut..]))
  }

  /**
   * A text within the character limit is returned whole. A longer one is cut
   * before the last break (space, newline or tab) at an index in
   * 1..limit, or exactly at the limit if there is none; the remainder is the
   * rest with its surrounding white space trimmed.
   */
  lemma ForcedSplitSpec(text: string, maxTokens: nat)
    ensures var (chunk, rest) := ForcedSplit(text, maxTokens);
      var limit := CharLimit(maxTokens);
      (|text| <= limit ==> chunk == text && rest == [])
      && (|text| > limit ==>
            |chunk| <= limit && chunk == text[..|chunk|] && rest == TrimSpace(text[|chunk|..])
            && ((exists j :: 1 <= j <= limit && IsBreak(text[j])) ==>
                  1 <= |chunk| && IsBreak(text[|chunk|])
                  && forall j :: |chunk| < j <= limit ==> !IsBreak(text[j]))
            && ((forall j :: 1 <= j <= limit ==> !IsBreak(text[j])) ==> |chunk| == limit))
  {
  }

  /** `forceSplit`: cut at the character limit, backing up to white space. */
  method ForceSplit(text: string, maxTokens: nat) returns (chunk: string, remaining: string)
    ensures (chunk, remaining) == ForcedSplit(text, maxTokens)
  {
    var charLimit := maxTokens * 16 / 5;
    if |text| <= charLimit {
      return text, [];
    }
    var cutPoint := charLimit;
    while cutPoint > 0 && cutPoint < |text|
      invariant 0 <= cutPoint <= charLimit
      invariant LastBreak(text, charLimit) == LastBreak(text, cutPoint)
      decreases cutPoint
    {
      if text[cutPoint] == ' ' || text[cutPoint] == '\n' || text[cutPoint] == '\t' {
        break;
      }
      cutPoint := cutPoint - 1;
    }
    if cutPoint == 0 {
      cutPoint := charLimit;
    }
    return text[..cutPoint], TrimSpace(text[cutPoint..]);
  }

  /** One iteration of the `ChunkText` loop: the optimal chunk, or a forced split when there is none. */
  function ChunkStep(text: string, maxTokens: nat): (string, string) {
    var (chunk, rest) := OptimalSplit(text, maxTokens);
    if chunk == [] then ForcedSplit(text, maxTokens) else (chunk, rest)
  }

  /**
   * A delimiter split of over-budget text that yields a chunk: the chunk is
   * within budget, and the text is the chunk, the delimiter and the shorter
   * remainder, or the chunk alone with nothing remaining.
   */
  lemma OptimalStepSound(text: string, maxTokens: nat) returns (gap: string)
    requires CountTokens(text) > maxTokens && OptimalSplit(text, maxTokens).0 != []
    ensures var (chunk, rest) := OptimalSplit(text, maxTokens);
      CountTokens(chunk) <= maxTokens && |rest| < |text|
      && (gap in Boundaries || gap == []) && text == chunk + gap + rest
  {
    var (c, r) := OptimalSplit(text, maxTokens);
    var cands := Candidates(text, maxTokens);
    LongestIsLongest(cands, text);
    var j :| 0 <= j < |cands| && (c, r) == cands[j];
    var b := Boundaries[j];
    BoundarySplitSpec(text, b, maxTokens);
    if c == text && r == [] {
      gap := [];
    } else {
      gap := b;
    }
  }

  /** The character limit never exceeds the rune budget. */
  lemma CharLimitWithinRuneBudget(maxTokens: nat)
    ensures CharLimit(maxTokens) <= RuneBudget(maxTokens)
  {
    var l, q := CharLimit(maxTokens), (10 * maxTokens + 9) / 11;
    assert 5 * l <= 16 * maxTokens;
    assert 11 * q >= 10 * maxTokens - 1;
  }

  /** Over-budget text is longer than the character limit. */
  lemma OverBudgetExceedsCharLimit(text: string, maxTokens: nat)
    requires CountTokens(text) > maxTokens
    ensures |text| > CharLimit(maxTokens)
  {
    FitsIffWithinRuneBudget(text, maxTokens);
    CharLimitWithinRuneBudget(maxTokens);
  }

  /** Past a positive character limit, the forced chunk is a non-empty prefix no longer than the limit. */
  lemma ForcedChunkPrefix(text: string, maxTokens: nat)
    requires 1 <= CharLimit(maxTokens) < |text|
    ensures var (chunk, rest) := ForcedSplit(text, maxTokens);
      1 <= |chunk| <= CharLimit(maxTokens) && chunk == text[..|chunk|] && rest == TrimSpace(text[|chunk|..])
  {
  }

  /**
   * A forced split of over-budget text with a budget of at least one token:
   * a non-empty chunk within budget, and the text is the chunk, some white
   * space, the shorter remainder and more white space.
   */
  lemma ForcedStepSound(text: string, maxTokens: nat) returns (gap: string, tail: string)
    requires maxTokens >= 1 && CountTokens(text) > maxTokens
    ensures var (chunk, rest) := ForcedSplit(text, maxTokens);
      chunk != [] && CountTokens(chunk) <= maxTokens && |rest| < |text|
      && IsBlank(gap) && IsBlank(tail) && text == chunk + gap + rest + tail
  {
    OverBudgetExceedsCharLimit(text, maxTokens);
    ForcedChunkPrefix(text, maxTokens);
    var chunk := ForcedSplit(text, maxTokens).0;
    var after := text[|chunk|..];
    WithinCharLimitFits(chunk, maxTokens);
    gap, tail := TrimSpaceSplits(chunk, after);
    assert text == chunk + after;
  }

  /**
   * A forced split of over-budget text with a zero budget: the character
   * limit is 0, so the cut is at 0, the chunk is empty and the remainder is
   * the text with its surrounding white space trimmed.
   */
  lemma ForcedZeroStep(text: string) returns (gap: string, tail: string)
    requires CountTokens(text) > 0
    ensures var (chunk, rest) := ForcedSplit(text, 0);
      chunk == [] && IsBlank(gap) && IsBlank(tail) && text == chunk + gap + rest + tail
  {
    OverBudgetExceedsCharLimit(text, 0);
    assert CharLimit(0) == 0 && LastBreak(text, 0) == 0;
    assert text[..0] == [] && text[0..] == text;
    assert ForcedSplit(text, 0) == ([], TrimSpace(text));
    var lead, trail := TrimSpaceSplits([], text);
    assert [] + text == text && [] + lead == lead;
    gap, tail := lead, trail;
    assert text == [] + gap + TrimSpace(text) + tail;
  }

  /**
   * One step on over-budget text, at any budget: the chunk is within budget,
   * and the text is the chunk, a gap (a delimiter or white space), the
   * remainder and some trailing white space, in that order. The remainder
   * is strictly shorter unless the step gives back an empty chunk and the
   * text itself; with a budget of at least one token the chunk is never
   * empty and the remainder always shorter.
   */
  lemma ChunkStepSound(text: string, maxTokens: nat) returns (gap: string, tail: string)
    requires CountTokens(text) > maxTokens
    ensures var (chunk, rest) := ChunkStep(text, maxTokens);
      CountTokens(chunk) <= maxTokens && IsGap(gap) && IsBlank(tail) && text == chunk + gap + rest + tail
      && (rest != text ==> |rest| < |text|)
      && (rest == text ==> chunk == [])
      && (maxTokens >= 1 ==> chunk != [] && |rest| < |text|)
  {
    if OptimalSplit(text, maxTokens).0 != [] {
      gap := OptimalStepParts(text, maxTokens);
      tail := [];
    } else {
      gap, tail := ForcedStepParts(text, maxTokens);
    }
    var (chunk, rest) := ChunkStep(text, maxTokens);
    FourPartLengths(text, chunk, gap, rest, tail);
  }

  /** A step that takes a delimiter split. */
  lemma OptimalStepParts(text: string, maxTokens: nat) returns (gap: string)
    requires CountTokens(text) > maxTokens && OptimalSplit(text, maxTokens).0 != []
    ensures var (chunk, rest) := ChunkStep(text, maxTokens);
      CountTokens(chunk) <= maxTokens && IsGap(gap) && text == chunk + gap + rest + []
      && chunk != [] && |rest| < |text|
  {
    var (chunk, rest) := OptimalSplit(text, maxTokens);
    gap := OptimalStepSound(text, maxTokens);
    assert text == chunk + gap + rest + [];
  }

  /** A step that falls back to a forced split. */
  lemma ForcedStepParts(text: string, maxTokens: nat) returns (gap: string, tail: string)
    requires CountTokens(text) > maxTokens && OptimalSplit(text, maxTokens).0 == []
    ensures var (chunk, rest) := ChunkStep(text, maxTokens);
      CountTokens(chunk) <= maxTokens && IsGap(gap) && IsBlank(tail) && text == chunk + gap + rest + tail
      && (maxTokens >= 1 ==> chunk != [] && |rest| < |text|)
  {
    assert ChunkStep(text, maxTokens) == ForcedSplit(text, maxTokens);
    if maxTokens >= 1 {
      gap, tail := ForcedStepSound(text, maxTokens);
    } else {
      gap, tail := ForcedZeroStep(text);
    }
  }

  /** A text made of four parts is no shorter than its third, and as long only when it is that part alone. */
  lemma FourPartLengths(text: string, chunk: string, gap: string, rest: string, tail: string)
    requires text == chunk + gap + rest + tail
    ensures |rest| <= |text|
    ensures |rest| == |text| ==> rest == text && chunk == []
  {
  }

  /** The body of the `ChunkText` loop: the optimal chunk, falling back to a forced split. */
  method NextChunk(text: string, maxTokens: nat) returns (chunk: string, rest: string)
    ensures (chunk, rest) == ChunkStep(text, maxTokens)
  {
    chunk, rest := FindOptimalChunk(text, maxTokens);
    if chunk == [] {
      chunk, rest := ForceSplit(text, maxTokens);
    }
  }

  /** The chunks, each followed by its gap, in order. */
  function Woven(chunks: seq<string>, gaps: seq<string>): string
    requires |gaps| == |chunks|
  {
    if chunks == [] then []
    else Woven(chunks[..|chunks| - 1], gaps[..|gaps| - 1]) + chunks[|chunks| - 1] + gaps[|gaps| - 1]
  }

  /**
   * The text is the chunks in order, each followed by a delimiter or white
   * space, and then only white space: nothing but separators is lost and
   * nothing is duplicated or reordered.
   */
  ghost predicate Reassembles(text: string, chunks: seq<string>) {
    exists gaps: seq<string> ::
      |gaps| == |chunks| && (forall i :: 0 <= i < |gaps| ==> IsGap(gaps[i]))
      && |Woven(chunks, gaps)| <= |text| && text[..|Woven(chunks, gaps)|] == Woven(chunks, gaps)
      && IsBlank(text[|Woven(chunks, gaps)|..])
  }

  /** Appending a chunk and its gap appends them to the woven text. */
  lemma WovenSnoc(chunks: seq<string>, gaps: seq<string>, chunk: string, gap: string)
    requires |gaps| == |chunks|
    ensures Woven(chunks + [chunk], gaps + [gap]) == Woven(chunks, gaps) + chunk + gap
  {
    assert (chunks + [chunk])[..|chunks|] == chunks;
    assert (gaps + [gap])[..|gaps|] == gaps;
  }

  lemma Regroup(w: string, chunk: string, gap: string, rest: string, extra: string, tail: string)
    ensures w + (chunk + gap + rest + extra) + tail == (w + chunk + gap) + rest + (extra + tail)
  {
  }

  /** A text that is the woven chunks followed by white space reassembles from them. */
  lemma WovenReassembles(text: string, chunks: seq<string>, gaps: seq<string>, tail: string)
    requires |gaps| == |chunks| && forall i :: 0 <= i < |gaps| ==> IsGap(gaps[i])
    requires IsBlank(tail) && text == Woven(chunks, gaps) + tail
    ensures Reassembles(text, chunks)
  {
    var woven := Woven(chunks, gaps);
    assert text[..|woven|] == woven && text[|woven|..] == tail;
  }

  /**
   * A remainder on which the `ChunkText` loop never ends: it is non-empty
   * and over budget, and one step gives back an empty chunk and the same
   * remainder, so every later iteration repeats that step.
   */
  predicate Stalls(s: string, maxTokens: nat) {
    |s| > 0 && CountTokens(s) > maxTokens && ChunkStep(s, maxTokens) == ([], s)
  }

  /** Only a zero budget can stall the loop. */
  lemma StallNeedsZeroBudget(s: string, maxTokens: nat)
    requires Stalls(s, maxTokens)
    ensures maxTokens == 0
  {
    var _, _ := ChunkStepSound(s, maxTokens);
  }

  /**
   * `ChunkText`, stopping with an error on a remainder where the source's
   * loop stalls (see README, Findings): text within budget comes back whole;
   * otherwise the chunks are within budget and reassemble the text, and
   * with a budget of at least one token they are non-empty and the call
   * always succeeds. A failure names (as the ghost `stuck`) a stalled
   * remainder taken from the text.
   */
  method ChunkText(text: string, maxTokens: nat) returns (r: Result<seq<string>>, ghost stuck: string)
    ensures CountTokens(text) <= maxTokens ==> r == Success([text])
    ensures maxTokens >= 1 ==> r.Success?
    ensures r.Success? ==> (forall i :: 0 <= i < |r.value| ==> CountTokens(r.value[i]) <= maxTokens)
    ensures r.Success? && CountTokens(text) > maxTokens ==>
      |r.value| >= 1 && (maxTokens >= 1 ==> forall i :: 0 <= i < |r.value| ==> r.value[i] != [])
    ensures r.Success? ==> Reassembles(text, r.value)
    ensures r.Failure? ==> Stalls(stuck, maxTokens) && Contains(text, stuck)
  {
    stuck := [];
    var totalTokens := CountTokens(text);
    if totalTokens <= maxTokens {
      WovenSnoc([], [], text, []);
      WovenReassembles(text, [text], [[]], []);
      return Success([text]), stuck;
    }
    r, stuck := ChunkLoop(text, maxTokens);
  }

  /**
   * The loop of `ChunkText` on over-budget text: take steps while the
   * remainder is over budget, then keep the remainder unless it is blank.
   * A step that gives back the remainder unchanged ends the loop with an
   * error.
   */
  method ChunkLoop(text: string, maxTokens: nat) returns (r: Result<seq<string>>, ghost stuck: string)
    requires CountTokens(text) > maxTokens
    ensures maxTokens >= 1 ==> r.Success?
    ensures r.Success? ==> |r.value| >= 1 && (forall i :: 0 <= i < |r.value| ==> CountTokens(r.value[i]) <= maxTokens)
    ensures r.Success? && maxTokens >= 1 ==> forall i :: 0 <= i < |r.value| ==> r.value[i] != []
    ensures r.Success? ==> Reassembles(text, r.value)
    ensures r.Failure? ==> Stalls(stuck, maxTokens) && Contains(text, stuck)
  {
    stuck := [];
    var chunks: seq<string> := [];
    ghost var gaps: seq<string> := [];
    ghost var tail: string := [];
    var remaining := text;
    assert Woven([], []) + text + [] == text;
    while |remaining| > 0 && CountTokens(remaining) > maxTokens
      invariant Progress(text, chunks, gaps, remaining, tail, maxTokens)
      invariant chunks == [] ==> remaining == text
      decreases |remaining|
    {
      var chunk, rest := NextChunk(remaining, maxTokens);
      ghost var gap, extra := StepKeepsWoven(text, chunks, gaps, remaining, tail, maxTokens);
      if rest == remaining {
        return Failure("no progress splitting the remaining text into chunks of " + NatToString(maxTokens) + " tokens"), remaining;
      }
      chunks := chunks + [chunk];
      gaps := gaps + [gap];
      tail := extra + tail;
      remaining := rest;
    }
    LastPiece(text, chunks, gaps, remaining, tail, maxTokens);
    if |TrimSpace(remaining)| > 0 {
      chunks := chunks + [remaining];
    }
    return Success(chunks), stuck;
  }

  /**
   * The invariant of the `ChunkText` loop: every chunk so far is within
   * budget (and non-empty with a positive budget), and the chunks, each
   * followed by its gap, then the remainder and some white space, make up
   * the text.
   */
  ghost predicate Progress(text: string, chunks: seq<string>, gaps: seq<string>, remaining: string, tail: string, maxTokens: nat) {
    |gaps| == |chunks|
    && (forall i :: 0 <= i < |chunks| ==> CountTokens(chunks[i]) <= maxTokens && (maxTokens >= 1 ==> chunks[i] != []))
    && (forall i :: 0 <= i < |gaps| ==> IsGap(gaps[i]))
    && IsBlank(tail) && text == Woven(chunks, gaps) + remaining + tail
  }

  /** One step of the loop keeps the text woven from the chunks so far, the remainder and white space. */
  lemma StepKeepsWoven(text: string, chunks: seq<string>, gaps: seq<string>, remaining: string, tail: string, maxTokens: nat)
    returns (gap: string, extra: string)
    requires CountTokens(remaining) > maxTokens && Progress(text, chunks, gaps, remaining, tail, maxTokens)
    ensures var (chunk, rest) := ChunkStep(remaining, maxTokens);
      (maxTokens >= 1 ==> rest != remaining)
      && (rest == remaining ==> chunk == [] && Contains(text, remaining))
      && (rest != remaining ==>
            |rest| < |remaining| && Progress(text, chunks + [chunk], gaps + [gap], rest, extra + tail, maxTokens))
  {
    var (chunk, rest) := ChunkStep(remaining, maxTokens);
    gap, extra := ChunkStepSound(remaining, maxTokens);
    if rest == remaining {
      ContainsMiddle(Woven(chunks, gaps), remaining, tail);
    } else {
      WovenSnoc(chunks, gaps, chunk, gap);
      Regroup(Woven(chunks, gaps), chunk, gap, rest, extra, tail);
      BlankConcat(extra, tail);
      var chunks', gaps' := chunks + [chunk], gaps + [gap];
      assert forall i :: 0 <= i < |chunks| ==> chunks'[i] == chunks[i];
      assert forall i :: 0 <= i < |gaps| ==> gaps'[i] == gaps[i];
    }
  }

  /**
   * When the loop ends, the chunks with the remainder appended when it is
   * not blank are at least one chunk, each within budget (and non-empty
   * with a positive budget), and they reassemble the text.
   */
  lemma LastPiece(text: string, chunks: seq<string>, gaps: seq<string>, remaining: string, tail: string, maxTokens: nat)
    requires Progress(text, chunks, gaps, remaining, tail, maxTokens) && chunks != []
    requires |remaining| == 0 || CountTokens(remaining) <= maxTokens
    ensures var last := if |TrimSpace(remaining)| > 0 then chunks + [remaining] else chunks;
      |last| >= 1 && (forall i :: 0 <= i < |last| ==> CountTokens(last[i]) <= maxTokens)
      && (maxTokens >= 1 ==> forall i :: 0 <= i < |last| ==> last[i] != [])
      && Reassembles(text, last)
  {
    if |TrimSpace(remaining)| > 0 {
      LastPieceKept(text, chunks, gaps, remaining, tail);
      var last := chunks + [remaining];
      assert forall i :: 0 <= i < |chunks| ==> last[i] == chunks[i];
    } else {
      LastPieceDropped(text, chunks, gaps, remaining, tail);
    }
  }

  /** After the loop, a remainder that is not blank is kept as the last chunk. */
  lemma LastPieceKept(text: string, chunks: seq<string>, gaps: seq<string>, remaining: string, tail: string)
    requires |gaps| == |chunks| && forall i :: 0 <= i < |gaps| ==> IsGap(gaps[i])
    requires IsBlank(tail) && text == Woven(chunks, gaps) + remaining + tail
    ensures Reassembles(text, chunks + [remaining])
  {
    WovenSnoc(chunks, gaps, remaining, []);
    assert Woven(chunks, gaps) + remaining + [] == Woven(chunks, gaps) + remaining;
    assert IsGap([]);
    WovenReassembles(text, chunks + [remaining], gaps + [[]], tail);
  }

  /** After the loop, a blank remainder is dropped. */
  lemma LastPieceDropped(text: string, chunks: seq<string>, gaps: seq<string>, remaining: string, tail: string)
    requires |gaps| == |chunks| && forall i :: 0 <= i < |gaps| ==> IsGap(gaps[i])
    requires IsBlank(remaining) && IsBlank(tail) && text == Woven(chunks, gaps) + remaining + tail
    ensures Reassembles(text, chunks)
  {
    BlankConcat(remaining, tail);
    AppendAssoc(Woven(chunks, gaps), remaining, tail);
    WovenReassembles(text, chunks, gaps, remaining + tail);
  }

  /**
   * Finding: a text of at least four runes with no white space at all makes
   * the `ChunkText` loop stall when the budget is zero. The step yields an
   * empty chunk and the same remainder, and the remainder is still over
   * budget, so the loop never ends.
   */
  lemma ZeroBudgetStalls(text: string)
    requires |text| >= 4 && forall i :: 0 <= i < |text| ==> !IsSpace(text[i])
    ensures Stalls(text, 0)
  {
    NoBoundaryWithoutSpace(text);
    assert OptimalSplit(text, 0).0 == [] by {
      LongestIsLongest(Candidates(text, 0), text);
    }
    assert TrimSpace(text) == text;
  }

  /** Every delimiter ends in white space, so text without white space splits at none of them. */
  lemma NoBoundaryWithoutSpace(text: string)
    requires forall i :: 0 <= i < |text| ==> !IsSpace(text[i])
    ensures forall j :: 0 <= j < |Boundaries| ==> BoundarySplit(text, Boundaries[j], 0) == ([], text)
  {
    forall j | 0 <= j < |Boundaries|
      ensures BoundarySplit(text, Boundaries[j], 0) == ([], text)
    {
      var b := Boundaries[j];
      assert IsSpace(b[|b| - 1]);
      forall i | 0 <= i <= |text| - |b|
        ensures !OccursAt(text, b, i)
      {
        assert text[i..i + |b|][|b| - 1] == text[i + |b| - 1];
      }
    }
  }

  /** `GetEstimatedChunkCount`: 1 for text within budget, else the estimate divided by the budget, rounded up. */
  function EstimatedChunkCount(text: string, maxTokens: nat): (r: nat)
    requires maxTokens > 0 || CountTokens(text) == 0
    ensures CountTokens(text) <= maxTokens ==> r == 1
    ensures CountTokens(text) > maxTokens ==> (r - 1) * maxTokens < CountTokens(text) <= r * maxTokens
  {
    var total := CountTokens(text);
    if total <= maxTokens then 1
    else
      var r := (total + maxTokens - 1) / maxTokens;
      assert (r - 1) * maxTokens < total <= r * maxTokens by {
        var s := total + maxTokens - 1;
        assert s == maxTokens * r + s % maxTokens;
        assert (r - 1) * maxTokens == maxTokens * r - maxTokens;
      }
      r
  }

  /** The piece count of `strings.Split`; with an empty separator Go splits into single runes. */
  function PieceCount(text: string, b: string): nat {
    if b == [] then |text| else |Split(text, b)|
  }

  /**
   * `ValidateBoundary`: more than one piece, and fewer pieces than a tenth of
   * the length. A delimiter that passes occurs in the text and the text has
   * at least 30 runes; the empty delimiter never passes.
   */
  function ValidateBoundary(text: string, b: string): (ok: bool)
    ensures ok ==> Contains(text, b) && |text| >= 30
    ensures b == [] ==> !ok
  {
    var n := PieceCount(text, b);
    n > 1 && n < |text| / 10
  }
}
