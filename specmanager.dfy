/**
 * The spec manager (cli/internal/specs/manager.go): listing cached specs in
 * slug order and resolving a user's identifier to one spec.
 */
module SpecManager {
  import opened Wrappers
  import opened Text
  import opened SpecTypes
  import opened Filtering
  import opened SpecCache

  // ---------------------------------------------------------------------
  // Slugs and their display
  // ---------------------------------------------------------------------

  /** The slugs of `specs`, in order. */
  function SlugsOf(specs: seq<Spec>): (slugs: seq<string>)
    ensures |slugs| == |specs|
    ensures forall i :: 0 <= i < |specs| ==> slugs[i] == specs[i].slug
  {
    seq(|specs|, i requires 0 <= i < |specs| => specs[i].slug)
  }

  /** `getSpeSlugs`: collects the slugs of `specs` one by one. */
  method GetSpeSlugs(specs: seq<Spec>) returns (slugs: seq<string>)
    ensures slugs == SlugsOf(specs)
  {
    slugs := [];
    for i := 0 to |specs|
      invariant slugs == SlugsOf(specs[..i])
    {
      slugs := slugs + [specs[i].slug];
    }
    assert specs[..|specs|] == specs;
  }

  /** Go's `%v` of a `[]string`: the elements separated by single spaces, in brackets. */
  function ListText(slugs: seq<string>): string {
    "[" + Join(slugs, " ") + "]"
  }

  /** Every listed slug appears in the text of the list. */
  lemma ListTextShows(specs: seq<Spec>, k: nat)
    requires k < |specs|
    ensures Contains(ListText(SlugsOf(specs)), specs[k].slug)
  {
    var slugs := SlugsOf(specs);
    JoinContains(slugs, " ", k);
    ContainsMiddle("[", Join(slugs, " "), "]");
    ContainsTransitive(ListText(slugs), Join(slugs, " "), slugs[k]);
  }

  // ---------------------------------------------------------------------
  // Resolving an identifier
  // ---------------------------------------------------------------------

  /** The lower-cased slug equals `lower`. */
  predicate SlugIs(spec: Spec, lower: string) {
    ToLower(spec.slug) == lower
  }

  /** The lower-cased slug contains `lower` without equalling it. */
  predicate SlugHas(spec: Spec, lower: string) {
    ToLower(spec.slug) != lower && Contains(ToLower(spec.slug), lower)
  }

  /** The search results whose slug matches the identifier exactly, ignoring case. */
  function ExactMatches(specs: seq<Spec>, lower: string): seq<Spec> {
    Filter(specs, spec => SlugIs(spec, lower))
  }

  /** The search results whose slug only contains the identifier, ignoring case. */
  function PartialMatches(specs: seq<Spec>, lower: string): seq<Spec> {
    Filter(specs, spec => SlugHas(spec, lower))
  }

  /**
   * The choice `GetSpec` makes among the search results for `identifier`:
   * none is an error, a single one is taken, then a unique exact slug, then a
   * unique partial slug; anything else is an error.
   */
  function Pick(identifier: string, specs: seq<Spec>): Result<Spec> {
    if |specs| == 0 then Failure("no specs found matching '" + identifier + "'")
    else if |specs| == 1 then Success(specs[0])
    else
      var lower := ToLower(identifier);
      var exact := ExactMatches(specs, lower);
      var partial := PartialMatches(specs, lower);
      if |exact| == 1 then Success(exact[0])
      else if |exact| > 1 then
        Failure("multiple exact matches for '" + identifier + "': " + ListText(SlugsOf(exact)))
      else if |partial| == 1 then Success(partial[0])
      else Failure("multiple matches for '" + identifier + "': " + ListText(SlugsOf(specs)))
  }

  /** `GetSpec`: a cache hit on the identifier as a slug, else a choice among the search results. */
  function Get(files: map<string, Entry>, specType: string, identifier: string): Result<Spec> {
    var hit := Load(files, specType, identifier);
    if hit.Success? then hit
    else Pick(identifier, Search(Listed(files, specType), identifier))
  }

  /** A file stored under the identifier is returned as is, whatever else matches. */
  lemma GetCacheHit(files: map<string, Entry>, specType: string, identifier: string)
    requires FileName(specType, identifier) in files
    requires files[FileName(specType, identifier)].Stored?
    ensures Get(files, specType, identifier) == Success(files[FileName(specType, identifier)].spec)
  {
  }

  /** Without a cache hit, no search result is an error. */
  lemma PickNone(identifier: string)
    ensures Pick(identifier, []) == Failure("no specs found matching '" + identifier + "'")
  {
  }

  /** A single search result is taken, even when only its title matched. */
  lemma PickSingle(identifier: string, spec: Spec)
    ensures Pick(identifier, [spec]) == Success(spec)
  {
  }

  /** Among several results, the one whose slug equals the identifier (ignoring case) wins. */
  lemma PickExactUnique(identifier: string, specs: seq<Spec>, k: nat)
    requires |specs| >= 2 && k < |specs|
    requires SlugIs(specs[k], ToLower(identifier))
    requires forall i :: 0 <= i < |specs| && i != k ==> !SlugIs(specs[i], ToLower(identifier))
    ensures Pick(identifier, specs) == Success(specs[k])
  {
    FilterUnique(specs, spec => SlugIs(spec, ToLower(identifier)), k);
  }

  /** Two results with the identifier as slug are ambiguous, and the error lists both. */
  lemma PickExactAmbiguous(identifier: string, specs: seq<Spec>, i: nat, j: nat)
    requires i < j < |specs|
    requires SlugIs(specs[i], ToLower(identifier)) && SlugIs(specs[j], ToLower(identifier))
    ensures Pick(identifier, specs) ==
            Failure("multiple exact matches for '" + identifier + "': " +
                    ListText(SlugsOf(ExactMatches(specs, ToLower(identifier)))))
    ensures Contains(Pick(identifier, specs).error, specs[i].slug)
    ensures Contains(Pick(identifier, specs).error, specs[j].slug)
  {
    var lower := ToLower(identifier);
    var exact := ExactMatches(specs, lower);
    FilterTwo(specs, spec => SlugIs(spec, lower), i, j);
    var prefix := "multiple exact matches for '" + identifier + "': ";
    forall s | s in {specs[i], specs[j]}
      ensures Contains(prefix + ListText(SlugsOf(exact)), s.slug)
    {
      FilterMembers(specs, spec => SlugIs(spec, lower), s);
      var k :| 0 <= k < |exact| && exact[k] == s;
      ListTextShows(exact, k);
      ContainsAfter(prefix, ListText(SlugsOf(exact)), s.slug);
    }
  }

  /** With no exact slug, a single slug containing the identifier wins. */
  lemma PickPartialUnique(identifier: string, specs: seq<Spec>, k: nat)
    requires |specs| >= 2 && k < |specs|
    requires forall i :: 0 <= i < |specs| ==> !SlugIs(specs[i], ToLower(identifier))
    requires SlugHas(specs[k], ToLower(identifier))
    requires forall i :: 0 <= i < |specs| && i != k ==> !SlugHas(specs[i], ToLower(identifier))
    ensures Pick(identifier, specs) == Success(specs[k])
  {
    FilterNone(specs, spec => SlugIs(spec, ToLower(identifier)));
    FilterUnique(specs, spec => SlugHas(spec, ToLower(identifier)), k);
  }

  /** Otherwise the error lists the slugs of all the results. */
  lemma PickUndecided(identifier: string, specs: seq<Spec>, k: nat)
    requires |specs| >= 2 && k < |specs|
    requires forall i :: 0 <= i < |specs| ==> !SlugIs(specs[i], ToLower(identifier))
    requires |PartialMatches(specs, ToLower(identifier))| != 1
    ensures Pick(identifier, specs) ==
            Failure("multiple matches for '" + identifier + "': " + ListText(SlugsOf(specs)))
    ensures Contains(Pick(identifier, specs).error, specs[k].slug)
  {
    FilterNone(specs, spec => SlugIs(spec, ToLower(identifier)));
    var prefix := "multiple matches for '" + identifier + "': ";
    ListTextShows(specs, k);
    ContainsAfter(prefix, ListText(SlugsOf(specs)), specs[k].slug);
  }

  /**
   * Whatever is picked is one of the results, and it is either the only
   * result, the only exact slug, or (with no exact slug) the only partial one.
   */
  lemma PickChoosesResult(identifier: string, specs: seq<Spec>)
    requires Pick(identifier, specs).Success?
    ensures var s := Pick(identifier, specs).value;
            var lower := ToLower(identifier);
            s in specs &&
            (|specs| == 1 ||
             (SlugIs(s, lower) && |ExactMatches(specs, lower)| == 1) ||
             (SlugHas(s, lower) && ExactMatches(specs, lower) == [] &&
              |PartialMatches(specs, lower)| == 1))
  {
    var lower := ToLower(identifier);
    if |specs| >= 2 {
      var exact := ExactMatches(specs, lower);
      var partial := PartialMatches(specs, lower);
      if |exact| == 1 {
        FilterMembers(specs, spec => SlugIs(spec, lower), exact[0]);
      } else {
        FilterMembers(specs, spec => SlugHas(spec, lower), partial[0]);
      }
    }
  }

  /** The loop of `GetSpec` that sorts the results into exact and partial slug matches. */
  method CollectMatches(specs: seq<Spec>, lower: string) returns (exact: seq<Spec>, partial: seq<Spec>)
    ensures exact == ExactMatches(specs, lower)
    ensures partial == PartialMatches(specs, lower)
  {
    exact, partial := [], [];
    for i := 0 to |specs|
      invariant exact == ExactMatches(specs[..i], lower)
      invariant partial == PartialMatches(specs[..i], lower)
    {
      FilterSnoc(specs[..i], specs[i], spec => SlugIs(spec, lower));
      FilterSnoc(specs[..i], specs[i], spec => SlugHas(spec, lower));
      assert specs[..i + 1] == specs[..i] + [specs[i]];
      var slug := ToLower(specs[i].slug);
      if slug == lower {
        exact := exact + [specs[i]];
      } else if Contains(slug, lower) {
        partial := partial + [specs[i]];
      }
    }
    assert specs[..|specs|] == specs;
  }

  // ---------------------------------------------------------------------
  // Sorting by slug
  // ---------------------------------------------------------------------

  /** Non-decreasing by slug in Go's string order. */
  predicate SlugSorted(specs: seq<Spec>) {
    forall i, j :: 0 <= i < j < |specs| ==> !Less(specs[j].slug, specs[i].slug)
  }

  /** "At most" in Go's string order is transitive. */
  lemma AtMostTransitive(a: string, b: string, c: string)
    requires !Less(b, a) && !Less(c, b)
    ensures !Less(c, a)
  {
    LessTotal(a, b);
    LessTotal(b, c);
    if Less(c, a) {
      if Less(a, b) && Less(b, c) {
        LessTransitive(a, b, c);
        LessAsymmetric(a, c);
      }
    }
  }

  /** Places `x` in a slug-sorted sequence. */
  function Insert(x: Spec, sorted: seq<Spec>): (r: seq<Spec>)
    ensures multiset(r) == multiset(sorted) + multiset{x}
  {
    if sorted == [] || !Less(sorted[0].slug, x.slug) then [x] + sorted
    else
      assert sorted == [sorted[0]] + sorted[1..];
      [sorted[0]] + Insert(x, sorted[1..])
  }

  lemma {:induction false} InsertSorted(x: Spec, sorted: seq<Spec>)
    requires SlugSorted(sorted)
    ensures SlugSorted(Insert(x, sorted))
  {
    if sorted == [] {
    } else if !Less(sorted[0].slug, x.slug) {
      var r := Insert(x, sorted);
      forall i, j | 0 <= i < j < |r|
        ensures !Less(r[j].slug, r[i].slug)
      {
        if i == 0 && j > 1 {
          AtMostTransitive(x.slug, sorted[0].slug, sorted[j - 1].slug);
        }
      }
    } else {
      var rest := Insert(x, sorted[1..]);
      InsertSorted(x, sorted[1..]);
      var r := [sorted[0]] + rest;
      forall j | 0 < j < |r|
        ensures !Less(r[j].slug, sorted[0].slug)
      {
        assert r[j] in multiset(rest);
        if r[j] == x {
          LessAsymmetric(sorted[0].slug, x.slug);
        } else {
          assert r[j] in sorted[1..];
        }
      }
    }
  }

  /** A slug-sorted rearrangement of `specs`. */
  function SortBySlug(specs: seq<Spec>): (r: seq<Spec>)
    ensures multiset(r) == multiset(specs)
    ensures SlugSorted(r)
  {
    if specs == [] then []
    else
      var rest := SortBySlug(specs[1..]);
      InsertSorted(specs[0], rest);
      assert specs == [specs[0]] + specs[1..];
      Insert(specs[0], rest)
  }

  // ---------------------------------------------------------------------
  // The manager object
  // ---------------------------------------------------------------------

  class Manager {
    const cache: Cache

    constructor (cache: Cache)
      ensures this.cache == cache
    {
      this.cache := cache;
    }

    /**
     * `ListSpecs`: the search results rearranged into slug order. Go's
     * `sort.Slice` is not stable, so only the order by slug is promised.
     */
    method ListSpecs(specType: string, search: string) returns (specs: seq<Spec>)
      ensures multiset(specs) == multiset(Search(Listed(cache.files, specType), search))
      ensures SlugSorted(specs)
    {
      var found := cache.SearchSpecs(specType, search);
      specs := SortBySlug(found);
    }

    /** `GetSpec`: resolves an identifier to a spec of the type. */
    method GetSpec(specType: string, identifier: string) returns (r: Result<Spec>)
      ensures r == Get(cache.files, specType, identifier)
    {
      var hit := cache.LoadSpec(specType, identifier);
      if hit.Success? {
        return hit;
      }
      var specs := cache.SearchSpecs(specType, identifier);
      if |specs| == 0 {
        return Failure("no specs found matching '" + identifier + "'");
      }
      if |specs| == 1 {
        return Success(specs[0]);
      }
      var exact, partial := CollectMatches(specs, ToLower(identifier));
      if |exact| == 1 {
        return Success(exact[0]);
      }
      if |exact| > 1 {
        var slugs := GetSpeSlugs(exact);
        return Failure("multiple exact matches for '" + identifier + "': " + ListText(slugs));
      }
      if |partial| == 1 {
        return Success(partial[0]);
      }
      var slugs := GetSpeSlugs(specs);
      r := Failure("multiple matches for '" + identifier + "': " + ListText(slugs));
    }
  }
}
