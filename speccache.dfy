/**
 * The on-disk spec cache (cli/internal/specs/cache.go): one JSON file per
 * spec, named `<type>_<slug>.json`, in a single cache directory.
 *
 * The directory is a map from file name to what reading that file yields:
 * a decoded spec, a read error or a decode error. A name absent from the
 * map is a file that does not exist.
 */
module SpecCache {
  import opened Wrappers
  import opened Text
  import opened SpecTypes
  import opened Filtering

  /** What `os.ReadFile` followed by `json.Unmarshal` makes of one cache file. */
  datatype Entry =
    | Stored(spec: Spec)          // the file reads and decodes to a spec
    | Unreadable(error: string)   // `os.ReadFile` fails for a file that exists
    | Undecodable(error: string)  // the bytes are not a JSON spec

  /** The file name `fmt.Sprintf("%s_%s.json", type, slug)` used by both saving and loading. */
  function FileName(specType: string, slug: string): string {
    specType + "_" + slug + ".json"
  }

  /** The glob `<type>_*.json`: the type and an underscore, anything, then `.json`. */
  predicate MatchesType(name: string, specType: string) {
    |specType| + 6 <= |name| &&
    name[..|specType| + 1] == specType + "_" &&
    name[|name| - 5..] == ".json"
  }

  /** The slug back out of a file name of the given type. */
  function SlugOf(name: string, specType: string): string
    requires MatchesType(name, specType)
  {
    name[|specType| + 1..|name| - 5]
  }

  /** Every saved file is found by the glob of its own type, and names its slug. */
  lemma FileNameMatches(specType: string, slug: string)
    ensures MatchesType(FileName(specType, slug), specType)
    ensures SlugOf(FileName(specType, slug), specType) == slug
  {
    var name := FileName(specType, slug);
    assert name == (specType + "_") + slug + ".json";
  }

  /**
   * For the two spec types the file name determines type and slug, so a
   * save of one spec never overwrites another, and an artifact file is never
   * found by the extractor glob nor the other way round.
   */
  lemma FileNameInjective(t1: string, s1: string, t2: string, s2: string)
    requires t1 in {Artifacts, Extractors} && t2 in {Artifacts, Extractors}
    ensures FileName(t1, s1) == FileName(t2, s2) <==> t1 == t2 && s1 == s2
    ensures MatchesType(FileName(t1, s1), t2) <==> t1 == t2
  {
    FileNameMatches(t1, s1);
    FileNameMatches(t2, s2);
    if t1 != t2 {
      assert FileName(t1, s1)[0] != FileName(t2, s2)[0];
    }
  }

  // ---------------------------------------------------------------------
  // Loading
  // ---------------------------------------------------------------------

  /** `LoadSpec`: the outcome of reading `<type>_<slug>.json`. */
  function Load(files: map<string, Entry>, specType: string, slug: string): Result<Spec> {
    var name := FileName(specType, slug);
    if name !in files then Failure("spec " + slug + " not found in cache")
    else match files[name]
      case Unreadable(e) => Failure("failed to read cached spec: " + e)
      case Undecodable(e) => Failure("failed to unmarshal cached spec: " + e)
      case Stored(spec) => Success(spec)
  }

  /** Loading succeeds exactly for a stored file, and says which way it failed otherwise. */
  lemma LoadOutcome(files: map<string, Entry>, specType: string, slug: string)
    ensures var name := FileName(specType, slug);
            var r := Load(files, specType, slug);
            (r.Success? <==> name in files && files[name].Stored?) &&
            (r.Success? ==> r.value == files[name].spec) &&
            (name !in files ==> r == Failure("spec " + slug + " not found in cache")) &&
            (name in files && files[name].Unreadable? ==>
               r == Failure("failed to read cached spec: " + files[name].error)) &&
            (name in files && files[name].Undecodable? ==>
               r == Failure("failed to unmarshal cached spec: " + files[name].error))
  {
  }

  // ---------------------------------------------------------------------
  // Listing: the glob, in file-name order, skipping files that fail
  // ---------------------------------------------------------------------

  /** `m` is the least of `names` in Go's string order. */
  predicate IsLeast(m: string, names: set<string>) {
    m in names && forall x :: x in names ==> x == m || Less(m, x)
  }

  lemma {:induction false} LeastExists(names: set<string>)
    requires names != {}
    ensures exists m :: IsLeast(m, names)
  {
    var y :| y in names;
    if names == {y} {
      assert IsLeast(y, names);
    } else {
      LeastExists(names - {y});
      var m :| IsLeast(m, names - {y});
      LessTotal(y, m);
      if Less(y, m) {
        forall x | x in names
          ensures x == y || Less(y, x)
        {
          if x != y && x != m { LessTransitive(y, m, x); }
        }
        assert IsLeast(y, names);
      } else {
        assert IsLeast(m, names);
      }
    }
  }

  lemma LeastUnique(names: set<string>)
    ensures forall a, b :: IsLeast(a, names) && IsLeast(b, names) ==> a == b
  {
    forall a, b | IsLeast(a, names) && IsLeast(b, names)
      ensures a == b
    {
      if a != b { LessAsymmetric(a, b); }
    }
  }

  /** The least name of a non-empty set. */
  function Least(names: set<string>): (m: string)
    requires names != {}
    ensures IsLeast(m, names)
  {
    LeastExists(names);
    LeastUnique(names);
    var m :| IsLeast(m, names);
    m
  }

  /** Strictly increasing in Go's string order. */
  predicate Ascending(names: seq<string>) {
    forall i, j :: 0 <= i < j < |names| ==> Less(names[i], names[j])
  }

  /** The names of a set in increasing order, as `filepath.Glob` returns them. */
  function SortedNames(names: set<string>): (r: seq<string>)
    ensures |r| == |names|
    ensures forall x :: x in r <==> x in names
    ensures Ascending(r)
    decreases |names|
  {
    if names == {} then []
    else
      var m := Least(names);
      var rest := SortedNames(names - {m});
      assert forall j :: 0 <= j < |rest| ==> rest[j] in names - {m};
      [m] + rest
  }

  /** `filepath.Glob(<dir>/<type>_*.json)`: the matching file names in order. */
  function Listing(files: map<string, Entry>, specType: string): (r: seq<string>)
    ensures forall name :: name in r <==> name in files && MatchesType(name, specType)
    ensures Ascending(r)
  {
    SortedNames(set name | name in files && MatchesType(name, specType))
  }

  /** The specs decoded from `names` in order; a file that fails to read or decode is skipped. */
  function Readable(files: map<string, Entry>, names: seq<string>): (r: seq<Spec>)
    requires forall n :: n in names ==> n in files
    ensures |r| <= |names|
  {
    if names == [] then []
    else
      var init := Readable(files, names[..|names| - 1]);
      match files[names[|names| - 1]]
      case Stored(spec) => init + [spec]
      case _ => init
  }

  /** One more file read: it adds its spec if it holds one. */
  lemma ReadableSnoc(files: map<string, Entry>, names: seq<string>, name: string)
    requires forall n :: n in names ==> n in files
    requires name in files
    ensures Readable(files, names + [name]) ==
            Readable(files, names) + (if files[name].Stored? then [files[name].spec] else [])
  {
    assert (names + [name])[..|names|] == names;
  }

  /** `Cache.ListSpecs`: every readable spec file of the type, in file-name order. */
  function Listed(files: map<string, Entry>, specType: string): seq<Spec> {
    Readable(files, Listing(files, specType))
  }

  lemma {:induction false} ReadableMembers(files: map<string, Entry>, names: seq<string>, spec: Spec)
    requires forall n :: n in names ==> n in files
    ensures spec in Readable(files, names) <==> exists n :: n in names && files[n] == Stored(spec)
  {
    if names != [] {
      var init := names[..|names| - 1];
      ReadableMembers(files, init, spec);
      assert names == init + [names[|names| - 1]];
    }
  }

  /**
   * Listing never fails because of a bad file: a spec is listed exactly when
   * some file of the type holds it, and unreadable or undecodable files add
   * nothing.
   */
  lemma ListedMembers(files: map<string, Entry>, specType: string, spec: Spec)
    ensures spec in Listed(files, specType) <==>
            exists name :: name in files && MatchesType(name, specType) && files[name] == Stored(spec)
  {
    ReadableMembers(files, Listing(files, specType), spec);
  }

  /** A listing with no stored file of the type is empty rather than an error. */
  lemma {:induction false} ReadableNone(files: map<string, Entry>, names: seq<string>)
    requires forall n :: n in names ==> n in files && !files[n].Stored?
    ensures Readable(files, names) == []
  {
    if names != [] {
      ReadableNone(files, names[..|names| - 1]);
    }
  }

  // ---------------------------------------------------------------------
  // Searching
  // ---------------------------------------------------------------------

  /** The slug or title contains `term`, both lower-cased; `term` is already lower case. */
  predicate Mentions(spec: Spec, term: string) {
    Contains(ToLower(spec.slug), term) || Contains(ToLower(spec.title), term)
  }

  /** The filter of `SearchSpecs`: everything for an empty search, else the specs mentioning it. */
  function Search(specs: seq<Spec>, search: string): seq<Spec> {
    if search == "" then specs
    else Filter(specs, spec => Mentions(spec, ToLower(search)))
  }

  /** A non-empty search keeps exactly the specs whose slug or title contains it, ignoring case. */
  lemma SearchMembers(specs: seq<Spec>, search: string, spec: Spec)
    requires search != ""
    ensures spec in Search(specs, search) <==>
            spec in specs && (Contains(ToLower(spec.slug), ToLower(search)) ||
                              Contains(ToLower(spec.title), ToLower(search)))
  {
    FilterMembers(specs, spec => Mentions(spec, ToLower(search)), spec);
  }

  /** The case of the search term does not matter. */
  lemma SearchIgnoresCase(specs: seq<Spec>, search: string)
    ensures Search(specs, ToLower(search)) == Search(specs, search)
  {
    var lower := ToLower(search);
    assert ToLower(lower) == lower;
  }

  /**
   * Every spec already matches the empty search, and a search only removes:
   * what it keeps are specs of the listing at increasing `positions`, in
   * the listing's order.
   */
  lemma SearchShrinks(specs: seq<Spec>, search: string) returns (positions: seq<nat>)
    ensures |Search(specs, search)| <= |specs|
    ensures search == "" ==> Search(specs, search) == specs
    ensures forall s :: s in Search(specs, search) ==> s in specs
    ensures InOrderAt(Search(specs, search), specs, positions)
  {
    if search == "" {
      positions := seq(|specs|, i => i);
    } else {
      positions := FilterInOrder(specs, spec => Mentions(spec, ToLower(search)));
      forall s | s in Search(specs, search)
        ensures s in specs
      {
        SearchMembers(specs, search, s);
      }
    }
  }

  /** The loop of `ListSpecs`: reads the globbed files in order, skipping those that fail. */
  method ReadAll(files: map<string, Entry>, names: seq<string>) returns (specs: seq<Spec>)
    requires forall n :: n in names ==> n in files
    ensures specs == Readable(files, names)
  {
    specs := [];
    for i := 0 to |names|
      invariant specs == Readable(files, names[..i])
    {
      ReadableSnoc(files, names[..i], names[i]);
      assert names[..i + 1] == names[..i] + [names[i]];
      match files[names[i]]
      case Stored(spec) =>
        specs := specs + [spec];
      case _ =>
    }
    assert names[..|names|] == names;
  }

  // ---------------------------------------------------------------------
  // The cache object
  // ---------------------------------------------------------------------

  class Cache {
    /** The cache directory's files. */
    var files: map<string, Entry>

    constructor (files: map<string, Entry>)
      ensures this.files == files
    {
      this.files := files;
    }

    /**
     * `SaveSpec`: stamps the spec with the current time and writes it under
     * its type and slug, replacing any earlier file of that name. The
     * stamped spec is returned, as Go updates the caller's spec in place.
     */
    method SaveSpec(spec: Spec, now: nat) returns (saved: Spec)
      modifies this
      ensures saved == spec.(lastUpdated := now)
      ensures files == old(files)[FileName(spec.specType, spec.slug) := Stored(saved)]
    {
      saved := spec.(lastUpdated := now);
      files := files[FileName(spec.specType, spec.slug) := Stored(saved)];
    }

    /** `LoadSpec`. */
    method LoadSpec(specType: string, slug: string) returns (r: Result<Spec>)
      ensures r == Load(files, specType, slug)
    {
      var name := FileName(specType, slug);
      if name !in files {
        return Failure("spec " + slug + " not found in cache");
      }
      match files[name]
      case Unreadable(e) =>
        r := Failure("failed to read cached spec: " + e);
      case Undecodable(e) =>
        r := Failure("failed to unmarshal cached spec: " + e);
      case Stored(spec) =>
        r := Success(spec);
    }

    /** `ListSpecs`: reads every globbed file in turn and skips those that fail. */
    method ListSpecs(specType: string) returns (specs: seq<Spec>)
      ensures specs == Listed(files, specType)
    {
      var matches := Listing(files, specType);
      specs := ReadAll(files, matches);
    }

    /** `SearchSpecs`: the listed specs, filtered by a case-insensitive search. */
    method SearchSpecs(specType: string, search: string) returns (specs: seq<Spec>)
      ensures specs == Search(Listed(files, specType), search)
    {
      var listed := ListSpecs(specType);
      if search == "" {
        return listed;
      }
      var term := ToLower(search);
      ghost var keep := (spec: Spec) => Mentions(spec, ToLower(search));
      specs := [];
      for i := 0 to |listed|
        invariant specs == Filter(listed[..i], keep)
      {
        FilterSnoc(listed[..i], listed[i], keep);
        assert listed[..i + 1] == listed[..i] + [listed[i]];
        if Contains(ToLower(listed[i].slug), term) || Contains(ToLower(listed[i].title), term) {
          specs := specs + [listed[i]];
        }
      }
      assert listed[..|listed|] == listed;
    }
  }

  /** Saving then loading by the same type and slug yields the stamped spec. */
  lemma SaveThenLoad(files: map<string, Entry>, spec: Spec, now: nat)
    ensures var saved := spec.(lastUpdated := now);
            Load(files[FileName(spec.specType, spec.slug) := Stored(saved)], spec.specType, spec.slug)
              == Success(saved)
  {
  }

  /** Saving one spec leaves every other spec of the two types loadable as before. */
  lemma SaveKeepsOthers(files: map<string, Entry>, spec: Spec, now: nat, specType: string, slug: string)
    requires spec.specType in {Artifacts, Extractors} && specType in {Artifacts, Extractors}
    requires specType != spec.specType || slug != spec.slug
    ensures Load(files[FileName(spec.specType, spec.slug) := Stored(spec.(lastUpdated := now))], specType, slug)
            == Load(files, specType, slug)
  {
    FileNameInjective(spec.specType, spec.slug, specType, slug);
  }

  /** A saved spec shows up in the listing of its own type. */
  lemma SaveThenList(files: map<string, Entry>, spec: Spec, now: nat)
    ensures var saved := spec.(lastUpdated := now);
            saved in Listed(files[FileName(spec.specType, spec.slug) := Stored(saved)], spec.specType)
  {
    var saved := spec.(lastUpdated := now);
    var name := FileName(spec.specType, spec.slug);
    FileNameMatches(spec.specType, spec.slug);
    ListedMembers(files[name := Stored(saved)], spec.specType, saved);
  }
}
