/**
 * Selection of the cached product embeddings (`load_or_build_embeddings`):
 * the category's product file names the cache, the intimacy score picks a
 * tier suffix, and the tiered cache is preferred over the untiered one.
 * The file system is two oracles: `exists` for `os.path.exists` and `load`
 * for `torch.load`.
 */
module EmbeddingCache {
  import opened Text
  import opened Rounding
  import Topic

  /** One cached product: its name and its sentence embedding. */
  datatype Product = Product(name: string, embedding: seq<real>)

  /** The intimacy tier of a score: `_2` below 2, `_3` below 3, `_4` below 4, else `_5`. */
  function TierSuffix(score: real): (suffix: string)
    ensures suffix == "_2" <==> score < 2.0
    ensures suffix == "_3" <==> 2.0 <= score < 3.0
    ensures suffix == "_4" <==> 3.0 <= score < 4.0
    ensures suffix == "_5" <==> 4.0 <= score
  {
    if score < 2.0 then "_2"
    else if score < 3.0 then "_3"
    else if score < 4.0 then "_4"
    else "_5"
  }

  /** The digit a tier suffix ends with. */
  function TierLevel(suffix: string): nat {
    if suffix == "_2" then 2 else if suffix == "_3" then 3 else if suffix == "_4" then 4
    else if suffix == "_5" then 5 else 0
  }

  /** A higher intimacy score never selects a lower tier. */
  lemma TierMonotone(a: real, b: real)
    requires a <= b
    ensures 2 <= TierLevel(TierSuffix(a)) <= TierLevel(TierSuffix(b)) <= 5
  {
  }

  /** The tier edges: 2.0 and 4.0 already belong to the upper tier. */
  lemma TierEdges()
    ensures TierSuffix(1.99) == "_2" && TierSuffix(2.0) == "_3"
    ensures TierSuffix(3.99) == "_4" && TierSuffix(4.0) == "_5"
    ensures TierSuffix(-1.0) == "_2" && TierSuffix(8.0) == "_5"
  {
  }

  /**
   * The tier is read from the rounded score: rounding moves an average into
   * the next tier exactly when it lies within half a hundredth below a tier
   * edge (1.996 is tier 2 unrounded, but rounds to 2.0, tier 3).
   */
  lemma RoundedTier(x: real)
    ensures TierSuffix(Round2(x)) != TierSuffix(x) <==> (1.995 <= x < 2.0 || 2.995 <= x < 3.0 || 3.995 <= x < 4.0)
    ensures TierSuffix(1.996) == "_2" && TierSuffix(Round2(1.996)) == "_3"
  {
    var n := Round2Index(x);
    assert Round2(x) == n as real / 100.0;
    if 1.995 <= x < 2.0 {
      assert n == 200;
    } else if 2.995 <= x < 3.0 {
      assert n == 300;
    } else if 3.995 <= x < 4.0 {
      assert n == 400;
    }
    assert Round2Index(1.996) == 200;
  }

  /** Index of the last `c` in `s`, or -1 (`str.rfind`). */
  function LastIndex(s: string, c: char): (k: int)
    ensures -1 <= k < |s|
    ensures k >= 0 ==> s[k] == c
    ensures forall j :: k < j < |s| ==> s[j] != c
  {
    if s == [] then -1
    else if s[|s| - 1] == c then |s| - 1
    else LastIndex(s[..|s| - 1], c)
  }

  /** The last `c` is the one with no `c` after it. */
  lemma {:induction false} LastIndexIs(s: string, c: char, k: nat)
    requires k < |s| && s[k] == c
    requires forall j :: k < j < |s| ==> s[j] != c
    ensures LastIndex(s, c) == k
  {
    if k < |s| - 1 {
      LastIndexIs(s[..|s| - 1], c, k);
    }
  }

  /** `os.path.basename`: the text after the last `/`. */
  function Basename(path: string): (b: string)
    ensures '/' !in b
    ensures EndsWith(path, b)
    ensures '/' !in path ==> b == path
  {
    path[LastIndex(path, '/') + 1..]
  }

  /** Whether `name[..k]` is made of dots only (a leading dot does not start an extension). */
  predicate AllDots(s: string) {
    forall i :: 0 <= i < |s| ==> s[i] == '.'
  }

  /**
   * `os.path.splitext(name)[0]` for a name without `/`: the part before the
   * last dot, unless every character before that dot is a dot as well.
   */
  function StemOf(name: string): (stem: string)
    ensures StartsWith(name, stem)
    ensures stem == name || (name[|stem|] == '.' && '.' !in name[|stem| + 1..] && !AllDots(stem))
  {
    var d := LastIndex(name, '.');
    if d > 0 && !AllDots(name[..d]) then name[..d] else name
  }

  /** The artifact name of a product file: basename without extension. */
  function BaseName(csvPath: string): string {
    StemOf(Basename(csvPath))
  }

  /** A file `dir/stem.csv` with a plain stem has that stem as its artifact name. */
  lemma {:induction false} BaseNameOfCsv(dir: string, stem: string)
    requires stem != [] && '/' !in stem && '.' !in stem
    ensures BaseName(dir + "/" + stem + ".csv") == stem
  {
    var path := dir + "/" + stem + ".csv";
    var file := stem + ".csv";
    assert path == (dir + "/") + file;
    LastIndexIs(path, '/', |dir|);
    assert Basename(path) == file;
    LastIndexIs(file, '.', |stem|);
    assert file[..|stem|] == stem;
    assert !AllDots(stem) by { assert stem[0] != '.'; }
  }

  /** `cached_embeddings/{base}{suffix}.pt`; the untiered cache has the empty suffix. */
  function CachePath(base: string, suffix: string): string {
    "cached_embeddings/" + base + suffix + ".pt"
  }

  /** The two artifacts a category can use, tiered first. */
  function TieredPath(csvPath: string, score: real): string {
    CachePath(BaseName(csvPath), TierSuffix(score))
  }

  function FallbackPath(csvPath: string): string {
    CachePath(BaseName(csvPath), "")
  }

  /** The tiered and untiered artifacts are different files. */
  lemma TieredIsNotFallback(csvPath: string, score: real)
    ensures TieredPath(csvPath, score) != FallbackPath(csvPath)
  {
    var b := BaseName(csvPath);
    var t := TieredPath(csvPath, score);
    var f := FallbackPath(csvPath);
    assert |t| == |f| + 2;
  }

  /** Different tiers of one category name different files. */
  lemma TiersAreDistinct(csvPath: string, a: real, b: real)
    requires TierSuffix(a) != TierSuffix(b)
    ensures TieredPath(csvPath, a) != TieredPath(csvPath, b)
  {
    var p := "cached_embeddings/" + BaseName(csvPath);
    var sa := TierSuffix(a);
    var sb := TierSuffix(b);
    assert TieredPath(csvPath, a)[|p| + 1] == sa[1];
    assert TieredPath(csvPath, b)[|p| + 1] == sb[1];
  }

  /** `load_or_build_embeddings(category, intimacy_score)`. */
  function LoadEmbeddings(category: string, score: real, fileExists: string -> bool,
                          load: string -> seq<Product>): (r: seq<Product>)
    ensures category !in Topic.CategoryFiles ==> r == []
    ensures category in Topic.CategoryFiles ==>
      var csv := Topic.CategoryFiles[category];
      r == if fileExists(TieredPath(csv, score)) then load(TieredPath(csv, score))
           else if fileExists(FallbackPath(csv)) then load(FallbackPath(csv))
           else []
  {
    if category !in Topic.CategoryFiles then []
    else
      var csvPath := Topic.CategoryFiles[category];
      var base := BaseName(csvPath);
      var cachePath := CachePath(base, TierSuffix(score));
      if fileExists(cachePath) then load(cachePath)
      else
        var fallbackPath := CachePath(base, "");
        if fileExists(fallbackPath) then load(fallbackPath)
        else []
  }

  /** A category without a product file consults neither oracle. */
  lemma UnknownCategoryNoLookup(category: string, score: real, e1: string -> bool, l1: string -> seq<Product>,
                                e2: string -> bool, l2: string -> seq<Product>)
    requires category !in Topic.CategoryFiles
    ensures LoadEmbeddings(category, score, e1, l1) == LoadEmbeddings(category, score, e2, l2) == []
  {
  }

  /** The non-empty result always comes from the tiered or the untiered artifact of the category. */
  lemma ResultFromCategoryArtifacts(category: string, score: real, fileExists: string -> bool,
                                    load: string -> seq<Product>)
    requires LoadEmbeddings(category, score, fileExists, load) != []
    ensures category in Topic.CategoryFiles
    ensures var csv := Topic.CategoryFiles[category];
      (fileExists(TieredPath(csv, score)) && LoadEmbeddings(category, score, fileExists, load) == load(TieredPath(csv, score)))
      || (!fileExists(TieredPath(csv, score)) && fileExists(FallbackPath(csv))
          && LoadEmbeddings(category, score, fileExists, load) == load(FallbackPath(csv)))
  {
  }

  /** The beauty product file `category_files/beauty.csv` names the artifact `beauty`. */
  lemma BeautyArtifactName()
    ensures BaseName("category_files/beauty.csv") == "beauty"
  {
    assert "category_files/beauty.csv" == "category_files" + "/" + "beauty" + ".csv";
    BaseNameOfCsv("category_files", "beauty");
  }
}
