/**
 * `ImageLoader`: loads images by name through an ordered list of loader
 * functions and remembers both the names it loaded (the cache) and the
 * names no loader could load (the error set). Both are keyed without
 * regard to letter case.
 */
module ImageLoading {
  import opened JavaLang

  /** What one loader function does with a name. */
  datatype LoadOutcome<Image> =
    | Loaded(image: Image)
    /** The loader returned null. */
    | NoImage
    /** The loader threw. */
    | LoadFailed

  /** A loader function: any total map from names to outcomes. */
  type LoaderFunction<Image> = string -> LoadOutcome<Image>

  /**
   * The key `String.CASE_INSENSITIVE_ORDER` compares: each character
   * lower-cased (ASCII letters only).
   */
  function FoldCase(s: string): (r: string)
    ensures |r| == |s|
    ensures forall i :: 0 <= i < |s| ==> r[i] == ToLowerCase(s[i])
  {
    if s == [] then [] else [ToLowerCase(s[0])] + FoldCase(s[1..])
  }

  /** Folding is idempotent: a folded name is its own key. */
  lemma FoldCaseIdempotent(s: string)
    ensures FoldCase(FoldCase(s)) == FoldCase(s)
  {
    assert forall i :: 0 <= i < |s| ==> ToLowerCase(ToLowerCase(s[i])) == ToLowerCase(s[i]);
  }

  /** The image of the first loader, from `from` on, that returns one; exceptions are skipped. */
  function FirstLoaded<Image>(loaders: seq<LoaderFunction<Image>>, name: string, from: nat): (r: Option<Image>)
    requires from <= |loaders|
    ensures r.Some? ==> exists i :: from <= i < |loaders| && loaders[i](name) == Loaded(r.value)
    decreases |loaders| - from
  {
    if from == |loaders| then None
    else match loaders[from](name)
      case Loaded(image) => Some(image)
      case _ => FirstLoaded(loaders, name, from + 1)
  }

  /**
   * First-non-null-wins: the result is the image of the earliest loader
   * that returns one, and null exactly when none does.
   */
  lemma {:induction false} FirstLoadedIsEarliest<Image>(loaders: seq<LoaderFunction<Image>>, name: string, from: nat)
    requires from <= |loaders|
    ensures FirstLoaded(loaders, name, from).None? <==>
      forall i :: from <= i < |loaders| ==> !loaders[i](name).Loaded?
    ensures FirstLoaded(loaders, name, from).Some? ==>
      exists i :: from <= i < |loaders| && loaders[i](name) == Loaded(FirstLoaded(loaders, name, from).value) &&
        (forall j :: from <= j < i ==> !loaders[j](name).Loaded?)
    decreases |loaders| - from
  {
    if from < |loaders| && !loaders[from](name).Loaded? {
      FirstLoadedIsEarliest(loaders, name, from + 1);
    }
  }

  /** A cache entry: the name as first spelled, and its image. */
  datatype CacheEntry<Image> = CacheEntry(name: string, image: Image)

  class ImageLoader<Image(==)> {
    const loaderFunctions: seq<LoaderFunction<Image>>
    /** The error set: folded name to the spelling that failed. */
    var errorNames: map<string, string>
    /** The cache: folded name to the spelling loaded and its image. */
    var nameMap: map<string, CacheEntry<Image>>

    /** Each key is the folded spelling it holds, and no name is both cached and failed. */
    ghost predicate Valid()
      reads this
    {
      && |loaderFunctions| > 0
      && (forall k :: k in errorNames ==> FoldCase(errorNames[k]) == k)
      && (forall k :: k in nameMap ==> FoldCase(nameMap[k].name) == k)
      && errorNames.Keys !! nameMap.Keys
    }

    constructor (functions: seq<LoaderFunction<Image>>)
      requires |functions| > 0
      ensures Valid()
      ensures loaderFunctions == functions && errorNames == map[] && nameMap == map[]
    {
      loaderFunctions := functions;
      errorNames := map[];
      nameMap := map[];
    }

    /**
     * Gets or loads an image. A name in the error set gives null and a
     * cached name its image, neither consulting a loader. Otherwise the
     * loaders are tried in order and the name lands in exactly one of
     * the two: the cache if an image was found, else the error set.
     */
    method GetImage(name: string) returns (image: Option<Image>)
      requires Valid()
      modifies this
      ensures Valid()
      ensures FoldCase(name) in old(errorNames) ==>
        image.None? && errorNames == old(errorNames) && nameMap == old(nameMap)
      ensures FoldCase(name) !in old(errorNames) && FoldCase(name) in old(nameMap) ==>
        image == Some(old(nameMap)[FoldCase(name)].image) && errorNames == old(errorNames) && nameMap == old(nameMap)
      ensures FoldCase(name) !in old(errorNames) && FoldCase(name) !in old(nameMap) ==>
        && image == FirstLoaded(loaderFunctions, name, 0)
        && (image.None? ==> errorNames == old(errorNames)[FoldCase(name) := name] && nameMap == old(nameMap))
        && (image.Some? ==>
              nameMap == old(nameMap)[FoldCase(name) := CacheEntry(name, image.value)] && errorNames == old(errorNames))
    {
      var key := FoldCase(name);
      FoldCaseIdempotent(name);
      if key in errorNames {
        return None;
      }
      if key in nameMap {
        return Some(nameMap[key].image);
      }
      image := None;
      var i := 0;
      while i < |loaderFunctions|
        invariant 0 <= i <= |loaderFunctions|
        invariant FirstLoaded(loaderFunctions, name, 0) == FirstLoaded(loaderFunctions, name, i)
        invariant image.None?
      {
        var outcome := loaderFunctions[i](name);
        if outcome.Loaded? {
          image := Some(outcome.image);
          break;
        }
        i := i + 1;
      }
      if image.None? {
        errorNames := errorNames[key := name];
      } else {
        nameMap := nameMap[key := CacheEntry(name, image.value)];
      }
    }

    /** The cached names, as spelled when they were loaded. */
    function GetCachedNameSet(): (names: set<string>)
      reads this
      requires Valid()
      ensures forall n :: n in names <==> exists k :: k in nameMap && nameMap[k].name == n
      ensures forall n :: n in names ==> FoldCase(n) in nameMap
    {
      set k | k in nameMap :: nameMap[k].name
    }

    /**
     * Asked of the returned set with the set's own case-insensitive
     * comparison, a name is in it exactly when it is cached.
     */
    lemma CachedNameSetIgnoresCase(name: string)
      requires Valid()
      ensures FoldCase(name) in nameMap <==>
        exists n :: n in GetCachedNameSet() && FoldCase(n) == FoldCase(name)
    {
      var key := FoldCase(name);
      if key in nameMap {
        assert nameMap[key].name in GetCachedNameSet();
      }
    }

    /** Forgets a name in both places; true exactly when it was cached. */
    method Uncache(name: string) returns (removed: bool)
      requires Valid()
      modifies this
      ensures Valid()
      ensures removed <==> FoldCase(name) in old(nameMap)
      ensures errorNames == old(errorNames) - {FoldCase(name)}
      ensures nameMap == old(nameMap) - {FoldCase(name)}
    {
      var key := FoldCase(name);
      errorNames := errorNames - {key};
      removed := key in nameMap;
      nameMap := nameMap - {key};
    }
  }

  /** `new ImageLoader(functions...)`: no functions is an `IllegalArgumentException`. */
  method NewImageLoader<Image(==)>(functions: seq<LoaderFunction<Image>>) returns (r: Result<ImageLoader<Image>>)
    ensures |functions| == 0 <==> r == Throws(IllegalArgument)
    ensures r.Ok? ==>
      && fresh(r.value) && r.value.Valid() && r.value.loaderFunctions == functions
      && r.value.errorNames == map[] && r.value.nameMap == map[]
  {
    if |functions| == 0 {
      return Throws(IllegalArgument);
    }
    var loader := new ImageLoader(functions);
    return Ok(loader);
  }
}
