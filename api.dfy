/** The tag resolution engine of the `Api` class: a file cache that also
    remembers failed fetches, a resolution cache that remembers only
    successes, the homebrew override index, and `downloadData`, which ties
    them together. The network is a function from URL to the parsed
    document (None for a failed fetch or unparsable reply); the locks are
    left out and the engine is modelled sequentially. */
module Api {
  import opened Wrappers
  import opened Text
  import opened Locator
  import opened Matcher

  /** The two settings the engine reads through `getOrDefault`. */
  datatype Config = Config(tools5eUrl: string, homebrewRepoUrl: string)

  /** What `downloadData` throws. */
  datatype ApiError = NotFound | Unsupported(tag: string)

  /** The URL a data file is fetched from: a homebrew path below the raw
      homebrew repository, a built-in one below the tools site's data folder. */
  function FileUrl(cfg: Config, homebrew: bool, path: string): (r: string)
    ensures homebrew ==> StartsWith(r, RawHomebrewRepoUrl(cfg.homebrewRepoUrl) + "/")
    ensures !homebrew ==> StartsWith(r, cfg.tools5eUrl + "data/")
    ensures EndsWith(r, "/" + path)
    ensures |r| == (if homebrew then |RawHomebrewRepoUrl(cfg.homebrewRepoUrl)| else |cfg.tools5eUrl| + 4) + 1 + |path|
  {
    if homebrew then
      var base := RawHomebrewRepoUrl(cfg.homebrewRepoUrl) + "/";
      assert (base + path)[..|base|] == base;
      assert (base + path)[|base| - 1..] == "/" + path;
      base + path
    else DataUrl(cfg, path)
  }

  /** The URL of a built-in data file: below the tools site's data folder. */
  function DataUrl(cfg: Config, path: string): (r: string)
    ensures StartsWith(r, cfg.tools5eUrl + "data/")
    ensures EndsWith(r, "data/" + path)
    ensures |r| == |cfg.tools5eUrl| + 5 + |path|
  {
    var base := cfg.tools5eUrl + "data/";
    assert (base + path)[..|base|] == base;
    assert (base + path)[|base| - 5..] == "data/" + path;
    base + path
  }

  /** The paths fetched, in order, when `paths` are loaded into a cache that
      already holds `known`: each path neither known nor seen earlier in
      the list. */
  function Misses(known: set<string>, paths: seq<string>): seq<string>
  {
    if paths == [] then []
    else
      var init, p := paths[..|paths| - 1], paths[|paths| - 1];
      Misses(known, init) + (if p in known || p in init then [] else [p])
  }

  /** At most one fetch per path: every fetched path was new to the cache,
      none is fetched twice, and every path ends up cached. */
  lemma {:induction false} MissesSpec(known: set<string>, paths: seq<string>)
    ensures var m := Misses(known, paths);
            && (forall q :: q in m ==> q in paths && q !in known)
            && (forall i, j :: 0 <= i < j < |m| ==> m[i] != m[j])
            && (forall p :: p in paths ==> p in known || p in m)
  {
    if paths != [] {
      var init, p := paths[..|paths| - 1], paths[|paths| - 1];
      MissesSpec(known, init);
      assert forall q :: q in paths <==> q in init || q == p;
    }
  }

  lemma MissesStep(known: set<string>, paths: seq<string>, p: string)
    ensures Misses(known, paths + [p]) == Misses(known, paths) + (if p in known || p in paths then [] else [p])
  {
    assert (paths + [p])[..|paths|] == paths;
  }

  /** Once every path is cached, loading them again fetches nothing. */
  lemma NoMissesWhenCached(known: set<string>, paths: seq<string>)
    requires forall p :: p in paths ==> p in known
    ensures Misses(known, paths) == []
  {
    MissesSpec(known, paths);
  }

  /** The file cache after the built-in `paths` are loaded into `cache` in
      order: a path not cached yet is fetched from the tools site's data
      folder and stored, a cached one is left alone. */
  function Loaded(cache: map<string, Option<Doc>>, paths: seq<string>, cfg: Config,
                  fetch: string -> Option<Doc>): map<string, Option<Doc>>
  {
    if paths == [] then cache
    else
      var init, p := paths[..|paths| - 1], paths[|paths| - 1];
      var c := Loaded(cache, init, cfg, fetch);
      if p in c then c else c[p := fetch(DataUrl(cfg, p))]
  }

  /** Loading adds exactly the listed paths, keeps every entry already
      cached, and stores the fetched document of each new path. */
  lemma {:induction false} LoadedSpec(cache: map<string, Option<Doc>>, paths: seq<string>, cfg: Config,
                                      fetch: string -> Option<Doc>)
    ensures var c := Loaded(cache, paths, cfg, fetch);
            && (forall p :: p in c <==> p in cache || p in paths)
            && (forall p :: p in cache ==> c[p] == cache[p])
            && (forall p :: p in paths && p !in cache ==> c[p] == fetch(DataUrl(cfg, p)))
  {
    if paths != [] {
      var init, p := paths[..|paths| - 1], paths[|paths| - 1];
      LoadedSpec(cache, init, cfg, fetch);
      assert forall q :: q in paths <==> q in init || q == p;
    }
  }

  lemma LoadedHas(cache: map<string, Option<Doc>>, paths: seq<string>, p: string, cfg: Config,
                  fetch: string -> Option<Doc>)
    ensures p in Loaded(cache, paths, cfg, fetch) <==> p in cache || p in paths
  {
    LoadedSpec(cache, paths, cfg, fetch);
  }

  lemma LoadedStep(cache: map<string, Option<Doc>>, paths: seq<string>, p: string, cfg: Config,
                   fetch: string -> Option<Doc>)
    ensures var c := Loaded(cache, paths, cfg, fetch);
            Loaded(cache, paths + [p], cfg, fetch) == if p in c then c else c[p := fetch(DataUrl(cfg, p))]
  {
    assert (paths + [p])[..|paths|] == paths;
  }

  /** `fileCache.get(path)` for each path in order; a path missing from the
      cache reads as undefined, which the matcher skips like null. */
  function CachedDocs(cache: map<string, Option<Doc>>, paths: seq<string>): (docs: seq<Option<Doc>>)
    ensures |docs| == |paths|
    ensures forall i :: 0 <= i < |paths| && paths[i] in cache ==> docs[i] == cache[paths[i]]
  {
    seq(|paths|, i requires 0 <= i < |paths| => if paths[i] in cache then cache[paths[i]] else None)
  }

  /** The result of `getData` and the resolution cache after it. */
  datatype DataStep = DataStep(result: Result<Option<Doc>, MatchError>, cache: map<string, Doc>)

  /** `getData` on a given resolution cache: a cached hash is answered from
      the cache without running the matcher; otherwise the matcher runs and
      only a found document is stored under the hash. */
  function GetDataStep(cache: map<string, Doc>, tag: string, docs: seq<Option<Doc>>,
                       hash: string, name: string, source: string): DataStep
  {
    if hash in cache then DataStep(Ok(Some(cache[hash])), cache)
    else
      match GetDataByTag(tag, docs, name, source)
      case Ok(Some(d)) => DataStep(Ok(Some(d)), cache[hash := d])
      case other => DataStep(other, cache)
  }

  /** What `downloadData` returns: undefined (Ok(None)) for an empty file
      list, "not found" when the lookup yields nothing, the matcher's error
      for an unsupported tag, the document otherwise. */
  function DownloadOutcome(noFiles: bool, r: Result<Option<Doc>, MatchError>): Result<Option<Doc>, ApiError>
  {
    if noFiles then Ok(None)
    else
      match r
      case Err(NotSupported(t)) => Err(Unsupported(t))
      case Ok(None) => Err(NotFound)
      case Ok(Some(d)) => Ok(Some(d))
  }

  /** A hash that resolved once is answered from the cache on every later
      call, whatever the tag, documents, name and source of that call. */
  lemma SuccessIsMemoised(cache: map<string, Doc>, tag: string, docs: seq<Option<Doc>>, hash: string,
                          name: string, source: string, d: Doc,
                          tag': string, docs': seq<Option<Doc>>, name': string, source': string)
    requires GetDataStep(cache, tag, docs, hash, name, source).result == Ok(Some(d))
    ensures var s := GetDataStep(cache, tag, docs, hash, name, source);
            hash in s.cache && s.cache[hash] == d &&
            GetDataStep(s.cache, tag', docs', hash, name', source') == DataStep(Ok(Some(d)), s.cache)
  {
  }

  /** Only a found document is ever stored, and only under the hash asked
      for; a failed lookup leaves the cache as it was, so the same call is
      computed again next time. */
  lemma OnlySuccessIsStored(cache: map<string, Doc>, tag: string, docs: seq<Option<Doc>>,
                            hash: string, name: string, source: string)
    ensures var s := GetDataStep(cache, tag, docs, hash, name, source);
            (s.cache == cache || (hash !in cache && s.result.Ok? && s.result.value.Some?
                                  && s.cache == cache[hash := s.result.value.value]))
    ensures var s := GetDataStep(cache, tag, docs, hash, name, source);
            !(s.result.Ok? && s.result.value.Some?) ==>
              s.cache == cache && GetDataStep(s.cache, tag, docs, hash, name, source) == s
  {
  }

  /** The outcomes of `downloadData`, stated against the matcher's rule. */
  lemma {:induction false} DownloadOutcomes(paths: seq<string>, cache: map<string, Doc>, tag: string,
                                            docs: seq<Option<Doc>>, hash: string, name: string, source: string)
    ensures var r := DownloadOutcome(paths == [], GetDataStep(cache, tag, docs, hash, name, source).result);
            && (r == Ok(None) <==> paths == [])
            && (paths != [] && hash in cache ==> r == Ok(Some(cache[hash])))
            && (paths != [] && hash !in cache && SearchFields(tag).None? ==> r == Err(Unsupported(tag)))
            && (paths != [] && hash !in cache && SearchFields(tag).Some? ==>
                  var fields := SearchFields(tag).value;
                  && (r == Err(NotFound) <==> forall i :: 0 <= i < |docs| ==> !Hit(docs[i], fields, name, source))
                  && (r.Ok? ==> exists i :: 0 <= i < |docs| && docs[i] == r.value && Hit(docs[i], fields, name, source)
                                  && forall j :: 0 <= j < i ==> !Hit(docs[j], fields, name, source)))
  {
  }

  /** When every candidate file failed to load and the hash is not cached,
      a supported tag is "not found". */
  lemma AllFilesFailedIsNotFound(paths: seq<string>, cache: map<string, Doc>, tag: string,
                                 docs: seq<Option<Doc>>, hash: string, name: string, source: string)
    requires paths != [] && hash !in cache && SearchFields(tag).Some?
    requires forall i :: 0 <= i < |docs| ==> docs[i].None?
    ensures DownloadOutcome(paths == [], GetDataStep(cache, tag, docs, hash, name, source).result) == Err(NotFound)
  {
    DownloadOutcomes(paths, cache, tag, docs, hash, name, source);
  }

  class Api {
    var fileCache: map<string, Option<Doc>>
    var dataCache: map<string, Doc>
    var homebrewIndex: map<string, string>
    /** Every data-file path fetched so far, in order. */
    ghost var fetchLog: seq<string>
    /** How many times the matcher has been run. */
    ghost var matcherRuns: nat

    constructor()
      ensures fileCache == map[] && dataCache == map[] && homebrewIndex == map[]
      ensures fetchLog == [] && matcherRuns == 0
    {
      fileCache, dataCache, homebrewIndex := map[], map[], map[];
      fetchLog, matcherRuns := [], 0;
    }

    /** Loads the homebrew index: on success it is replaced by the fetched
        index with its keys lower-cased; on failure it is left unchanged. */
    method GetHomebrewIndex(cfg: Config, fetchIndex: string -> Option<seq<(string, string)>>)
      modifies this`homebrewIndex
      ensures homebrewIndex == match fetchIndex(HomebrewIndexUrl(cfg.homebrewRepoUrl))
                               case Some(pairs) => LowerKeys(pairs)
                               case None => old(homebrewIndex)
      ensures fetchIndex(HomebrewIndexUrl(cfg.homebrewRepoUrl)).Some? ==>
                forall k :: k in homebrewIndex ==> IsLowerCase(k)
    {
      var data := fetchIndex(HomebrewIndexUrl(cfg.homebrewRepoUrl));
      if data.Some? {
        homebrewIndex := LowerKeys(data.value);
      }
    }

    /** Empties both caches and the homebrew index, then reloads the index:
        after a failed reload the index stays empty. */
    method ClearCache(cfg: Config, fetchIndex: string -> Option<seq<(string, string)>>)
      modifies this`fileCache, this`dataCache, this`homebrewIndex
      ensures fileCache == map[] && dataCache == map[]
      ensures homebrewIndex == match fetchIndex(HomebrewIndexUrl(cfg.homebrewRepoUrl))
                               case Some(pairs) => LowerKeys(pairs)
                               case None => map[]
      ensures forall k :: k in homebrewIndex ==> IsLowerCase(k)
    {
      fileCache := map[];
      dataCache := map[];
      homebrewIndex := map[];
      GetHomebrewIndex(cfg, fetchIndex);
    }

    /** The check-then-populate step `getJsonFiles` runs for one path: a
        path already cached, even as a failure, is not fetched again. */
    method CacheFile(path: string, url: string, fetch: string -> Option<Doc>)
      modifies this`fileCache, this`fetchLog
      ensures path in old(fileCache) ==> fileCache == old(fileCache)
      ensures path !in old(fileCache) ==> fileCache == old(fileCache)[path := fetch(url)]
      ensures fetchLog == old(fetchLog) + (if path in old(fileCache) then [] else [path])
    {
      if path !in fileCache {
        fileCache := fileCache[path := fetch(url)];
        fetchLog := fetchLog + [path];
      }
    }

    /** The loop of `getJsonFiles` over the built-in candidate files: each
        path is cached in turn, and only paths not cached yet are fetched. */
    method CacheFiles(paths: seq<string>, cfg: Config, fetch: string -> Option<Doc>)
      modifies this`fileCache, this`fetchLog
      ensures fileCache == Loaded(old(fileCache), paths, cfg, fetch)
      ensures fetchLog == old(fetchLog) + Misses(old(fileCache).Keys, paths)
    {
      ghost var cache0, log0 := fileCache, fetchLog;
      ghost var done: seq<string> := [];
      var i := 0;
      while i < |paths|
        invariant 0 <= i <= |paths| && done == paths[..i]
        invariant fileCache == Loaded(cache0, done, cfg, fetch)
        invariant fetchLog == log0 + Misses(cache0.Keys, done)
      {
        var f := paths[i];
        LoadedHas(cache0, done, f, cfg, fetch);
        MissesStep(cache0.Keys, done, f);
        LoadedStep(cache0, done, f, cfg, fetch);
        CacheFile(f, DataUrl(cfg, f), fetch);
        assert paths[..i + 1] == done + [f];
        done := done + [f];
        i := i + 1;
      }
      assert done == paths;
    }

    /** `getJsonFiles`: loads every candidate path into the file cache (a
        failed fetch stored as None), fetching only paths not cached yet,
        and returns the cached document of each path, in order. */
    method GetJsonFiles(tag: string, source: string, cfg: Config, fetch: string -> Option<Doc>)
      returns (files: seq<Option<Doc>>)
      modifies this`fileCache, this`fetchLog
      ensures var paths := CandidatePaths(homebrewIndex, tag, source);
              var brew := BrewSource(homebrewIndex, Lower(source)).Some?;
              && (forall p :: p in fileCache <==> p in old(fileCache) || p in paths)
              && (forall p :: p in old(fileCache) ==> fileCache[p] == old(fileCache)[p])
              && (forall p :: p in paths && p !in old(fileCache) ==> fileCache[p] == fetch(FileUrl(cfg, brew, p)))
              && files == CachedDocs(fileCache, paths)
              && fetchLog == old(fetchLog) + Misses(old(fileCache).Keys, paths)
    {
      var s := Lower(source);
      var brewSource := BrewSource(homebrewIndex, s);
      if brewSource.Some? {
        var p := brewSource.value;
        assert CandidatePaths(homebrewIndex, tag, source) == [p];
        CacheFile(p, FileUrl(cfg, true, p), fetch);
        MissesStep(old(fileCache).Keys, [], p);
        assert [] + [p] == [p];
        files := [fileCache[p]];
      } else {
        var filenames := FilenamesByTag(StripMarker(tag), s);
        assert CandidatePaths(homebrewIndex, tag, source) == filenames;
        CacheFiles(filenames, cfg, fetch);
        LoadedSpec(old(fileCache), filenames, cfg, fetch);
        files := CachedDocs(fileCache, filenames);
      }
    }

    /** `getData`: answers a cached hash from the resolution cache; otherwise
        runs the matcher once and stores a found document under the hash. */
    method GetData(tag: string, fileData: seq<Option<Doc>>, hash: string, name: string, source: string)
      returns (r: Result<Option<Doc>, MatchError>)
      modifies this`dataCache, this`matcherRuns
      ensures var s := GetDataStep(old(dataCache), tag, fileData, hash, name, source);
              r == s.result && dataCache == s.cache
      ensures matcherRuns == old(matcherRuns) + (if hash in old(dataCache) then 0 else 1)
    {
      if hash !in dataCache {
        var data := GetDataByTag(tag, fileData, name, source);
        matcherRuns := matcherRuns + 1;
        if data.Err? {
          r := Err(data.error);
          return;
        }
        if data.value.Some? {
          dataCache := dataCache[hash := data.value.value];
        }
      }
      r := if hash in dataCache then Ok(Some(dataCache[hash])) else Ok(None);
    }

    /** `downloadData`: loads the candidate files, then resolves the tag
        against them through the resolution cache. */
    method DownloadData(tag: string, source: string, hash: string, name: string,
                        cfg: Config, fetch: string -> Option<Doc>)
      returns (r: Result<Option<Doc>, ApiError>)
      modifies this`fileCache, this`dataCache, this`fetchLog, this`matcherRuns
      ensures var paths := CandidatePaths(homebrewIndex, tag, source);
              var brew := BrewSource(homebrewIndex, Lower(source)).Some?;
              && (forall p :: p in fileCache <==> p in old(fileCache) || p in paths)
              && (forall p :: p in old(fileCache) ==> fileCache[p] == old(fileCache)[p])
              && (forall p :: p in paths && p !in old(fileCache) ==> fileCache[p] == fetch(FileUrl(cfg, brew, p)))
              && fetchLog == old(fetchLog) + Misses(old(fileCache).Keys, paths)
      ensures var paths := CandidatePaths(homebrewIndex, tag, source);
              paths == [] ==> r == Ok(None) && dataCache == old(dataCache) && matcherRuns == old(matcherRuns)
      ensures var paths := CandidatePaths(homebrewIndex, tag, source);
              var s := GetDataStep(old(dataCache), tag, CachedDocs(fileCache, paths), hash, name, source);
              paths != [] ==> r == DownloadOutcome(paths == [], s.result) && dataCache == s.cache
                              && matcherRuns == old(matcherRuns) + (if hash in old(dataCache) then 0 else 1)
    {
      var files := GetJsonFiles(tag, source, cfg, fetch);
      if |files| == 0 {
        return Ok(None);
      }
      var data := GetData(tag, files, hash, name, source);
      r := DownloadOutcome(false, data);
    }
  }

  /** Resolving the same tag twice fetches each candidate file at most once:
      the second call fetches nothing and answers from the caches. */
  method ResolveTwice(api: Api, tag: string, source: string, hash: string, name: string,
                      cfg: Config, fetch: string -> Option<Doc>)
    returns (first: Result<Option<Doc>, ApiError>, second: Result<Option<Doc>, ApiError>)
    modifies api
    ensures var paths := CandidatePaths(api.homebrewIndex, tag, source);
            api.fetchLog == old(api.fetchLog) + Misses(old(api.fileCache).Keys, paths)
    ensures first.Ok? && first.value.Some? ==> second == first
  {
    first := api.DownloadData(tag, source, hash, name, cfg, fetch);
    NoMissesWhenCached(api.fileCache.Keys, CandidatePaths(api.homebrewIndex, tag, source));
    second := api.DownloadData(tag, source, hash, name, cfg, fetch);
  }

  /** The memoisation asymmetry: two lookups of one hash run the matcher once
      when the first succeeds and twice when it fails. */
  method LookupTwice(api: Api, tag: string, docs: seq<Option<Doc>>, hash: string, name: string, source: string)
    returns (first: Result<Option<Doc>, MatchError>, second: Result<Option<Doc>, MatchError>)
    requires hash !in api.dataCache
    modifies api
    ensures first.Ok? && first.value.Some? ==> api.matcherRuns == old(api.matcherRuns) + 1 && second == first
    ensures !(first.Ok? && first.value.Some?) ==> api.matcherRuns == old(api.matcherRuns) + 2 && second == first
  {
    first := api.GetData(tag, docs, hash, name, source);
    second := api.GetData(tag, docs, hash, name, source);
  }
}
