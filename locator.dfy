/** Where the data for a tag lives: the built-in file table of
    `getFilenamesByTag`, the homebrew override index and its loading
    (`getHomebrewIndex` with its key lowercasing). */
module Locator {
  import opened Wrappers
  import opened Text

  /** The candidate data files for a tag kind (its '@' already removed) and
      a lower-cased source code. */
  function FilenamesByTag(kind: string, source: string): (r: seq<string>)
    ensures |r| <= 3
    ensures forall p :: p in r ==> EndsWith(p, ".json")
  {
    JsonSuffix("spells/spells-" + source);
    JsonSuffix("bestiary/bestiary-" + source);
    if kind == "item" then ["items.json", "items-base.json", "magicvariants.json"]
    else if kind == "spell" then ["spells/spells-" + source + ".json"]
    else if kind == "creature" then ["bestiary/bestiary-" + source + ".json"]
    else []
  }

  lemma JsonSuffix(stem: string)
    ensures EndsWith(stem + ".json", ".json")
  {
    assert (stem + ".json")[|stem|..] == ".json";
  }

  /** The kinds the built-in table knows. */
  predicate LocatorKind(kind: string) {
    kind == "item" || kind == "spell" || kind == "creature"
  }

  /** Only the three known kinds have files; items share three source-independent
      files, spells and creatures have exactly one file per source. */
  lemma FilenamesShape(kind: string, source: string)
    ensures FilenamesByTag(kind, source) != [] <==> LocatorKind(kind)
    ensures kind == "item" ==> |FilenamesByTag(kind, source)| == 3
    ensures kind == "item" ==> FilenamesByTag(kind, source) == FilenamesByTag(kind, "")
    ensures kind == "spell" || kind == "creature" ==> |FilenamesByTag(kind, source)| == 1
    ensures forall i, j :: 0 <= i < j < |FilenamesByTag(kind, source)| ==>
              FilenamesByTag(kind, source)[i] != FilenamesByTag(kind, source)[j]
  {
    if kind == "item" {
      var fs := FilenamesByTag(kind, source);
      assert fs[0][0] == 'i' && fs[2][0] == 'm';
      assert fs[0][5] == '.' && fs[1][5] == '-';
    }
  }

  lemma {:induction false} SplitThree(a: string, x: string, y: string, b: string)
    requires a + x + b == a + y + b
    ensures x == y
  {
    assert |x| == |y|;
    forall i | 0 <= i < |x| ensures x[i] == y[i] {
      assert (a + x + b)[|a| + i] == x[i];
      assert (a + y + b)[|a| + i] == y[i];
    }
  }

  /** Spell and creature files are per source: two sources share a file
      (and so a file-cache entry) only when they are the same source. */
  lemma {:induction false} PerSourceFilesInjective(kind: string, s1: string, s2: string)
    requires kind == "spell" || kind == "creature"
    ensures FilenamesByTag(kind, s1) == FilenamesByTag(kind, s2) <==> s1 == s2
  {
    if FilenamesByTag(kind, s1) == FilenamesByTag(kind, s2) {
      if kind == "spell" {
        SplitThree("spells/spells-", s1, s2, ".json");
      } else {
        SplitThree("bestiary/bestiary-", s1, s2, ".json");
      }
    }
  }

  /** The first letter of every file of a kind: 'i' or 'm' for items,
      's' for spells, 'b' for creatures. */
  lemma {:induction false} FileInitial(kind: string, source: string, p: string)
    requires p in FilenamesByTag(kind, source)
    ensures |p| > 0
    ensures kind == "item" ==> p[0] == 'i' || p[0] == 'm'
    ensures kind == "spell" ==> p[0] == 's'
    ensures kind == "creature" ==> p[0] == 'b'
  {
    if kind == "spell" {
      assert p == "spells/spells-" + source + ".json";
      assert p[0] == ("spells/spells-" + source)[0];
    } else if kind == "creature" {
      assert p == "bestiary/bestiary-" + source + ".json";
      assert p[0] == ("bestiary/bestiary-" + source)[0];
    }
  }

  /** No file of the table belongs to two kinds. */
  lemma {:induction false} KindsShareNoFile(k1: string, k2: string, s1: string, s2: string, p: string)
    requires k1 != k2 && p in FilenamesByTag(k1, s1)
    ensures p !in FilenamesByTag(k2, s2)
  {
    FileInitial(k1, s1, p);
    if p in FilenamesByTag(k2, s2) {
      FileInitial(k2, s2, p);
    }
  }

  /** `tag.replace('@', '')`: removes the first '@' of the tag. */
  function StripMarker(tag: string): (r: string)
    ensures '@' !in tag ==> r == tag
    ensures '@' in tag ==> exists i :: 0 <= i < |tag| && tag[i] == '@' && '@' !in tag[..i] && r == tag[..i] + tag[i + 1..]
  {
    RemoveFirstChar(tag, '@');
    ReplaceFirst(tag, "@", "")
  }

  /** `homebrewIndex[source]` when it is truthy: a present, non-empty path. */
  function BrewSource(index: map<string, string>, source: string): (r: Option<string>)
    ensures r.Some? <==> source in index && index[source] != ""
    ensures r.Some? ==> r.value == index[source]
  {
    if source in index && index[source] != "" then Some(index[source]) else None
  }

  /** The paths `getJsonFiles` loads for a tag and a source: the one homebrew
      override path when the lower-cased source has one, otherwise the
      built-in table's list. */
  function CandidatePaths(index: map<string, string>, tag: string, source: string): (r: seq<string>)
    ensures |r| <= 3
    ensures forall p :: p in r ==> p != ""
  {
    var s := Lower(source);
    match BrewSource(index, s)
    case Some(p) => [p]
    case None => FilenamesByTag(StripMarker(tag), s)
  }

  /** A homebrew override wins for every tag kind; without one the table
      decides, and an unknown kind yields no paths. */
  lemma CandidatePathsChoice(index: map<string, string>, tag: string, source: string)
    ensures var s := Lower(source);
            s in index && index[s] != "" ==> CandidatePaths(index, tag, source) == [index[s]]
    ensures var s := Lower(source);
            !(s in index && index[s] != "") ==>
              (CandidatePaths(index, tag, source) == [] <==> !LocatorKind(StripMarker(tag)))
  {
    FilenamesShape(StripMarker(tag), Lower(source));
  }

  /** The homebrew index built by `mapKeys(data, (v, k) => k.toLowerCase())`
      from the index document's properties, in enumeration order; when two
      keys lower-case alike, the later one wins. */
  function LowerKeys(pairs: seq<(string, string)>): (m: map<string, string>)
    ensures forall k :: k in m ==> IsLowerCase(k)
    ensures forall i :: 0 <= i < |pairs| ==> Lower(pairs[i].0) in m
  {
    if pairs == [] then map[]
    else
      var last := pairs[|pairs| - 1];
      LowerIsLowerCase(last.0);
      LowerKeys(pairs[..|pairs| - 1])[Lower(last.0) := last.1]
  }

  /** Every key of the lowered index is the lowered key of some entry. */
  lemma {:induction false} LowerKeysFromPairs(pairs: seq<(string, string)>)
    ensures forall k :: k in LowerKeys(pairs) ==> exists i :: 0 <= i < |pairs| && Lower(pairs[i].0) == k
  {
    if pairs != [] {
      var init := pairs[..|pairs| - 1];
      LowerKeysFromPairs(init);
      assert LowerKeys(pairs) == LowerKeys(init)[Lower(pairs[|pairs| - 1].0) := pairs[|pairs| - 1].1];
      forall k | k in LowerKeys(pairs) ensures exists i :: 0 <= i < |pairs| && Lower(pairs[i].0) == k {
        if k != Lower(pairs[|pairs| - 1].0) {
          assert k in LowerKeys(init);
          var i :| 0 <= i < |init| && Lower(init[i].0) == k;
          assert pairs[i] == init[i];
        }
      }
    }
  }

  /** The value kept for a lower-cased key is that of the last property
      whose key lower-cases to it. */
  lemma {:induction false} LowerKeysLastWins(pairs: seq<(string, string)>, i: nat)
    requires i < |pairs|
    requires forall j :: i < j < |pairs| ==> Lower(pairs[j].0) != Lower(pairs[i].0)
    ensures LowerKeys(pairs)[Lower(pairs[i].0)] == pairs[i].1
  {
    if i < |pairs| - 1 {
      var init := pairs[..|pairs| - 1];
      LowerKeysLastWins(init, i);
    }
  }

  /** `rawHomebrewRepoUrl`: the repository URL with its first "github.com"
      replaced by the raw-content host. */
  function RawHomebrewRepoUrl(homebrewRepoUrl: string): (r: string)
    ensures (forall k :: !OccursAt(homebrewRepoUrl, "github.com", k)) ==> r == homebrewRepoUrl
    ensures StartsWith(homebrewRepoUrl, "https://github.com/") ==>
              r == "https://raw.githubusercontent.com/" + homebrewRepoUrl[19..]
  {
    GithubHostAt(homebrewRepoUrl);
    ReplaceFirst(homebrewRepoUrl, "github.com", "raw.githubusercontent.com")
  }

  /** In a URL starting with "https://github.com/" the first "github.com"
      is the host, so the host alone is replaced. */
  lemma GithubHostAt(u: string)
    ensures StartsWith(u, "https://github.com/") ==>
              ReplaceFirst(u, "github.com", "raw.githubusercontent.com") == "https://raw.githubusercontent.com/" + u[19..]
  {
    if StartsWith(u, "https://github.com/") {
      GithubFirst(u);
      assert u[..8] == "https://" by { assert u[..8] == u[..19][..8]; }
      assert u[18..] == "/" + u[19..] by { assert u[18] == u[..19][18]; }
      calc {
        ReplaceFirst(u, "github.com", "raw.githubusercontent.com");
        u[..8] + "raw.githubusercontent.com" + u[18..];
        "https://" + "raw.githubusercontent.com" + ("/" + u[19..]);
        { RawHostLiteral(); }
        "https://raw.githubusercontent.com/" + u[19..];
      }
    }
  }

  lemma RawHostLiteral()
    ensures "https://" + "raw.githubusercontent.com" + "/" == "https://raw.githubusercontent.com/"
  {
  }

  lemma GithubFirst(u: string)
    requires StartsWith(u, "https://github.com/")
    ensures IndexOf(u, "github.com", 0) == 8
  {
    assert OccursAt(u, "github.com", 8) by { assert u[8..18] == u[..19][8..18]; }
    forall k | 0 <= k < 8 ensures !OccursAt(u, "github.com", k) {
      assert u[k] == u[..19][k];
      NotOccursAtHead(u, "github.com", k);
    }
  }

  /** The URL of the homebrew index: a fixed file below the raw repository. */
  function HomebrewIndexUrl(homebrewRepoUrl: string): (r: string)
    ensures StartsWith(r, RawHomebrewRepoUrl(homebrewRepoUrl))
    ensures EndsWith(r, "/_generated/index-sources.json")
  {
    var base := RawHomebrewRepoUrl(homebrewRepoUrl);
    assert (base + "/_generated/index-sources.json")[..|base|] == base;
    assert (base + "/_generated/index-sources.json")[|base|..] == "/_generated/index-sources.json";
    base + "/_generated/index-sources.json"
  }
}
