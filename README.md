# 5etools tag link: a verified model of the resolution engine and its helpers

This project models the core of the Obsidian plugin "5etools tag link". The
plugin turns 5etools tags such as `{@spell fireball|phb}` in notes into styled
links to a 5etools site, and it resolves the tagged entity from the site's
JSON data files. The core modelled here has four parts.

- **The tag resolution engine** (`Api` in `api/api.ts`).
  - A file locator maps a tag kind and a source code to candidate data files.
  - A homebrew override index is loaded with its keys lower-cased.
  - A file cache also remembers failed fetches.
  - An entity matcher returns the first document holding an element with
    the requested name and source.
  - A resolution cache stores successful lookups only.
  - `downloadData` ties these together, and `clearCache` resets them.
- **The string helpers of `TagProcessor`** (`processor/processor.ts`).
  - Tag and text normalisation.
  - The shortened tag text.
  - Colours and icons.
  - URL building, including the duplicate-slash clean-up regular expression.
  - The position scan of `getLinks`.
- **The settings store** (`Settings` in `settings/settings.ts`): defaults
  merged at construction, `get`, `set`, `values` and `getOrDefault`.
- **The live-preview decoration pass** (`processor/live-preview.ts`).
  - The selection-overlap test.
  - The per-link decision of `inlineRender`: skip a seen `start:end` pair, else
    add a bold-italic mark, then either a highlight mark or a widget.
  - The `update` hook of the view plugin.

The modules, one per file, are:

- `wrappers.dfy` (`Option`, `Result`)
- `text.dfy` (the JavaScript string operations the code relies on)
- `locator.dfy`, `matcher.dfy` and `api.dfy` (the engine)
- `settings.dfy`
- `processor.dfy`
- `live_preview.dfy`

The network is a function parameter from URL to the parsed document. `None`
stands for a failed fetch or an unparsable reply. The 5etools `Renderer`
functions and `encodeURIComponent` are likewise function parameters. The
editor's syntax tree and selection are given as values.

The classes keep the source's mutable state.

- `Api` keeps `fileCache`, `dataCache` and `homebrewIndex`.
  - The ghost field `fetchLog` records every data file fetched.
  - The ghost field `matcherRuns` counts matcher runs.
  - Together they state "fetched at most once" and "the matcher is not run
    again".
- `Settings` keeps the stored values.
- `InlinePlugin` keeps its decoration set.

The loops of `getJsonFiles`, `getLinks`, `selectionAndRangeOverlap` and
`inlineRender` are methods. Each is proved against a specification function,
and the listed properties are proved about that function.

Some behaviours of the engine are easy to misread, and the model keeps them as the code has them.

- An element matches when its name equals the requested name ignoring case, and its source is missing or equals the requested source ignoring case. No other field of the element is consulted.
- The search returns the document that holds the matching element, because `findByNameAndSource` returns the result of `data.find` over the documents.
- A homebrew override applies only when the index maps the lower-cased source to a non-empty path, because `homebrewIndex[source]` is tested for truthiness.
- `tag.replace('@', '')` deletes the first `@` anywhere in the tag. The matcher receives the tag with its `@`, because `getData` reads the outer `tag`, not the parameter `getJsonFiles` rewrote.
- `downloadData` does not check whether any file loaded before it asks the resolution cache.
  - A hash already cached is answered from the cache even when every file failed to load.
  - Otherwise a supported tag with no loaded document ends as "not found" through the matcher, as `Api.AllFilesFailedIsNotFound` states.
- An empty candidate list makes `downloadData` return undefined before any resolution-cache lookup.

## Model

| member | source | states |
|---|---|---|
| Text.Lower | api/api.ts:125-126 | the same length, each ASCII capital replaced by its small letter and every other character kept |
| Text.Substring | processor/processor.ts:108 | never longer than the string; in-range bounds in either order give the slice between them, and bounds beyond both ends give the whole string |
| Text.LowerIsLowerCase | api/api.ts:46 | a lower-cased string has no upper-case letter, and lower-casing it again changes nothing |
| Text.IndexOf | processor/processor.ts:54 | the result is -1 or the first occurrence at or after the clamped start position; no occurrence lies between the start and the result |
| Text.LastIndexOf | processor/processor.ts:108 | the result is -1 or an occurrence, and no occurrence lies after it |
| Text.ReplaceFirst | api/api.ts:54 | with a string pattern only the first occurrence is replaced; without one the string is unchanged |
| Locator.FilenamesByTag | api/api.ts:96-107 | at most three candidate files, each a `.json` file |
| Locator.FilenamesShape | api/api.ts:96-107 | only the kinds item, spell and creature have candidate files; item has the same three files whatever the source, spell and creature exactly one; no file is listed twice |
| Locator.PerSourceFilesInjective | api/api.ts:100-103 | spell and creature files of two sources are equal exactly when the sources are equal |
| Locator.KindsShareNoFile | api/api.ts:96-107 | no candidate file belongs to two kinds |
| Locator.StripMarker | api/api.ts:54 | a tag without '@' is unchanged; otherwise exactly its first '@' is removed |
| Locator.BrewSource | api/api.ts:57-58 | an override exists exactly when the lower-cased source maps to a non-empty path, and it is that path |
| Locator.CandidatePaths | api/api.ts:53-76 | at most three paths, none of them empty; which ones is stated by `CandidatePathsChoice` |
| Locator.CandidatePathsChoice | api/api.ts:53-76 | a homebrew override yields exactly its one path for every tag kind; without one the table decides, and the list is empty exactly for an unknown kind |
| Locator.RawHomebrewRepoUrl | api/api.ts:38-40 | a URL without "github.com" is unchanged; a URL starting `https://github.com/` gets the raw-content host `https://raw.githubusercontent.com/` and keeps the rest |
| Locator.HomebrewIndexUrl | api/api.ts:43 | the index URL lies below the raw repository URL and ends with `/_generated/index-sources.json` |
| Locator.LowerKeys | api/api.ts:46 | every key of the loaded index is lower-case, and every property's lower-cased key is present |
| Locator.LowerKeysFromPairs | api/api.ts:46 | every key of the loaded index is the lower-cased key of some property of the index document |
| Locator.LowerKeysLastWins | api/api.ts:46 | when two keys lower-case alike, the value of the later property is kept |
| Matcher.SearchFields | api/api.ts:144-153 | search fields exist exactly for `@item`, `@creature` and `@spell`, and are a non-empty list without repeats |
| Matcher.Matches | api/api.ts:132-139 | a match has a name of the requested length and, when it has a source, a source of the requested length; an element always matches its own name and source |
| Matcher.FindEntry | api/api.ts:132-139 | the element found matches and comes from the field; none is found exactly when no element matches |
| Matcher.FindField | api/api.ts:128-131 | a field is found exactly when some present field of the document holds a matching element; absent fields are skipped |
| Matcher.FindDoc | api/api.ts:128-141 | the result is the first document in list order that has a match; it is none exactly when no document has one; null documents never match |
| Matcher.FindByNameAndSource | api/api.ts:124-141 | although name and source are lower-cased first, the result is the first document that matches the request as given by the case-insensitive rule, and none exactly when no document does |
| Matcher.GetDataByTag | api/api.ts:144-153 | the "not supported" error is raised exactly for tags without search fields and carries the tag |
| Matcher.NullDocumentIgnored | api/api.ts:128-130 | a failed (null) document inserted anywhere in the list does not change the result |
| Matcher.EarlierDocumentWins | api/api.ts:128 | documents appended after one that matches never change the result |
| Matcher.MatchExamples | api/api.ts:132-139 | names and sources compare without regard to case, a different source fails, and an element without a source matches any source |
| Api.FileUrl | api/api.ts:62 | a homebrew path is fetched below the raw repository URL and '/', a built-in one below the tools URL's `data/` folder; either way the URL ends with '/' and the path, and its length is exactly that of the prefix and the path |
| Api.DataUrl | api/api.ts:82 | the URL is the tools URL, then `data/`, then the path: it starts with the first two and ends with the last |
| Api.MissesSpec | api/api.ts:79-90 | every path fetched was missing from the cache and is a candidate, no path is fetched twice, and every candidate is either cached or fetched |
| Api.NoMissesWhenCached | api/api.ts:80 | when every candidate is cached, nothing is fetched |
| Api.LoadedSpec | api/api.ts:79-90 | loading adds exactly the candidate paths, keeps every cached entry (failures included), and stores the fetched document of each new path |
| Api.CachedDocs | api/api.ts:94 | one entry per path, in path order, each the cached document of that path |
| Api.SuccessIsMemoised | api/api.ts:114-118 | after a successful resolution the hash is cached, and every later call with that hash returns the same document whatever its other arguments |
| Api.OnlySuccessIsStored | api/api.ts:114-117 | the resolution cache changes only by storing a found document under the hash asked for; after a failure it is unchanged and the same call computes the same answer again |
| Api.DownloadOutcomes | api/api.ts:157-164 | undefined exactly for an empty file list; a cached hash answers from the cache; otherwise an unsupported tag raises its error, "not found" is raised exactly when no document matches, and a result is the first matching document |
| Api.AllFilesFailedIsNotFound | api/api.ts:157-164 | when every file failed to load and the hash is not cached, a supported tag is "not found" |
| Api.Api.constructor | api/api.ts:11-17 | both caches and the homebrew index start empty |
| Api.Api.GetHomebrewIndex | api/api.ts:42-50 | a successful load replaces the index by the lower-cased one; a failed load leaves it unchanged |
| Api.Api.ClearCache | api/api.ts:26-36 | both caches become empty; the index is reloaded, and after a failed reload it is empty; all its keys are lower-case |
| Api.Api.CacheFile | api/api.ts:61-70 | a path already cached, even as a failure, is not fetched; a missing one is fetched once and stored, a failure as None |
| Api.Api.CacheFiles | api/api.ts:79-90 | the cache becomes the specification `Loaded` of the old cache and the paths, and the fetched paths are exactly the misses, in order |
| Api.Api.GetJsonFiles | api/api.ts:53-94 | every candidate path becomes cached, cached entries are kept, new paths hold the document fetched from the homebrew or data URL, only misses are fetched, and the result is the cached document of each candidate in order |
| Api.Api.GetData | api/api.ts:111-121 | the answer and the new resolution cache are those of `GetDataStep`; the matcher runs only when the hash is not cached |
| Api.Api.DownloadData | api/api.ts:157-164 | the file cache is updated as by `GetJsonFiles`; an empty candidate list returns undefined and leaves the resolution cache alone; otherwise the outcome is the resolution of the loaded documents |
| Api.ResolveTwice | api/api.ts:52-164 | resolving the same tag twice fetches only the first call's misses, and a successful first answer is repeated by the second |
| Api.LookupTwice | api/api.ts:111-121 | two lookups of an uncached hash run the matcher once when the first succeeds and twice when it fails, with equal answers |
| SettingsStore.Defaults | settings/settings.const.ts:4-23 | the nine setting keys, the title being the plugin name; exactly the hide-icons flag, the icon, the ignored tags (and the title when the plugin name is empty) are empty to lodash |
| SettingsStore.IsEmpty | settings/settings.ts:27 | null and every boolean are empty; a string or a list is empty exactly when it has no elements |
| SettingsStore.Merge | settings/settings.ts:11 | after the merge a supplied key holds its supplied value, every other default key its default, and no other key exists |
| SettingsStore.OrDefault | settings/settings.ts:26-28 | the stored value when it is non-empty, else the default; a key with a non-empty default never reads as empty |
| SettingsStore.DefaultsNonEmpty | settings/settings.ts:26-28 | the string defaults other than the icon are non-empty, so those keys never read as an empty string; the title default is empty only for an empty plugin name |
| SettingsStore.EmptyUrlFallsBack | settings/settings.ts:26-28 | an empty stored tools URL reads as `https://5e.tools/` |
| SettingsStore.BooleanReadsDefault | settings/settings.ts:27 | a stored boolean is empty to lodash, so it always reads as its default |
| SettingsStore.UnsetKeyKept | settings/settings.ts:22-24 | a key no `set` touched keeps its value |
| SettingsStore.LastSetWins | settings/settings.ts:14-24 | after a series of `set` calls each key holds the value of its last `set` |
| SettingsStore.Settings.constructor | settings/settings.ts:10-12 | the stored values are the defaults overridden by the loaded data |
| SettingsStore.Settings.Values | settings/settings.ts:14-16 | every key reads in the result as it does through `get` |
| SettingsStore.Settings.Get | settings/settings.ts:18-20 | the stored value of the key, none when it is undefined |
| SettingsStore.Settings.Set | settings/settings.ts:22-24 | afterwards the key reads as the new value and every other key as before |
| SettingsStore.Settings.SetAll | settings/settings.ts:22-24 | a series of `set` calls leaves the stored values as `ApplySets` of the old ones, so `UnsetKeyKept` and `LastSetWins` hold of the object |
| SettingsStore.Settings.GetOrDefault | settings/settings.ts:26-28 | the stored value when it is non-empty, else the default |
| Processor.FixTag | processor/processor.ts:89-98 | the result is never a legacy tag name, and any other tag is kept |
| Processor.FixTagIdempotent | processor/processor.ts:89-98 | fixing twice is fixing once, with `@monster` mapped to `@creature` and `@classtype` to `@class` |
| Processor.FixText | processor/processor.ts:100-102 | same length, every ';' becomes '|' and every other character is kept, and no ';' remains |
| Processor.ShortenTagText | processor/processor.ts:104-112 | a null or empty display text is returned unchanged; otherwise the result is in braces and at most two characters longer than the tag text |
| Processor.ShortenFound | processor/processor.ts:104-112 | with the display text at index 2 or later, the result is the braced tag text between the opening brace and the separator before the last occurrence, one trailing ';' removed |
| Processor.ShortenNotFound | processor/processor.ts:107-108 | with the display text absent, the swapped `substring` bounds make the result brace the first character |
| Processor.GetColors | processor/processor.ts:114-125 | a background colour exactly for `@creature`, `@item` and `@spell`; text and hover colours only for `@spell` |
| Processor.GetIcon | processor/processor.ts:127-138 | a non-empty icon exactly for `@creature`, `@item` and `@spell` |
| Processor.LinkStyle | processor/processor.ts:67 | a styled tag never gets the LightGray fallback background; every other tag is drawn Black on LightGray with DarkSlateGray hover, and only spells change the text colours |
| Processor.GenerateBaseUrl | processor/processor.ts:140-149 | the URL starts with the tools URL and a '/' |
| Processor.BaseUrlSpec | processor/processor.ts:140-149 | skills and senses ignore page and anchor; any other tag's URL ends with '#' and the anchor |
| Processor.CleanUrl | processor/processor.ts:152 | the clean-up never lengthens the URL and keeps its first two characters |
| Processor.CleanUrlCollapses | processor/processor.ts:152 | after the clean-up no run of two or more '/' follows a character other than ':' (a run at the very start has no such character and is kept, as with the regular expression) |
| Processor.CleanUrlKeepsCollapsed | processor/processor.ts:152 | a URL without such doubled slashes is unchanged |
| Processor.CleanUrlIdempotent | processor/processor.ts:152 | cleaning twice is cleaning once |
| Processor.CleanUrlJoin | processor/processor.ts:152 | a clean URL and a clean path joined by "//" come out joined by a single '/' |
| Processor.CleanUrlKeepsText | processor/processor.ts:152 | the clean-up removes only '/' characters: every other character is kept, in order |
| Processor.CleanUrlRun | processor/processor.ts:152 | a run of one or more '/' after a character other than ':' leaves exactly one '/', and the rest is cleaned on its own |
| Processor.DefaultSiteUrlExample | processor/processor.ts:147-152 | with the default site URL the item URL `https://5e.tools//items.html#…` is cleaned to `https://5e.tools/items.html#…` |
| Processor.GenerateUrl | processor/processor.ts:151-160 | link mode gives the cleaned URL, which has no run of two or more '/' after a character other than ':'; opengate mode wraps it with the gate id and the encoded URL; any other mode gives undefined |
| Processor.TagPieces | processor/processor.ts:49 | a piece is kept exactly when it starts with `{@`, and the result is no longer than the input |
| Processor.TagPiecesAppend | processor/processor.ts:49 | filtering a concatenation concatenates the filtered parts, so the kept pieces keep their order and multiplicity |
| Processor.TagPiecesOne | processor/processor.ts:49 | a single piece is kept exactly when it starts with `{@` |
| Processor.BuildLink | processor/processor.ts:53-83 | the link records its tag text and start; its end lies just after the closing brace, or two characters after the start when the text has no closing brace; the rest is stated by `BuildLinkSpec` |
| Processor.BuildLinkSpec | processor/processor.ts:58-83 | no legacy tag or ';' in the text; a tag the renderer rejects gives a link without display text; any other gets its tag's style, a caption ending with the display text or else the name, and in link mode a cleaned URL |
| Processor.LinksFrom | processor/processor.ts:53-84 | one link per tag |
| Processor.LinkAt | processor/processor.ts:52-56 | link i is built from tag i searched for from the end of link i-1 |
| Processor.LinksFromSpec | processor/processor.ts:52-56 | each start is the first occurrence of the tag text at or after the previous end, or -1 with no occurrence there; the end is the start plus the tag length when the tag ends with '}', else the start plus 2 |
| Processor.ScanLinks | processor/processor.ts:52-84 | the `map` with its running `currentPos` yields the scan specification `LinksFrom` from position 0 |
| Processor.LinksOrdered | processor/processor.ts:52-56 | each found link starts at or after the end of the link before it, at an occurrence of its tag text |
| Processor.LinksSorted | processor/processor.ts:52-56 | when every tag text is found, the links are pairwise in order and do not overlap |
| Processor.GetLinks | processor/processor.ts:47-87 | empty content gives no links; otherwise one link per tag piece, in order, equal to the scan specification; each found link starts at or after the end of the link before it and at an occurrence of its tag text; when every tag text is found the links are pairwise in order and do not overlap |
| LivePreview.SelectionAndRangeOverlap | processor/live-preview.ts:18-30 | true exactly when some selection range meets the closed interval |
| LivePreview.OverlapSpec | processor/live-preview.ts:23-29 | an empty selection meets nothing; a range touching an end counts; the test over two lists is the disjunction |
| LivePreview.PlaceLinks | processor/live-preview.ts:71-72 | each link is placed at its node's start plus its own start and end |
| LivePreview.DedupSpec | processor/live-preview.ts:74-78 | skipping seen pairs keeps every pair exactly once and keeps the first placement of each |
| LivePreview.DecorationsSpec | processor/live-preview.ts:80-90 | each newly seen link gets a bold-italic mark, followed by a highlight mark when the selection meets it or else a widget at its end |
| LivePreview.EveryPairMarked | processor/live-preview.ts:74-81 | every position pair of the links carries a bold-italic mark |
| LivePreview.MarksCoverKeys | processor/live-preview.ts:80-81 | every bold-italic mark covers the pair of some link |
| LivePreview.MarksOfDistinct | processor/live-preview.ts:80-81 | links with distinct pairs get distinct bold-italic marks |
| LivePreview.MarkedOnce | processor/live-preview.ts:74-81 | within one pass no position pair is marked twice |
| LivePreview.RenderStep | processor/live-preview.ts:74-90 | a link whose pair was seen adds nothing; any other adds its pair and its decorations |
| LivePreview.DecorateLink | processor/live-preview.ts:74-90 | a seen pair leaves the set and the decorations unchanged; a new one is recorded and its decorations appended |
| LivePreview.RenderLinks | processor/live-preview.ts:68-91 | after a node's links the seen set and the decorations are those of the deduplicated placements so far |
| LivePreview.InlineRender | processor/live-preview.ts:50-96 | no decorations without an active file; otherwise the decorations of the deduplicated links of every non-formatting node |
| LivePreview.InlinePlugin.constructor | processor/live-preview.ts:102-104 | the decorations start empty |
| LivePreview.InlinePlugin.Update | processor/live-preview.ts:106-121 | outside live preview the decorations are cleared; after a document, viewport or selection change they are rendered again; otherwise they are kept |

## Left out

- Network I/O is a function parameter from URL to document. A failed fetch and an unparsable reply are the same `None`. Fetch errors raise Notice pop-ups, which are not modelled.
- The `async-mutex` locks, their timeouts and the `release()` calls in `clearCache` are left out. The engine is modelled sequentially, so the LockTimeout failure and interleaved calls are not covered.
- `initialize`, which starts the index load without awaiting it, is not modelled. A fresh `Api` followed by `GetHomebrewIndex` covers the same state.
- Locator.BrewSource: an index key that only a plain object's prototype supplies (such as `constructor`) is not modelled. The index is a map of the document's own properties.
- Text.IndexOf: positions count Unicode scalar values. JavaScript's `indexOf`, `lastIndexOf`, `substring` and `length` count UTF-16 code units, so after a character outside the Basic Multilingual Plane (an emoji) the source's positions are larger than the model's. The same shift applies to Processor.GetLinks starts and ends and to LivePreview.PlaceLinks document positions.
- Api.Api.DownloadData, Api.DownloadOutcomes, Api.Api.GetData: the documents are passed on as loaded. In the source `files.flatMap(x => x.file)` spreads a data file whose top level is a JSON array into its elements, and each element is then searched as a document. A `Doc` here is always an object.
- Text.Lower: lower-cases ASCII letters only. JavaScript's `toLowerCase` also maps other letters.
- Matcher.FindEntry: every element has a string name. An element without one (where `toLowerCase` throws) is not modelled, and a field that is not an array is treated as absent. A falsy `source` is the empty string.
- The `filename` field of each `getJsonFiles` entry is left out, because nothing reads it.
- Processor.BuildLink: the renderer's `splitFirstSpace` is assumed to return two parts. The span and anchor HTML are abstracted to the `Anchor` value (URL, colours, caption).
- `encodeURIComponent` is an uninterpreted function parameter.
- `postprocessor` (processor/processor.ts:21-45) is left out. It rewrites the DOM nodes of rendered notes.
- `TagWidget` (its `toDOM`, `eq` and random id) is left out. A widget is represented by the link it shows.
- LivePreview.InlineRender: the editor's visible ranges and syntax-tree walk are given as the list of visited nodes, each with its start, its formatting flag and its already trimmed text.
- LivePreview.InlineRender: the result keeps push order. `Decoration.set(widgets, true)` sorting the ranges is not modelled.
- The settings tab UI of settings/settings.ts and the plugin lifecycle of main.ts are left out.
- SettingsStore.Defaults: `PLUGIN_NAME` is a parameter, because the constants module is not part of this model.
- SettingsStore.Settings.Values: returns a snapshot of the stored values. In the source it returns the live object, so later `set` calls also show through an earlier result.
