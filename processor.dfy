/** The string logic of `TagProcessor` (processor/processor.ts): tag and
    text normalisation, the shortened tag text, styling, URL building with
    the duplicate-slash clean-up, and the position scan of `getLinks`. The
    5etools renderer functions are parameters, not interpreted here. */
module Processor {
  import opened Wrappers
  import opened Text

  /** `fixTag`: the legacy tags `@monster` and `@classtype` become `@creature`
      and `@class`; any other tag is kept. */
  function FixTag(tag: string): (r: string)
    ensures r != "@monster" && r != "@classtype"
    ensures r == tag || tag == "@monster" || tag == "@classtype"
  {
    if tag == "@monster" then "@creature"
    else if tag == "@classtype" then "@class"
    else tag
  }

  /** Normalising a tag twice is normalising it once. */
  lemma FixTagIdempotent(tag: string)
    ensures FixTag(FixTag(tag)) == FixTag(tag)
    ensures FixTag("@monster") == "@creature" && FixTag("@classtype") == "@class"
  {
  }

  /** `fixText`: every ';' replaced by '|'. */
  function FixText(text: string): (r: string)
    ensures |r| == |text|
    ensures forall i :: 0 <= i < |text| ==> r[i] == if text[i] == ';' then '|' else text[i]
    ensures ';' !in r
  {
    if text == [] then []
    else [if text[0] == ';' then '|' else text[0]] + FixText(text[1..])
  }

  /** One trailing ';' removed, as `shortenTagText` does. */
  function TrimSemicolon(s: string): string {
    if EndsWith(s, ";") then s[..|s| - 1] else s
  }

  /** `shortenTagText`: a null or empty display text is returned as it is;
      otherwise the tag text from its second character up to two characters
      before the display text's last occurrence, one trailing ';' removed,
      wrapped in braces. */
  function ShortenTagText(tagText: string, displayText: Option<string>): (r: Option<string>)
    ensures displayText.None? || displayText.value == "" ==> r == displayText
    ensures displayText.Some? && displayText.value != "" ==>
              r.Some? && 2 <= |r.value| <= |tagText| + 2 && r.value[0] == '{' && r.value[|r.value| - 1] == '}'
  {
    if displayText.None? || displayText.value == "" then displayText
    else
      var str := Substring(tagText, 1, LastIndexOf(tagText, displayText.value) - 1);
      Some("{" + TrimSemicolon(str) + "}")
  }

  /** With the display text at index 2 or later, the result is the braced
      tag text between the opening brace and the separator before the
      display text. */
  lemma ShortenFound(tagText: string, displayText: string)
    requires displayText != ""
    requires LastIndexOf(tagText, displayText) >= 2
    ensures var p := LastIndexOf(tagText, displayText);
            ShortenTagText(tagText, Some(displayText)) == Some("{" + TrimSemicolon(tagText[1..p - 1]) + "}")
  {
    var p := LastIndexOf(tagText, displayText);
    assert p <= |tagText| by {
      assert OccursAt(tagText, displayText, p);
    }
    assert Substring(tagText, 1, p - 1) == tagText[1..p - 1];
  }

  /** With the display text absent from the tag text, `substring(1, -2)`
      swaps its bounds and the result braces the FIRST character. */
  lemma ShortenNotFound(tagText: string, displayText: string)
    requires displayText != "" && tagText != ""
    requires forall k :: !OccursAt(tagText, displayText, k)
    ensures ShortenTagText(tagText, Some(displayText)) == Some("{" + TrimSemicolon(tagText[..1]) + "}")
  {
    var p := LastIndexOf(tagText, displayText);
    assert p == -1;
    assert Substring(tagText, 1, p - 1) == tagText[..1];
  }

  /** The colour overrides of `getColors`. */
  datatype Colors = Colors(color: Option<string>, hoverColor: Option<string>, bgColor: Option<string>)

  /** The colours a link is drawn with, after the defaults are applied. */
  datatype Style = Style(color: string, hoverColor: string, bgColor: string)

  /** `getColors`: a background colour exactly for the styled tags; only
      spells set the text and hover colours. */
  function GetColors(tag: string): (r: Colors)
    ensures r.bgColor.Some? <==> Styled(tag)
    ensures r.color.Some? <==> tag == "@spell"
    ensures r.hoverColor.Some? <==> tag == "@spell"
  {
    if tag == "@creature" then Colors(None, None, Some("LightBlue"))
    else if tag == "@item" then Colors(None, None, Some("Khaki"))
    else if tag == "@spell" then Colors(Some("White"), Some("LightGray"), Some("RebeccaPurple"))
    else Colors(None, None, None)
  }

  /** `getIcon`: an icon exactly for the styled tags. */
  function GetIcon(tag: string): (r: Option<string>)
    ensures r.Some? <==> Styled(tag)
    ensures r.Some? ==> r.value != ""
  {
    if tag == "@creature" then Some("\U{1F464}")
    else if tag == "@item" then Some("\U{1F5E1}\U{FE0F}")
    else if tag == "@spell" then Some("\U{1FA84}")
    else None
  }

  /** The destructuring default of `getLinks`: Black text, DarkSlateGray on
      hover, LightGray background unless `getColors` says otherwise. */
  function LinkStyle(tag: string): (r: Style)
    ensures Styled(tag) ==> r.bgColor != "LightGray"
    ensures !Styled(tag) ==> r == Style("Black", "DarkSlateGray", "LightGray")
    ensures tag != "@spell" ==> r.color == "Black" && r.hoverColor == "DarkSlateGray"
  {
    var c := GetColors(tag);
    Style(c.color.GetOr("Black"), c.hoverColor.GetOr("DarkSlateGray"), c.bgColor.GetOr("LightGray"))
  }

  /** The tags the plugin styles. */
  predicate Styled(tag: string) {
    tag == "@creature" || tag == "@item" || tag == "@spell"
  }

  /** `generateBaseUrl`: fixed quick-reference pages for `@skill` and
      `@sense`, otherwise the page and anchor below the tools site. */
  function GenerateBaseUrl(tools5eUrl: string, tag: string, page: string, hash: string): (r: string)
    ensures StartsWith(r, tools5eUrl + "/")
  {
    var path :=
      if tag == "@skill" then "quickreference.html#bookref-quick,2,skills"
      else if tag == "@sense" then "quickreference.html#bookref-quick,2,vision and light"
      else page + "#" + hash;
    assert (tools5eUrl + "/" + path)[..|tools5eUrl + "/"|] == tools5eUrl + "/";
    tools5eUrl + "/" + path
  }

  /** Skills and senses ignore the page and anchor; any other tag's URL
      ends with '#' and the anchor. */
  lemma BaseUrlSpec(tools5eUrl: string, tag: string, page: string, hash: string, page': string, hash': string)
    ensures tag == "@skill" || tag == "@sense" ==>
              GenerateBaseUrl(tools5eUrl, tag, page, hash) == GenerateBaseUrl(tools5eUrl, tag, page', hash')
    ensures tag != "@skill" && tag != "@sense" ==>
              EndsWith(GenerateBaseUrl(tools5eUrl, tag, page, hash), "#" + hash)
  {
  }

  /** Every run of '/' after the leading one of `s` removed. */
  function DropSlashes(s: string): (r: string)
    ensures |r| <= |s|
    ensures r == [] || r[0] != '/'
  {
    if s != [] && s[0] == '/' then DropSlashes(s[1..]) else s
  }

  /** A character other than ':' at `i`, followed by two '/': where the
      pattern `([^:]\/)\/+` starts a match. */
  predicate SlashRunAt(s: string, i: int) {
    0 <= i && i + 2 < |s| && s[i] != ':' && s[i + 1] == '/' && s[i + 2] == '/'
  }

  /** `baseUrl.replace(/([^:]\/)\/+/g, "$1")`, scanned left to right as the
      regular expression engine does: a character other than ':' followed by
      two or more '/' keeps the character and one '/'. */
  function CleanUrl(s: string): (r: string)
    ensures |r| <= |s|
    ensures |s| >= 1 ==> |r| >= 1 && r[0] == s[0]
    ensures |s| >= 2 ==> |r| >= 2 && r[1] == s[1]
    decreases |s|
  {
    if SlashRunAt(s, 0) then [s[0], '/'] + CleanUrl(DropSlashes(s[2..]))
    else if s == [] then []
    else [s[0]] + CleanUrl(s[1..])
  }

  /** No '/' doubled after a character other than ':'. */
  predicate Collapsed(s: string) {
    forall i :: 0 <= i < |s| ==> !SlashRunAt(s, i)
  }

  /** The clean-up leaves no doubled '/' except right after ':'. */
  lemma {:induction false} CleanUrlCollapses(s: string)
    ensures Collapsed(CleanUrl(s))
    decreases |s|
  {
    var r := CleanUrl(s);
    if SlashRunAt(s, 0) {
      var w := DropSlashes(s[2..]);
      CleanUrlCollapses(w);
      var rest := CleanUrl(w);
      assert r == [s[0], '/'] + rest;
      forall i | 0 <= i < |r| ensures !SlashRunAt(r, i) {
        if i >= 2 && i + 2 < |r| {
          assert r[i] == rest[i - 2] && r[i + 1] == rest[i - 1] && r[i + 2] == rest[i];
          assert !SlashRunAt(rest, i - 2);
        } else if 0 <= i < 2 && i + 2 < |r| {
          assert r[2] == rest[0] == w[0];
        }
      }
    } else if s != [] {
      CleanUrlCollapses(s[1..]);
      var rest := CleanUrl(s[1..]);
      assert r == [s[0]] + rest;
      forall i | 0 <= i < |r| ensures !SlashRunAt(r, i) {
        if i >= 1 && i + 2 < |r| {
          assert r[i] == rest[i - 1] && r[i + 1] == rest[i] && r[i + 2] == rest[i + 1];
          assert !SlashRunAt(rest, i - 1);
        }
      }
    }
  }

  /** A URL without doubled '/' (other than after ':') is left unchanged,
      so cleaning twice is cleaning once. */
  lemma {:induction false} CleanUrlKeepsCollapsed(s: string)
    requires Collapsed(s)
    ensures CleanUrl(s) == s
    decreases |s|
  {
    if s != [] {
      assert !SlashRunAt(s, 0);
      CollapsedTail(s);
      CleanUrlKeepsCollapsed(s[1..]);
    }
  }

  lemma CollapsedTail(s: string)
    requires s != [] && Collapsed(s)
    ensures Collapsed(s[1..])
  {
    forall i | 0 <= i < |s[1..]| ensures !SlashRunAt(s[1..], i) {
      if 0 <= i && i + 2 < |s[1..]| {
        assert s[1..][i] == s[i + 1] && s[1..][i + 1] == s[i + 2] && s[1..][i + 2] == s[i + 3];
        assert !SlashRunAt(s, i + 1);
      }
    }
  }

  lemma DropLeadingSlash(b: string)
    requires b == [] || b[0] != '/'
    ensures DropSlashes(['/'] + b) == b
  {
    assert (['/'] + b)[1..] == b;
  }

  lemma CleanUrlRunStep(s: string)
    requires SlashRunAt(s, 0)
    ensures CleanUrl(s) == [s[0], '/'] + CleanUrl(DropSlashes(s[2..]))
  {
  }

  lemma CleanUrlPlainStep(s: string)
    requires s != [] && !SlashRunAt(s, 0)
    ensures CleanUrl(s) == [s[0]] + CleanUrl(s[1..])
  {
  }

  lemma CleanUrlJoinOne(c: char, b: string)
    requires c != ':' && Collapsed(b) && (b == [] || b[0] != '/')
    ensures CleanUrl([c, '/', '/'] + b) == [c, '/'] + b
  {
    assert [c, '/', '/'] + b == [c] + Slashes(2) + b;
    CleanUrlLongRun(c, 2, b);
    CleanUrlKeepsCollapsed(b);
  }

  /** Joining a clean URL that does not end in '/' and a clean path with
      "//" leaves a single '/' between them: the doubled slash that a
      tools URL ending in '/' produces is removed. */
  lemma {:induction false} CleanUrlJoin(a: string, b: string)
    requires a != [] && Collapsed(a) && a[|a| - 1] != ':' && a[|a| - 1] != '/'
    requires Collapsed(b) && (b == [] || b[0] != '/')
    ensures CleanUrl(a + "//" + b) == a + "/" + b
    decreases |a|
  {
    var s := a + "//" + b;
    if |a| == 1 {
      CleanUrlJoinOne(a[0], b);
      assert s == [a[0], '/', '/'] + b && a + "/" + b == [a[0], '/'] + b;
    } else {
      var a' := a[1..];
      calc {
        CleanUrl(s);
      == { assert s[1] == a[1];
           if |a| >= 3 {
             assert s[2] == a[2];
             assert !SlashRunAt(a, 0);
           }
           CleanUrlPlainStep(s); }
        [a[0]] + CleanUrl(s[1..]);
      == { assert s[1..] == a' + "//" + b; }
        [a[0]] + CleanUrl(a' + "//" + b);
      == { CollapsedTail(a);
           assert a'[|a'| - 1] == a[|a| - 1];
           CleanUrlJoin(a', b); }
        [a[0]] + (a' + "/" + b);
      }
      assert [a[0]] + (a' + "/" + b) == a + "/" + b;
    }
  }

  /** `s` with every '/' removed. */
  function NoSlash(s: string): string {
    if s == [] then [] else (if s[0] == '/' then [] else [s[0]]) + NoSlash(s[1..])
  }

  lemma {:induction false} NoSlashAppend(a: string, b: string)
    ensures NoSlash(a + b) == NoSlash(a) + NoSlash(b)
  {
    if a == [] {
      assert a + b == b;
    } else {
      assert (a + b)[0] == a[0] && (a + b)[1..] == a[1..] + b;
      NoSlashAppend(a[1..], b);
    }
  }

  lemma {:induction false} NoSlashDrop(s: string)
    ensures NoSlash(DropSlashes(s)) == NoSlash(s)
  {
    if s != [] && s[0] == '/' {
      NoSlashDrop(s[1..]);
    }
  }

  /** The clean-up removes nothing but '/' characters: every other
      character of the URL is kept, in order. */
  lemma {:induction false} CleanUrlKeepsText(s: string)
    ensures NoSlash(CleanUrl(s)) == NoSlash(s)
    decreases |s|
  {
    if SlashRunAt(s, 0) {
      var w := DropSlashes(s[2..]);
      CleanUrlKeepsText(w);
      NoSlashAppend([s[0], '/'], CleanUrl(w));
      NoSlashDrop(s[2..]);
      assert s == [s[0], '/'] + s[2..];
      NoSlashAppend([s[0], '/'], s[2..]);
    } else if s != [] {
      CleanUrlKeepsText(s[1..]);
      assert CleanUrl(s) == [s[0]] + CleanUrl(s[1..]);
      NoSlashAppend([s[0]], CleanUrl(s[1..]));
      assert s == [s[0]] + s[1..];
      NoSlashAppend([s[0]], s[1..]);
    }
  }

  /** A run of `n` slashes. */
  function Slashes(n: nat): (r: string)
    ensures |r| == n && forall i :: 0 <= i < n ==> r[i] == '/'
  {
    seq(n, _ => '/')
  }

  lemma {:induction false} DropSlashRun(n: nat, b: string)
    requires b == [] || b[0] != '/'
    ensures DropSlashes(Slashes(n) + b) == b
  {
    if n > 0 {
      assert (Slashes(n) + b)[1..] == Slashes(n - 1) + b;
      DropSlashRun(n - 1, b);
    } else {
      assert Slashes(n) + b == b;
    }
  }

  lemma CleanUrlLongRun(c: char, n: nat, b: string)
    requires c != ':' && n >= 2 && (b == [] || b[0] != '/')
    ensures CleanUrl([c] + Slashes(n) + b) == [c, '/'] + CleanUrl(b)
  {
    var s := [c] + Slashes(n) + b;
    assert s[0] == c && s[1] == '/' && s[2] == '/';
    CleanUrlRunStep(s);
    assert s[2..] == Slashes(n - 1) + b;
    DropSlashRun(n - 1, b);
  }

  lemma CleanUrlOneSlash(c: char, b: string)
    requires c != ':' && (b == [] || b[0] != '/')
    ensures CleanUrl([c, '/'] + b) == [c, '/'] + CleanUrl(b)
  {
    var s := [c, '/'] + b;
    var t := ['/'] + b;
    assert s[1..] == t && t[1..] == b;
    CleanUrlPlainStep(s);
    CleanUrlPlainStep(t);
  }

  /** A run of one or more '/' after a character other than ':' leaves
      exactly one '/', and the rest of the URL is cleaned on its own. */
  lemma CleanUrlRun(c: char, n: nat, b: string)
    requires c != ':' && n >= 1 && (b == [] || b[0] != '/')
    ensures CleanUrl([c] + Slashes(n) + b) == [c, '/'] + CleanUrl(b)
  {
    if n >= 2 {
      CleanUrlLongRun(c, n, b);
    } else {
      assert [c] + Slashes(n) + b == [c, '/'] + b;
      CleanUrlOneSlash(c, b);
    }
  }

  lemma CleanUrlIdempotent(s: string)
    ensures CleanUrl(CleanUrl(s)) == CleanUrl(s)
  {
    CleanUrlCollapses(s);
    CleanUrlKeepsCollapsed(CleanUrl(s));
  }

  /** The settings `generateUrl` and `generateBaseUrl` read through
      `getOrDefault`. */
  datatype LinkConfig = LinkConfig(tools5eUrl: string, mode: string, openGateId: string, openGateTitle: string)

  /** `generateUrl`: the cleaned URL in `link` mode, wrapped in an Open Gate
      URL in `opengate` mode, undefined in any other mode. */
  function GenerateUrl(baseUrl: string, cfg: LinkConfig, encode: string -> string): (r: Option<string>)
    ensures cfg.mode == "link" ==> r == Some(CleanUrl(baseUrl)) && Collapsed(r.value)
    ensures cfg.mode == "opengate" ==> r.Some? && StartsWith(r.value, "obsidian://opengate?id=" + cfg.openGateId)
                                       && EndsWith(r.value, "&url=" + encode(CleanUrl(baseUrl)))
    ensures cfg.mode != "link" && cfg.mode != "opengate" ==> r.None?
  {
    var clean := CleanUrl(baseUrl);
    CleanUrlCollapses(baseUrl);
    if cfg.mode == "link" then Some(clean)
    else if cfg.mode == "opengate" then
      Some("obsidian://opengate?id=" + cfg.openGateId + "&title=" + encode(cfg.openGateTitle)
           + "&url=" + encode(clean))
    else None
  }

  /** The default tools URL ends in '/', so the generated item URL has a
      doubled slash, which the clean-up removes. */
  lemma DefaultSiteUrlExample()
    ensures CleanUrl(GenerateBaseUrl("https://5e.tools/", "@item", "items.html", "longsword_phb"))
            == "https://5e.tools/items.html#longsword_phb"
  {
    var a, b := "https://5e.tools", "items.html#longsword_phb";
    DefaultSiteParts();
    DefaultSiteJoined();
    DefaultSiteCollapsed();
    CleanUrlJoin(a, b);
  }

  lemma DefaultSiteParts()
    ensures GenerateBaseUrl("https://5e.tools/", "@item", "items.html", "longsword_phb")
            == "https://5e.tools" + "//" + "items.html#longsword_phb"
  {
    assert "items.html" + "#" + "longsword_phb" == "items.html#longsword_phb";
    assert "https://5e.tools/" + "/" == "https://5e.tools" + "//";
  }

  lemma DefaultSiteJoined()
    ensures "https://5e.tools" + "/" + "items.html#longsword_phb" == "https://5e.tools/items.html#longsword_phb"
  {
  }

  lemma DefaultSiteCollapsed()
    ensures Collapsed("https://5e.tools") && Collapsed("items.html#longsword_phb")
  {
    var a, b := "https://5e.tools", "items.html#longsword_phb";
    forall i | 0 <= i < |a| ensures !SlashRunAt(a, i) {
      assert forall k :: 0 <= k < |a| && a[k] == '/' ==> k == 6 || k == 7;
    }
    forall i | 0 <= i < |b| ensures !SlashRunAt(b, i) {
      assert forall k :: 0 <= k < |b| ==> b[k] != '/';
    }
  }

  /** What `Renderer.utils.getTagMeta` of 5etools reports for a tag. */
  datatype TagMeta = TagMeta(name: string, page: string, hash: string, displayText: Option<string>)

  /** The 5etools renderer functions `getLinks` calls, as parameters:
      `splitByTags`, `splitFirstSpace`, and `getTagMeta`, which is None
      where it throws. */
  datatype Renderer = Renderer(
    splitByTags: string -> seq<string>,
    splitFirstSpace: string -> (string, string),
    getTagMeta: (string, string) -> Option<TagMeta>)

  /** The anchor inside a link's span: its target, colours and caption. */
  datatype Anchor = Anchor(url: Option<string>, style: Style, caption: string)

  /** One entry of the array `getLinks` returns. `anchor` is None for a tag
      `getTagMeta` rejects, whose span holds only the text. */
  datatype Link = Link(
    tagText: string, tag: string, text: string,
    displayText: Option<string>, shortenedTagText: Option<string>,
    start: int, end: int, anchor: Option<Anchor>)

  /** `splitByTags(...).filter(x => x.startsWith('{@'))`. */
  function TagPieces(pieces: seq<string>): (r: seq<string>)
    ensures |r| <= |pieces|
    ensures forall t :: t in r <==> t in pieces && StartsWith(t, "{@")
  {
    if pieces == [] then []
    else if StartsWith(pieces[0], "{@") then [pieces[0]] + TagPieces(pieces[1..])
    else TagPieces(pieces[1..])
  }

  /** The filter works piece by piece: filtering a concatenation is
      concatenating the filtered parts, so the kept pieces stay in their
      order and keep their multiplicity. */
  lemma {:induction false} TagPiecesAppend(a: seq<string>, b: seq<string>)
    ensures TagPieces(a + b) == TagPieces(a) + TagPieces(b)
  {
    if a == [] {
      assert a + b == b;
    } else {
      var ab := a + b;
      assert ab[0] == a[0] && ab[1..] == a[1..] + b;
      TagPiecesAppend(a[1..], b);
      if StartsWith(a[0], "{@") {
        calc {
          TagPieces(ab);
          [a[0]] + TagPieces(a[1..] + b);
          [a[0]] + (TagPieces(a[1..]) + TagPieces(b));
        }
      } else {
        calc {
          TagPieces(ab);
          TagPieces(a[1..] + b);
        }
      }
    }
  }

  /** A single piece is kept exactly when it starts with `{@`. */
  lemma TagPiecesOne(x: string)
    ensures TagPieces([x]) == if StartsWith(x, "{@") then [x] else []
  {
    assert [x][1..] == [];
  }

  /** `s.slice(1, -1)`. */
  function SliceInner(s: string): string {
    if |s| >= 2 then s[1..|s| - 1] else ""
  }

  /** Where a tag ends: after its closing brace, or two characters after
      its start when it has none. */
  function EndOf(start: int, tagText: string): int {
    if EndsWith(tagText, "}") then start + |tagText| else start + 2
  }

  /** The caption of a link's anchor. */
  function Caption(tag: string, meta: TagMeta): string {
    var icon := GetIcon(tag);
    (if icon.Some? then icon.value + " " else "") + meta.displayText.GetOr(meta.name)
  }

  /** The body of the `map` callback of `getLinks` for one tag found at
      `start`. */
  function BuildLink(tagText: string, start: int, rd: Renderer, cfg: LinkConfig, encode: string -> string): (l: Link)
    ensures l.tagText == tagText && l.start == start && l.end == EndOf(start, tagText)
  {
    var parts := rd.splitFirstSpace(SliceInner(tagText));
    var tag := FixTag(parts.0);
    var text := FixText(parts.1);
    var end := EndOf(start, tagText);
    match rd.getTagMeta(tag, text)
    case None => Link(tagText, tag, text, None, None, start, end, None)
    case Some(meta) =>
      var url := GenerateUrl(GenerateBaseUrl(cfg.tools5eUrl, tag, meta.page, meta.hash), cfg, encode);
      Link(tagText, tag, text, meta.displayText, ShortenTagText(tagText, meta.displayText),
           start, end, Some(Anchor(url, LinkStyle(tag), Caption(tag, meta))))
  }

  /** A link never carries a legacy tag name or a ';' in its text; a tag
      the renderer rejects yields a bare link without display text; any
      other is drawn in its tag's style, captioned with its display text
      (else its name), and in `link` mode points at a cleaned URL. */
  lemma BuildLinkSpec(tagText: string, start: int, rd: Renderer, cfg: LinkConfig, encode: string -> string)
    ensures var l := BuildLink(tagText, start, rd, cfg, encode);
      && l.tag != "@monster" && l.tag != "@classtype" && ';' !in l.text
      && (l.anchor.None? <==> rd.getTagMeta(l.tag, l.text).None?)
      && (l.anchor.None? ==> l.displayText.None? && l.shortenedTagText.None?)
      && (l.anchor.Some? ==>
            var meta := rd.getTagMeta(l.tag, l.text).value;
            l.displayText == meta.displayText
            && l.shortenedTagText == ShortenTagText(tagText, meta.displayText)
            && l.anchor.value.style == LinkStyle(l.tag)
            && EndsWith(l.anchor.value.caption, meta.displayText.GetOr(meta.name))
            && (cfg.mode == "link" ==> l.anchor.value.url.Some? && Collapsed(l.anchor.value.url.value)))
  {
    var parts := rd.splitFirstSpace(SliceInner(tagText));
    var tag := FixTag(parts.0);
    var text := FixText(parts.1);
    match rd.getTagMeta(tag, text)
    case None =>
    case Some(meta) =>
      var caption := Caption(tag, meta);
      var shown := meta.displayText.GetOr(meta.name);
      assert caption[|caption| - |shown|..] == shown;
  }

  /** The links for `tags`, each searched for from the end of the previous
      one (`currentPos`), the first from `pos`. */
  function LinksFrom(content: string, tags: seq<string>, pos: int, rd: Renderer, cfg: LinkConfig,
                     encode: string -> string): (ls: seq<Link>)
    ensures |ls| == |tags|
  {
    if tags == [] then []
    else
      var l := BuildLink(tags[0], IndexOf(content, tags[0], pos), rd, cfg, encode);
      [l] + LinksFrom(content, tags[1..], l.end, rd, cfg, encode)
  }

  /** Where the search for link `i` starts. */
  function SearchFrom(links: seq<Link>, i: nat, pos: int): int
    requires i <= |links|
  {
    if i == 0 then pos else links[i - 1].end
  }

  /** Link `i` is built from tag `i` at its first occurrence at or after the
      end of link `i - 1`. */
  lemma {:induction false} LinkAt(content: string, tags: seq<string>, pos: int, rd: Renderer,
                                  cfg: LinkConfig, encode: string -> string, i: nat)
    requires i < |tags|
    ensures var ls := LinksFrom(content, tags, pos, rd, cfg, encode);
            ls[i] == BuildLink(tags[i], IndexOf(content, tags[i], SearchFrom(ls, i, pos)), rd, cfg, encode)
    decreases i
  {
    var ls := LinksFrom(content, tags, pos, rd, cfg, encode);
    var l := BuildLink(tags[0], IndexOf(content, tags[0], pos), rd, cfg, encode);
    var rest := LinksFrom(content, tags[1..], l.end, rd, cfg, encode);
    assert ls == [l] + rest;
    if i > 0 {
      LinkAt(content, tags[1..], l.end, rd, cfg, encode, i - 1);
      assert tags[1..][i - 1] == tags[i] && ls[i] == rest[i - 1];
      if i > 1 {
        assert ls[i - 1] == rest[i - 2];
      }
      assert SearchFrom(ls, i, pos) == SearchFrom(rest, i - 1, l.end);
    }
  }

  /** Each link records its own tag text and the first occurrence of that
      text at or after the end of the previous link (or -1 when there is
      none); a found tag spans at least its two opening characters, so each
      found link starts at or after the end of the link before it (see
      LinksSorted for the case where every tag text is found). */
  lemma LinksFromSpec(content: string, tags: seq<string>, pos: int, rd: Renderer,
                      cfg: LinkConfig, encode: string -> string, i: nat)
    requires forall t :: t in tags ==> StartsWith(t, "{@")
    requires i < |tags|
    ensures var ls := LinksFrom(content, tags, pos, rd, cfg, encode);
            var from := Clamp(SearchFrom(ls, i, pos), |content|);
            ls[i].tagText == tags[i]
            && (ls[i].start == -1 ==> forall k :: from <= k ==> !OccursAt(content, tags[i], k))
            && (ls[i].start != -1 ==>
                  SearchFrom(ls, i, pos) <= ls[i].start && from <= ls[i].start && OccursAt(content, tags[i], ls[i].start) && ls[i].start + 2 <= ls[i].end
                  && ls[i].end == (if EndsWith(tags[i], "}") then ls[i].start + |tags[i]| else ls[i].start + 2)
                  && forall k :: from <= k < ls[i].start ==> !OccursAt(content, tags[i], k))
  {
    LinkAt(content, tags, pos, rd, cfg, encode, i);
    var ls := LinksFrom(content, tags, pos, rd, cfg, encode);
    var from := Clamp(SearchFrom(ls, i, pos), |content|);
    if ls[i].start == -1 {
      forall k | from <= k ensures !OccursAt(content, tags[i], k) {
        if k > |content| {
          assert !OccursAt(content, tags[i], k);
        }
      }
    }
    assert tags[i] in tags;
  }

  lemma LinksFromCons(content: string, tags: seq<string>, i: nat, pos: int, rd: Renderer, cfg: LinkConfig,
                      encode: string -> string)
    requires i < |tags|
    ensures LinksFrom(content, tags[i..], pos, rd, cfg, encode)
            == [BuildLink(tags[i], IndexOf(content, tags[i], pos), rd, cfg, encode)]
               + LinksFrom(content, tags[i + 1..], EndOf(IndexOf(content, tags[i], pos), tags[i]), rd, cfg, encode)
  {
    assert tags[i..][0] == tags[i] && tags[i..][1..] == tags[i + 1..];
  }

  /** Each found link starts at or after the end of the link before it
      and sits at an occurrence of its tag text; when every tag text is
      found, LinksSorted orders the links pairwise. */
  lemma LinksOrdered(content: string, tags: seq<string>, rd: Renderer, cfg: LinkConfig, encode: string -> string)
    requires forall t :: t in tags ==> StartsWith(t, "{@")
    ensures var ls := LinksFrom(content, tags, 0, rd, cfg, encode);
      (forall i :: 0 < i < |ls| && ls[i].start != -1 ==> ls[i - 1].end <= ls[i].start)
      && (forall i :: 0 <= i < |ls| && ls[i].start != -1 ==> OccursAt(content, ls[i].tagText, ls[i].start))
  {
    var ls := LinksFrom(content, tags, 0, rd, cfg, encode);
    forall j | 0 <= j < |ls| && ls[j].start != -1
      ensures OccursAt(content, ls[j].tagText, ls[j].start) && (j > 0 ==> ls[j - 1].end <= ls[j].start)
    {
      LinksFromSpec(content, tags, 0, rd, cfg, encode, j);
    }
  }

  /** Consecutive links in order, each spanning forwards, are in order
      pairwise. */
  lemma {:induction false} ChainOrdered(ls: seq<Link>, i: nat, j: nat)
    requires forall k :: 0 < k < |ls| ==> ls[k - 1].end <= ls[k].start
    requires forall k :: 0 <= k < |ls| ==> ls[k].start <= ls[k].end
    requires i < j < |ls|
    ensures ls[i].end <= ls[j].start
    decreases j - i
  {
    if i + 1 < j {
      ChainOrdered(ls, i + 1, j);
    }
  }

  /** When every tag text is found, the links lie in the content in order
      and do not overlap. */
  lemma LinksSorted(content: string, tags: seq<string>, rd: Renderer, cfg: LinkConfig, encode: string -> string)
    requires forall t :: t in tags ==> StartsWith(t, "{@")
    ensures var ls := LinksFrom(content, tags, 0, rd, cfg, encode);
      (forall k :: 0 <= k < |ls| ==> ls[k].start != -1) ==>
        forall i, j :: 0 <= i < j < |ls| ==> ls[i].end <= ls[j].start
  {
    var ls := LinksFrom(content, tags, 0, rd, cfg, encode);
    if forall k :: 0 <= k < |ls| ==> ls[k].start != -1 {
      forall k | 0 <= k < |ls| ensures ls[k].start <= ls[k].end && (k > 0 ==> ls[k - 1].end <= ls[k].start) {
        LinksFromSpec(content, tags, 0, rd, cfg, encode, k);
      }
      forall i, j | 0 <= i < j < |ls| ensures ls[i].end <= ls[j].start {
        ChainOrdered(ls, i, j);
      }
    }
  }

  /** One step of the scan of `getLinks`. */
  lemma LinksStep(content: string, tags: seq<string>, i: nat, pos: int, links: seq<Link>,
                  rd: Renderer, cfg: LinkConfig, encode: string -> string)
    requires i < |tags|
    ensures var l := BuildLink(tags[i], IndexOf(content, tags[i], pos), rd, cfg, encode);
            links + LinksFrom(content, tags[i..], pos, rd, cfg, encode)
            == (links + [l]) + LinksFrom(content, tags[i + 1..], l.end, rd, cfg, encode)
  {
    LinksFromCons(content, tags, i, pos, rd, cfg, encode);
  }

  /** The `map` of `getLinks` with its running `currentPos`: each tag is
      searched for from the end of the link before it. */
  method ScanLinks(content: string, tags: seq<string>, rd: Renderer, cfg: LinkConfig, encode: string -> string)
    returns (links: seq<Link>)
    ensures links == LinksFrom(content, tags, 0, rd, cfg, encode)
  {
    ghost var full := LinksFrom(content, tags, 0, rd, cfg, encode);
    var currentPos := 0;
    links := [];
    var i := 0;
    while i < |tags|
      invariant 0 <= i <= |tags|
      invariant links + LinksFrom(content, tags[i..], currentPos, rd, cfg, encode) == full
    {
      var tagText := tags[i];
      var start := IndexOf(content, tagText, currentPos);
      var link := BuildLink(tagText, start, rd, cfg, encode);
      LinksStep(content, tags, i, currentPos, links, rd, cfg, encode);
      links := links + [link];
      currentPos := link.end;
      i := i + 1;
    }
    assert LinksFrom(content, tags[i..], currentPos, rd, cfg, encode) == [];
  }

  /** `getLinks`: the tags of the content, in order, each paired with the
      position of its first occurrence after the previous tag. */
  method GetLinks(content: string, rd: Renderer, cfg: LinkConfig, encode: string -> string) returns (links: seq<Link>)
    ensures content == "" ==> links == []
    ensures content != "" ==> links == LinksFrom(content, TagPieces(rd.splitByTags(content)), 0, rd, cfg, encode)
    ensures content != "" ==> |links| == |TagPieces(rd.splitByTags(content))|
    ensures forall i :: 0 < i < |links| && links[i].start != -1 ==> links[i - 1].end <= links[i].start
    ensures forall i :: 0 <= i < |links| && links[i].start != -1 ==> OccursAt(content, links[i].tagText, links[i].start)
    ensures (forall k :: 0 <= k < |links| ==> links[k].start != -1) ==>
              forall i, j :: 0 <= i < j < |links| ==> links[i].end <= links[j].start
  {
    if content == "" {
      return [];
    }
    var tags := TagPieces(rd.splitByTags(content));
    if |tags| == 0 {
      return [];
    }
    links := ScanLinks(content, tags, rd, cfg, encode);
    LinksOrdered(content, tags, rd, cfg, encode);
    LinksSorted(content, tags, rd, cfg, encode);
  }
}
