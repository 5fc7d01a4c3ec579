/** The live-preview decorations of processor/live-preview.ts: the
    selection-overlap test and the per-link decision of `inlineRender`
    (skip a position pair already seen, else a bold-italic mark and then
    either a highlight mark or a widget), with the editor's syntax tree and
    selection given as values. */
module LivePreview {
  import opened Wrappers
  import opened Text
  import opened Processor

  /** One range of the editor selection. */
  datatype SelRange = SelRange(from: int, to: int)

  /** Some selection range meets the closed interval [from, to]. */
  predicate Overlaps(sel: seq<SelRange>, from: int, to: int) {
    exists k :: 0 <= k < |sel| && sel[k].from <= to && sel[k].to >= from
  }

  /** `selectionAndRangeOverlap`: the ranges are tried in order and the
      first one that meets the interval answers true. */
  method SelectionAndRangeOverlap(sel: seq<SelRange>, rangeFrom: int, rangeTo: int) returns (r: bool)
    ensures r <==> Overlaps(sel, rangeFrom, rangeTo)
  {
    var i := 0;
    while i < |sel|
      invariant 0 <= i <= |sel|
      invariant forall k :: 0 <= k < i ==> !(sel[k].from <= rangeTo && sel[k].to >= rangeFrom)
    {
      if sel[i].from <= rangeTo && sel[i].to >= rangeFrom {
        return true;
      }
      i := i + 1;
    }
    return false;
  }

  /** An empty selection meets nothing; a range that only touches an end of
      the interval meets it; the test over two lists of ranges is the
      disjunction of the tests over each. */
  lemma OverlapSpec(sel: seq<SelRange>, more: seq<SelRange>, from: int, to: int)
    ensures !Overlaps([], from, to)
    ensures forall k :: 0 <= k < |sel| && sel[k].from <= sel[k].to && from <= to && (sel[k].to == from || sel[k].from == to)
                        ==> Overlaps(sel, from, to)
    ensures Overlaps(sel + more, from, to) <==> Overlaps(sel, from, to) || Overlaps(more, from, to)
  {
    var all := sel + more;
    if Overlaps(sel, from, to) {
      var k :| 0 <= k < |sel| && sel[k].from <= to && sel[k].to >= from;
      assert all[k] == sel[k];
    }
    if Overlaps(more, from, to) {
      var k :| 0 <= k < |more| && more[k].from <= to && more[k].to >= from;
      assert all[|sel| + k] == more[k];
    }
    if Overlaps(all, from, to) {
      var k :| 0 <= k < |all| && all[k].from <= to && all[k].to >= from;
      if k >= |sel| {
        assert more[k - |sel|] == all[k];
      }
    }
  }

  /** A node of the syntax tree visited by `iterate`: where it starts,
      whether its type name contains "formatting", and its trimmed text. */
  datatype SyntaxNode = SyntaxNode(from: int, formatting: bool, text: string)

  /** A link at its document position. */
  datatype Placed = Placed(start: int, end: int, link: Link)

  datatype MarkStyle = BoldItalic | Highlight

  /** A range of the decoration set: a mark over [from, to) or a widget
      showing a link at one position. */
  datatype Decoration = Mark(from: int, to: int, style: MarkStyle) | Widget(at: int, link: Link)

  /** The links `getLinks` returns for a node's text. */
  function NodeLinks(text: string, rd: Renderer, cfg: LinkConfig, encode: string -> string): seq<Link> {
    if text == "" then [] else LinksFrom(text, TagPieces(rd.splitByTags(text)), 0, rd, cfg, encode)
  }

  /** Links shifted by the start of their node. */
  function PlaceLinks(from: int, links: seq<Link>): (ps: seq<Placed>)
    ensures |ps| == |links|
    ensures forall k :: 0 <= k < |links| ==>
              ps[k].link == links[k] && ps[k].start - links[k].start == from && ps[k].end - links[k].end == from
  {
    seq(|links|, k requires 0 <= k < |links| => Placed(from + links[k].start, from + links[k].end, links[k]))
  }

  /** Every link of every non-formatting node, in visiting order. */
  function Placements(nodes: seq<SyntaxNode>, rd: Renderer, cfg: LinkConfig, encode: string -> string): seq<Placed> {
    if nodes == [] then []
    else
      var n := nodes[|nodes| - 1];
      Placements(nodes[..|nodes| - 1], rd, cfg, encode)
      + (if n.formatting then [] else PlaceLinks(n.from, NodeLinks(n.text, rd, cfg, encode)))
  }

  function Key(p: Placed): (int, int) {
    (p.start, p.end)
  }

  function Keys(ps: seq<Placed>): set<(int, int)> {
    set p | p in ps :: Key(p)
  }

  lemma KeysAppend(ps: seq<Placed>, p: Placed)
    ensures Keys(ps + [p]) == Keys(ps) + {Key(p)}
  {
    assert p in ps + [p];
    forall q | q in ps ensures q in ps + [p] {
    }
  }

  /** The placements whose position pair was not seen before, in order. */
  function Dedup(ps: seq<Placed>): seq<Placed> {
    if ps == [] then []
    else
      var d := Dedup(ps[..|ps| - 1]);
      var p := ps[|ps| - 1];
      if Key(p) in Keys(d) then d else d + [p]
  }

  /** Deduplication keeps every position pair, keeps each one once, keeps
      only placements that were there, and keeps the first placement of
      each pair. */
  lemma {:induction false} DedupSpec(ps: seq<Placed>)
    ensures var d := Dedup(ps);
      Keys(d) == Keys(ps)
      && (forall i, j :: 0 <= i < j < |d| ==> Key(d[i]) != Key(d[j]))
      && (forall q :: q in d ==> q in ps)
      && (forall i :: 0 <= i < |ps| && (forall j :: 0 <= j < i ==> Key(ps[j]) != Key(ps[i])) ==> ps[i] in d)
  {
    if ps != [] {
      var init := ps[..|ps| - 1];
      var p := ps[|ps| - 1];
      var d0 := Dedup(init);
      DedupSpec(init);
      assert ps == init + [p];
      KeysAppend(init, p);
      if Key(p) !in Keys(d0) {
        KeysAppend(d0, p);
        var d := d0 + [p];
        forall i, j | 0 <= i < j < |d| ensures Key(d[i]) != Key(d[j]) {
          if j == |d0| {
            assert d[i] in d0;
          }
        }
      }
      forall i | 0 <= i < |ps| && (forall j :: 0 <= j < i ==> Key(ps[j]) != Key(ps[i])) ensures ps[i] in Dedup(ps) {
        if i < |init| {
          assert init[i] == ps[i];
          forall j | 0 <= j < i ensures Key(init[j]) != Key(init[i]) {
            assert init[j] == ps[j];
          }
        }
      }
    }
  }

  /** The decorations for one newly seen link: a bold-italic mark over it,
      then a highlight mark when the selection meets it, or else a widget
      at its end. */
  function Group(p: Placed, sel: seq<SelRange>): seq<Decoration> {
    [Mark(p.start, p.end, BoldItalic)]
    + (if Overlaps(sel, p.start, p.end) then [Mark(p.start, p.end, Highlight)] else [Widget(p.end, p.link)])
  }

  function Decorations(ps: seq<Placed>, sel: seq<SelRange>): seq<Decoration> {
    if ps == [] then [] else Decorations(ps[..|ps| - 1], sel) + Group(ps[|ps| - 1], sel)
  }

  /** Placement `i` gives decorations `2 i` and `2 i + 1`. */
  lemma {:induction false} DecorationsSpec(ps: seq<Placed>, sel: seq<SelRange>)
    ensures var ds := Decorations(ps, sel);
      |ds| == 2 * |ps|
      && forall i :: 0 <= i < |ps| ==>
           ds[2 * i] == Mark(ps[i].start, ps[i].end, BoldItalic)
           && ds[2 * i + 1] == (if Overlaps(sel, ps[i].start, ps[i].end) then Mark(ps[i].start, ps[i].end, Highlight)
                                else Widget(ps[i].end, ps[i].link))
  {
    if ps != [] {
      var init := ps[..|ps| - 1];
      DecorationsSpec(init, sel);
      forall i | 0 <= i < |init| ensures init[i] == ps[i] {
      }
    }
  }

  /** After deduplication, every position pair of the links carries a
      bold-italic mark. */
  lemma EveryPairMarked(ps: seq<Placed>, sel: seq<SelRange>)
    ensures var ds := Decorations(Dedup(ps), sel);
      forall key :: key in Keys(ps) ==> exists i :: 0 <= i < |ds| && ds[i] == Mark(key.0, key.1, BoldItalic)
  {
    var d := Dedup(ps);
    var ds := Decorations(d, sel);
    DedupSpec(ps);
    DecorationsSpec(d, sel);
    forall key | key in Keys(ps) ensures exists i :: 0 <= i < |ds| && ds[i] == Mark(key.0, key.1, BoldItalic) {
      assert key in Keys(d);
      var q :| q in d && Key(q) == key;
      var k :| 0 <= k < |d| && d[k] == q;
      assert ds[2 * k] == Mark(key.0, key.1, BoldItalic);
    }
  }

  /** Every bold-italic mark covers the pair of one of the placements. */
  lemma {:induction false} MarksCoverKeys(ps: seq<Placed>, sel: seq<SelRange>)
    ensures forall m: Decoration :: m in Decorations(ps, sel) && m.Mark? && m.style == BoldItalic ==> (m.from, m.to) in Keys(ps)
  {
    if ps != [] {
      var init, p := ps[..|ps| - 1], ps[|ps| - 1];
      assert ps == init + [p];
      MarksCoverKeys(init, sel);
      KeysAppend(init, p);
      var g := Group(p, sel);
      forall m: Decoration | m in Decorations(ps, sel) && m.Mark? && m.style == BoldItalic ensures (m.from, m.to) in Keys(ps) {
        if m in g {
          assert m == g[0];
        }
      }
    }
  }

  /** No bold-italic mark occurs twice. */
  predicate BoldMarksDistinct(ds: seq<Decoration>) {
    forall i, j :: 0 <= i < j < |ds| && ds[i].Mark? && ds[i].style == BoldItalic ==> ds[j] != ds[i]
  }

  /** Over placements with distinct pairs, no two bold-italic marks are
      equal. */
  lemma {:induction false} MarksOfDistinct(ps: seq<Placed>, sel: seq<SelRange>)
    requires forall i, j :: 0 <= i < j < |ps| ==> Key(ps[i]) != Key(ps[j])
    ensures BoldMarksDistinct(Decorations(ps, sel))
  {
    if ps != [] {
      var init, p := ps[..|ps| - 1], ps[|ps| - 1];
      assert ps == init + [p];
      MarksOfDistinct(init, sel);
      MarksCoverKeys(init, sel);
      var ds0 := Decorations(init, sel);
      var g := Group(p, sel);
      var ds := ds0 + g;
      assert Decorations(ps, sel) == ds;
      assert Key(p) !in Keys(init) by {
        forall q | q in init ensures Key(q) != Key(p) {
          var k :| 0 <= k < |init| && init[k] == q;
          assert ps[k] == q;
        }
      }
      forall i, j | 0 <= i < j < |ds| && ds[i].Mark? && ds[i].style == BoldItalic ensures ds[j] != ds[i] {
        if j < |ds0| {
          assert ds[i] == ds0[i] && ds[j] == ds0[j];
          assert BoldMarksDistinct(ds0);
        } else if j == |ds0| {
          assert ds[i] == ds0[i] && ds0[i] in ds0;
          assert (ds[i].from, ds[i].to) in Keys(init);
          assert ds[j] == Mark(p.start, p.end, BoldItalic) && Key(p) == (p.start, p.end);
          assert ds[j] != ds[i];
        } else {
          assert ds[j] == g[1];
          assert g[1].Widget? || g[1].style == Highlight;
          assert ds[j] != ds[i];
        }
      }
    }
  }

  /** ... and no pair carries two: the render pass decorates a position
      pair at most once. */
  lemma MarkedOnce(ps: seq<Placed>, sel: seq<SelRange>)
    ensures var ds := Decorations(Dedup(ps), sel);
      forall i, j :: 0 <= i < j < |ds| && ds[i].Mark? && ds[i].style == BoldItalic ==> ds[j] != ds[i]
  {
    DedupSpec(ps);
    MarksOfDistinct(Dedup(ps), sel);
  }

  lemma PlaceLinksSnoc(from: int, links: seq<Link>, j: nat)
    requires j < |links|
    ensures PlaceLinks(from, links[..j + 1])
            == PlaceLinks(from, links[..j]) + [Placed(from + links[j].start, from + links[j].end, links[j])]
  {
  }

  lemma PlacedSnoc(placed0: seq<Placed>, from: int, links: seq<Link>, j: nat)
    requires j < |links|
    ensures placed0 + PlaceLinks(from, links[..j + 1])
            == placed0 + PlaceLinks(from, links[..j]) + [Placed(from + links[j].start, from + links[j].end, links[j])]
  {
    PlaceLinksSnoc(from, links, j);
  }

  lemma PlacementsSnoc(nodes: seq<SyntaxNode>, i: nat, rd: Renderer, cfg: LinkConfig, encode: string -> string)
    requires i < |nodes|
    ensures Placements(nodes[..i + 1], rd, cfg, encode)
            == Placements(nodes[..i], rd, cfg, encode)
               + (if nodes[i].formatting then [] else PlaceLinks(nodes[i].from, NodeLinks(nodes[i].text, rd, cfg, encode)))
  {
    assert nodes[..i + 1][..i] == nodes[..i];
  }

  /** One step of the render pass: a placement whose pair was seen adds
      nothing, any other adds its pair and its group of decorations. */
  lemma RenderStep(placed: seq<Placed>, p: Placed, sel: seq<SelRange>)
    ensures Key(p) in Keys(Dedup(placed)) ==> Dedup(placed + [p]) == Dedup(placed)
    ensures Key(p) !in Keys(Dedup(placed)) ==>
              Keys(Dedup(placed + [p])) == Keys(Dedup(placed)) + {Key(p)}
              && Decorations(Dedup(placed + [p]), sel) == Decorations(Dedup(placed), sel) + Group(p, sel)
  {
    assert (placed + [p])[..|placed|] == placed;
    var d := Dedup(placed);
    if Key(p) !in Keys(d) {
      KeysAppend(d, p);
      assert (d + [p])[..|d|] == d;
    }
  }

  /** The body of the inner loop of `inlineRender` for one link: skipped
      when its position pair was seen, else the pair is recorded and the
      link's group of decorations appended. */
  method DecorateLink(p: Placed, sel: seq<SelRange>, posSet0: set<(int, int)>, widgets0: seq<Decoration>)
    returns (posSet: set<(int, int)>, widgets: seq<Decoration>)
    ensures Key(p) in posSet0 ==> posSet == posSet0 && widgets == widgets0
    ensures Key(p) !in posSet0 ==> posSet == posSet0 + {Key(p)} && widgets == widgets0 + Group(p, sel)
  {
    var start, end := p.start, p.end;
    posSet, widgets := posSet0, widgets0;
    if (start, end) in posSet {
      return;
    }
    posSet := posSet + {(start, end)};
    widgets := widgets + [Mark(start, end, BoldItalic)];
    var overlap := SelectionAndRangeOverlap(sel, start, end);
    if overlap {
      widgets := widgets + [Mark(start, end, Highlight)];
      return;
    }
    widgets := widgets + [Widget(end, p.link)];
  }

  /** The inner loop of `inlineRender` over the links of one node. */
  method RenderLinks(from: int, links: seq<Link>, sel: seq<SelRange>,
                     posSet0: set<(int, int)>, widgets0: seq<Decoration>, ghost placed0: seq<Placed>)
    returns (posSet: set<(int, int)>, widgets: seq<Decoration>, ghost placed: seq<Placed>)
    requires posSet0 == Keys(Dedup(placed0)) && widgets0 == Decorations(Dedup(placed0), sel)
    ensures placed == placed0 + PlaceLinks(from, links)
    ensures posSet == Keys(Dedup(placed)) && widgets == Decorations(Dedup(placed), sel)
  {
    posSet, widgets, placed := posSet0, widgets0, placed0;
    var j := 0;
    while j < |links|
      invariant 0 <= j <= |links|
      invariant placed == placed0 + PlaceLinks(from, links[..j])
      invariant posSet == Keys(Dedup(placed))
      invariant widgets == Decorations(Dedup(placed), sel)
    {
      var link := links[j];
      var start := from + link.start;
      var end := from + link.end;
      ghost var p := Placed(start, end, link);
      PlacedSnoc(placed0, from, links, j);
      RenderStep(placed, p, sel);
      placed := placed + [p];
      j := j + 1;
      posSet, widgets := DecorateLink(Placed(start, end, link), sel, posSet, widgets);
    }
    assert links[..|links|] == links;
  }

  /** `inlineRender`: nothing without an active file; otherwise the
      decorations of every link of every non-formatting node, a position
      pair seen before skipped. */
  method InlineRender(hasActiveFile: bool, nodes: seq<SyntaxNode>, sel: seq<SelRange>,
                      rd: Renderer, cfg: LinkConfig, encode: string -> string)
    returns (r: Option<seq<Decoration>>)
    ensures !hasActiveFile ==> r.None?
    ensures hasActiveFile ==> r == Some(Decorations(Dedup(Placements(nodes, rd, cfg, encode)), sel))
  {
    if !hasActiveFile {
      return None;
    }
    var posSet: set<(int, int)> := {};
    var widgets: seq<Decoration> := [];
    ghost var placed: seq<Placed> := [];
    var i := 0;
    while i < |nodes|
      invariant 0 <= i <= |nodes|
      invariant placed == Placements(nodes[..i], rd, cfg, encode)
      invariant posSet == Keys(Dedup(placed))
      invariant widgets == Decorations(Dedup(placed), sel)
    {
      var node := nodes[i];
      PlacementsSnoc(nodes, i, rd, cfg, encode);
      if node.formatting {
        i := i + 1;
        continue;
      }
      var links := GetLinks(node.text, rd, cfg, encode);
      posSet, widgets, placed := RenderLinks(node.from, links, sel, posSet, widgets, placed);
      i := i + 1;
    }
    assert nodes[..i] == nodes;
    return Some(widgets);
  }

  /** The view plugin: its decoration set and the `update` hook. */
  class InlinePlugin {
    var decorations: seq<Decoration>

    constructor()
      ensures decorations == []
    {
      decorations := [];
    }

    /** Outside live preview the decorations are cleared; after a document,
        viewport or selection change they are rendered again (none when
        there is no active file); otherwise they are kept. */
    method Update(livePreview: bool, docChanged: bool, viewportChanged: bool, selectionSet: bool,
                  hasActiveFile: bool, nodes: seq<SyntaxNode>, sel: seq<SelRange>,
                  rd: Renderer, cfg: LinkConfig, encode: string -> string)
      modifies this`decorations
      ensures !livePreview ==> decorations == []
      ensures livePreview && (docChanged || viewportChanged || selectionSet) ==>
                decorations == (if hasActiveFile then Decorations(Dedup(Placements(nodes, rd, cfg, encode)), sel) else [])
      ensures livePreview && !(docChanged || viewportChanged || selectionSet) ==> decorations == old(decorations)
    {
      if !livePreview {
        decorations := [];
        return;
      }
      if docChanged || viewportChanged || selectionSet {
        var r := InlineRender(hasActiveFile, nodes, sel, rd, cfg, encode);
        decorations := r.GetOr([]);
      }
    }
  }
}
