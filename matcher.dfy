/** The entity matcher of `getDataByTag` / `findByNameAndSource`: which
    fields of a document are searched for a tag kind, the name-and-source
    match rule, and the search that returns the first matching DOCUMENT. */
module Matcher {
  import opened Wrappers
  import opened Text

  /** One element of a data array: its `name` and its `source`; the empty
      string stands for a missing (or otherwise falsy) `source`. */
  datatype Entry = Entry(name: string, source: string)

  /** A fetched JSON document: its top-level array fields by field name;
      a field that is absent is not in the map. */
  datatype Doc = Doc(fields: map<string, seq<Entry>>)

  /** The error `getDataByTag` throws for a tag without search fields. */
  datatype MatchError = NotSupported(tag: string)

  /** The fields searched for each supported tag, in search order. */
  function SearchFields(tag: string): (r: Option<seq<string>>)
    ensures r.Some? <==> tag == "@item" || tag == "@creature" || tag == "@spell"
    ensures r.Some? ==> r.value != [] && forall i, j :: 0 <= i < j < |r.value| ==> r.value[i] != r.value[j]
  {
    if tag == "@item" then Some(["item", "itemGroup", "itemEntry", "baseitem", "magicvariant"])
    else if tag == "@creature" then Some(["monster"])
    else if tag == "@spell" then Some(["spell"])
    else None
  }

  /** The match rule: the names are equal ignoring case, and the element
      either has no source or has the requested one ignoring case. */
  predicate Matches(x: Entry, name: string, source: string)
    ensures Matches(x, name, source) ==> |x.name| == |name|
    ensures Matches(x, name, source) && x.source != "" ==> |x.source| == |source|
    ensures x == Entry(name, source) ==> Matches(x, name, source)
  {
    Lower(x.name) == Lower(name) && (x.source == "" || Lower(x.source) == Lower(source))
  }

  /** Some field of `paths` holds an element matching `name` and `source`. */
  predicate DocHasMatch(d: Doc, paths: seq<string>, name: string, source: string) {
    exists p, x :: p in paths && p in d.fields && x in d.fields[p] && Matches(x, name, source)
  }

  /** A loaded (non-null) document with a match. */
  predicate Hit(od: Option<Doc>, paths: seq<string>, name: string, source: string) {
    od.Some? && DocHasMatch(od.value, paths, name, source)
  }

  /** `dataAtPath.find(x => …)`: the first element that matches. */
  function FindEntry(xs: seq<Entry>, name: string, source: string): (r: Option<Entry>)
    ensures r.Some? ==> r.value in xs && Matches(r.value, name, source)
    ensures r.None? ==> forall x :: x in xs ==> !Matches(x, name, source)
  {
    if xs == [] then None
    else if Matches(xs[0], name, source) then Some(xs[0])
    else FindEntry(xs[1..], name, source)
  }

  /** `paths.find(p => …)`: the first field of `d` that holds a match; an
      absent field is skipped. */
  function FindField(d: Doc, paths: seq<string>, name: string, source: string): (r: Option<string>)
    ensures r.Some? ==> r.value in paths
    ensures r.Some? <==> DocHasMatch(d, paths, name, source)
  {
    if paths == [] then None
    else if paths[0] in d.fields && FindEntry(d.fields[paths[0]], name, source).Some? then Some(paths[0])
    else
      var r := FindField(d, paths[1..], name, source);
      assert DocHasMatch(d, paths, name, source) ==> r.Some? by {
        if DocHasMatch(d, paths, name, source) {
          var p, x :| p in paths && p in d.fields && x in d.fields[p] && Matches(x, name, source);
          assert p != paths[0];
        }
      }
      r
  }

  /** `data.find(d => …)`: the first document, in list order, that has a
      match; a null document has no fields and is skipped. */
  function FindDoc(docs: seq<Option<Doc>>, paths: seq<string>, name: string, source: string): (r: Option<Doc>)
    ensures r.None? <==> forall i :: 0 <= i < |docs| ==> !Hit(docs[i], paths, name, source)
    ensures r.Some? ==> exists i :: 0 <= i < |docs| && docs[i] == r && Hit(docs[i], paths, name, source)
                           && forall j :: 0 <= j < i ==> !Hit(docs[j], paths, name, source)
  {
    if docs == [] then None
    else if docs[0].Some? && FindField(docs[0].value, paths, name, source).Some? then docs[0]
    else
      var r := FindDoc(docs[1..], paths, name, source);
      assert r.Some? ==> exists i :: 0 <= i < |docs| && docs[i] == r && Hit(docs[i], paths, name, source)
                           && forall j :: 0 <= j < i ==> !Hit(docs[j], paths, name, source) by {
        if r.Some? {
          var i :| 0 <= i < |docs[1..]| && docs[1..][i] == r && Hit(docs[1..][i], paths, name, source)
                   && forall j :: 0 <= j < i ==> !Hit(docs[1..][j], paths, name, source);
          assert forall j :: 0 <= j < i + 1 ==> !Hit(docs[j], paths, name, source) by {
            forall j | 0 <= j < i + 1 ensures !Hit(docs[j], paths, name, source) {
              if j > 0 { assert docs[j] == docs[1..][j - 1]; }
            }
          }
        }
      }
      assert r.None? ==> forall i :: 0 <= i < |docs| ==> !Hit(docs[i], paths, name, source) by {
        if r.None? {
          forall i | 0 <= i < |docs| ensures !Hit(docs[i], paths, name, source) {
            if i > 0 { assert docs[i] == docs[1..][i - 1]; }
          }
        }
      }
      r
  }

  /** `findByNameAndSource`: the name and source are lower-cased first, then
      the first document with a matching element is returned. Lower-casing
      first does not change the rule: the search finds exactly the first
      document that matches the request as given. */
  function FindByNameAndSource(docs: seq<Option<Doc>>, paths: seq<string>, name: string, source: string): (r: Option<Doc>)
    ensures r.None? <==> forall i :: 0 <= i < |docs| ==> !Hit(docs[i], paths, name, source)
    ensures r.Some? ==> exists i :: 0 <= i < |docs| && docs[i] == r && Hit(docs[i], paths, name, source)
                           && forall j :: 0 <= j < i ==> !Hit(docs[j], paths, name, source)
  {
    LowerIsLowerCase(name);
    LowerIsLowerCase(source);
    assert forall x :: Matches(x, Lower(name), Lower(source)) == Matches(x, name, source);
    assert forall od :: Hit(od, paths, Lower(name), Lower(source)) == Hit(od, paths, name, source);
    FindDoc(docs, paths, Lower(name), Lower(source))
  }

  /** `getDataByTag`: the search for a supported tag, or the "not supported"
      error for any other. */
  function GetDataByTag(tag: string, docs: seq<Option<Doc>>, name: string, source: string): (r: Result<Option<Doc>, MatchError>)
    ensures r.Err? <==> SearchFields(tag).None?
    ensures r.Err? ==> r.error == NotSupported(tag)
  {
    match SearchFields(tag)
    case None => Err(NotSupported(tag))
    case Some(paths) => Ok(FindByNameAndSource(docs, paths, name, source))
  }

  /** A null document (a failed fetch) anywhere in the list changes nothing:
      one missing file does not prevent a match in the others. */
  lemma {:induction false} NullDocumentIgnored(docs: seq<Option<Doc>>, k: nat, paths: seq<string>, name: string, source: string)
    requires k <= |docs|
    ensures FindDoc(docs[..k] + [None] + docs[k..], paths, name, source) == FindDoc(docs, paths, name, source)
  {
    var with := docs[..k] + [None] + docs[k..];
    if k == 0 {
      assert with[1..] == docs;
    } else {
      assert with[0] == docs[0];
      assert with[1..] == docs[1..][..k - 1] + [None] + docs[1..][k - 1..];
      NullDocumentIgnored(docs[1..], k - 1, paths, name, source);
      if !(docs[0].Some? && FindField(docs[0].value, paths, name, source).Some?) {
        assert FindDoc(with, paths, name, source) == FindDoc(with[1..], paths, name, source);
      }
    }
  }

  /** A match in an earlier document shadows every later document. */
  lemma {:induction false} EarlierDocumentWins(docs: seq<Option<Doc>>, more: seq<Option<Doc>>, paths: seq<string>, name: string, source: string)
    requires FindDoc(docs, paths, name, source).Some?
    ensures FindDoc(docs + more, paths, name, source) == FindDoc(docs, paths, name, source)
  {
    if !(docs[0].Some? && FindField(docs[0].value, paths, name, source).Some?) {
      assert (docs + more)[1..] == docs[1..] + more;
      EarlierDocumentWins(docs[1..], more, paths, name, source);
    }
  }

  /** The worked cases of the match rule: names and sources compare without
      regard to case, and an element without a source matches any source. */
  lemma MatchExamples()
    ensures Matches(Entry("Fireball", "PHB"), "fireball", "phb")
    ensures !Matches(Entry("Fireball", "PHB"), "fireball", "xge")
    ensures forall s :: Matches(Entry("Longsword", ""), "LONGSWORD", s)
  {
    assert Lower("Fireball") == Lower("fireball") == "fireball";
    assert Lower("PHB") == Lower("phb") == "phb";
    assert Lower("PHB") != Lower("xge") by { assert Lower("PHB")[0] == 'p'; }
    assert Lower("Longsword") == Lower("LONGSWORD") == "longsword";
  }
}
