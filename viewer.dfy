/**
 * The document viewer's state (app/components/DocumentViewer.tsx): the
 * fetched document, the loading flag, the breadcrumb trail `activePath`,
 * the `currentSections` shown as cards, and the query string the effect
 * reads and `navigateToSection` writes.
 */
module Viewer {
  import opened Wrappers
  import opened Text
  import opened DocumentModel
  import opened SectionId
  import opened Resolver

  /** `path.slice(2).map((item) => item.id).join("/")`: the ids below the fixed head entries. */
  function SectionPath(path: seq<BreadcrumbItem>): (r: string)
    ensures |path| <= 2 ==> r == ""
    ensures |path| > 2 ==> path[2].id <= r
  {
    Join(Ids(if |path| >= 2 then path[2..] else []), "/")
  }

  /** With no `/` inside an id, the written path splits back into the trail's ids. */
  lemma SectionPathDecodes(path: seq<BreadcrumbItem>)
    requires |path| > 2
    requires forall i :: 2 <= i < |path| ==> '/' !in path[i].id
    ensures Split(SectionPath(path), '/') == Ids(path[2..])
  {
    var ids := Ids(path[2..]);
    forall j | 0 <= j < |ids| ensures '/' !in ids[j] {
      assert ids[j] == path[2..][j].id == path[j + 2].id;
    }
    SplitJoin(ids, '/');
  }

  /** The trail entry `navigateToSection` pushes for `s`: its slug, its label and the section itself. */
  function NavEntry(s: Section, processText: seq<string> -> string): BreadcrumbItem
  {
    BreadcrumbItem(Slug(s.heading), processText(s.heading), Some(s))
  }

  /** `searchParams.get("section")`. */
  function SectionParam(query: map<string, string>): Option<string>
  {
    if "section" in query then Some(query["section"]) else None
  }

  /** One `router.push`: the pathname and the query string pushed. */
  datatype Location = Location(pathname: string, query: map<string, string>)

  /** The three top-level renderings of the viewer (`:164-170`). */
  datatype Screen = LoadingScreen | NotFoundScreen | DocumentScreen

  class DocumentViewer {
    /** The title the document is fetched by. */
    const documentTitle: string
    /** `usePathname()`. */
    const pathname: string
    /** `processTextArray`: joins and cleans a heading for display (markdown removal is external). */
    const processText: seq<string> -> string

    var document: Option<Document>
    var loading: bool
    var activePath: seq<BreadcrumbItem>
    var currentSections: seq<Section>
    /** The current query string (`useSearchParams()`). */
    var query: map<string, string>
    /** Every `router.push` so far, in order. */
    var pushed: seq<Location>
    /** Every URL handed to `window.open` so far, in order. */
    var openedLinks: seq<string>

    /**
     * The viewer's invariant: it is never out of the loading state without a
     * document, and once a document is held the trail starts with the two
     * fixed entries for that document.
     */
    ghost predicate Valid()
      reads this
    {
      && (!loading ==> document.Some?)
      && (document.Some? ==> |activePath| >= 2 && activePath[..2] == InitialPath(document.value))
    }

    /** The first render: no document, `loading` initially true, empty trail and sections. */
    constructor (documentTitle: string, pathname: string, query: map<string, string>, processText: seq<string> -> string)
      ensures Valid()
      ensures this.documentTitle == documentTitle && this.pathname == pathname
      ensures this.query == query && this.processText == processText
      ensures document == None && loading
      ensures activePath == [] && currentSections == []
      ensures pushed == [] && openedLinks == []
    {
      this.documentTitle := documentTitle;
      this.pathname := pathname;
      this.query := query;
      this.processText := processText;
      document := None;
      loading := true;
      activePath := [];
      currentSections := [];
      pushed := [];
      openedLinks := [];
    }

    /** The effect starts (on mount and whenever the title or query changes): `setLoading(true)`. */
    method BeginFetch()
      requires Valid()
      modifies this`loading
      ensures Valid() && loading
    {
      loading := true;
    }

    /**
     * The fetch has answered. A document is stored, `loading` is cleared and
     * the trail and sections are replaced wholesale by the resolution of the
     * current query; a failed fetch changes nothing, so `loading` stays true.
     */
    method FinishFetch(fetched: Option<Document>)
      requires Valid()
      modifies this`document, this`loading, this`activePath, this`currentSections
      ensures Valid()
      ensures fetched.None? ==>
        && document == old(document) && loading == old(loading)
        && activePath == old(activePath) && currentSections == old(currentSections)
      ensures fetched.Some? ==>
        && document == fetched && !loading
        && Resolved(activePath, currentSections) == Resolve(fetched.value, SectionParam(query), processText)
    {
      if fetched.Some? {
        var doc := fetched.value;
        document := fetched;
        loading := false;
        activePath, currentSections := ResolvePath(doc, SectionParam(query), processText);
        ResolvedTrailHead(doc, SectionParam(query), processText);
      }
    }

    /**
     * `navigateToSection`: a section with a link only opens it; any other
     * section gets one trail entry appended, its children shown, and the
     * ids below the head entries written to the `section` query parameter,
     * the other parameters kept.
     */
    method NavigateToSection(section: Section)
      requires Valid()
      modifies this`activePath, this`currentSections, this`query, this`pushed, this`openedLinks
      ensures Valid()
      ensures HasLink(section) ==>
        && openedLinks == old(openedLinks) + [section.url.value]
        && activePath == old(activePath) && currentSections == old(currentSections)
        && query == old(query) && pushed == old(pushed)
      ensures !HasLink(section) ==>
        && activePath == old(activePath) + [NavEntry(section, processText)]
        && currentSections == ChildSections(section)
        && query == old(query)["section" := SectionPath(activePath)]
        && pushed == old(pushed) + [Location(pathname, query)]
        && openedLinks == old(openedLinks)
    {
      if HasLink(section) {
        openedLinks := openedLinks + [section.url.value];
        return;
      }
      var newPath := activePath + [NavEntry(section, processText)];
      activePath := newPath;
      currentSections := GuardedChildSections(section);
      var sectionPath := SectionPath(newPath);
      query := query["section" := sectionPath];
      pushed := pushed + [Location(pathname, query)];
      assert document.Some? ==> newPath[..2] == old(activePath)[..2];
    }

    /** The rendering chosen at `:164-170`: the "Document not found" screen is never shown. */
    function Rendered(): (s: Screen)
      reads this
      ensures Valid() ==> s != NotFoundScreen
      ensures s == LoadingScreen <==> loading
    {
      if loading then LoadingScreen
      else if document.None? then NotFoundScreen
      else DocumentScreen
    }
  }

  /** The ids of a concatenation of trails are the concatenated ids. */
  lemma IdsAppend(a: seq<BreadcrumbItem>, b: seq<BreadcrumbItem>)
    ensures Ids(a + b) == Ids(a) + Ids(b)
  {
  }

  /**
   * Appending an entry below the head entries appends its id to the written
   * path; an entry with a non-empty id makes that path non-empty.
   */
  lemma SectionPathAppend(path: seq<BreadcrumbItem>, e: BreadcrumbItem)
    requires |path| >= 2
    ensures SectionPath(path + [e]) == Join(Ids(path[2..]) + [e.id], "/")
    ensures e.id != "" ==> SectionPath(path + [e]) != ""
  {
    assert (path + [e])[2..] == path[2..] + [e];
    IdsAppend(path[2..], [e]);
    assert Ids([e]) == [e.id];
    var parts := Ids(path[2..]) + [e.id];
    assert SectionPath(path + [e]) == Join(parts, "/");
    if e.id != "" {
      assert parts[|parts| - 1] == e.id;
      JoinNonEmpty(parts, "/", |parts| - 1);
    }
  }

  /** The ids of the entries the resolver builds are the path components they matched. */
  lemma IdsOfCrumbs(ids: seq<string>, matched: seq<Section>, processText: seq<string> -> string)
    requires |matched| <= |ids|
    ensures Ids(Crumbs(ids, matched, processText)) == ids[..|matched|]
  {
  }

  /**
   * Descending from a fully matched prefix: the path written after the
   * prefix plus the slug of the first sibling with that slug resolves to the
   * prefix's trail plus one entry, and to that section's children.
   */
  lemma ResolveDescend(doc: Document, prefix: seq<string>, s: Section, processText: seq<string> -> string)
    requires |Walk(doc.children, prefix).matched| == |prefix|
    requires Find(Walk(doc.children, prefix).current, Slug(s.heading)) == Some(s)
    requires Join(prefix + [Slug(s.heading)], "/") != ""
    ensures var w := Walk(doc.children, prefix);
      Resolve(doc, Some(Join(prefix + [Slug(s.heading)], "/")), processText)
        == Resolved(InitialPath(doc) + Crumbs(prefix, w.matched, processText)
                      + [BreadcrumbItem(Slug(s.heading), processText(s.heading), None)],
                    ChildSections(s))
  {
    var slug := Slug(s.heading);
    var ids := prefix + [slug];
    var w := Walk(doc.children, prefix);
    MatchedPathSplits(doc.children, prefix, s);
    assert Split(Join(ids, "/"), '/') == ids;
    WalkExtend(doc.children, prefix, slug);
    assert Walk(doc.children, ids) == Walked(w.matched + [s], ChildSections(s));
    CrumbsAppend(ids, w.matched, s, processText);
    assert ids[..|w.matched|] == prefix[..|w.matched|];
    CrumbsAgree(ids, prefix, w.matched, processText);
    assert ids[|w.matched|] == slug;
  }

  /** A fully matched path written with `/` splits back into its ids, one more slug included. */
  lemma MatchedPathSplits(list: seq<Section>, prefix: seq<string>, s: Section)
    requires |Walk(list, prefix).matched| == |prefix|
    ensures Split(Join(prefix + [Slug(s.heading)], "/"), '/') == prefix + [Slug(s.heading)]
  {
    var ids := prefix + [Slug(s.heading)];
    var w := Walk(list, prefix);
    WalkMatchesIds(list, prefix);
    forall i | 0 <= i < |ids| ensures '/' !in ids[i] {
      if i < |prefix| {
        SlugAlphabet(w.matched[i].heading);
      } else {
        SlugAlphabet(s.heading);
      }
    }
    SplitJoin(ids, '/');
  }

  /** Every resolved state is the resolution of the ids its walk consumed, all of which matched. */
  lemma ResolvedPrefix(doc: Document, sectionParam: Option<string>, processText: seq<string> -> string)
    returns (prefix: seq<string>)
    ensures |Walk(doc.children, prefix).matched| == |prefix|
    ensures var w := Walk(doc.children, prefix);
      Resolve(doc, sectionParam, processText)
        == Resolved(InitialPath(doc) + Crumbs(prefix, w.matched, processText), w.current)
  {
    if sectionParam.None? || sectionParam.value == "" {
      prefix := [];
      assert Walk(doc.children, prefix) == Walked([], doc.children);
      assert Crumbs(prefix, [], processText) == [];
    } else {
      var ids := Split(sectionParam.value, '/');
      var w := Walk(doc.children, ids);
      prefix := ids[..|w.matched|];
      WalkConsumedPrefix(doc.children, ids);
      CrumbsAgree(ids, prefix, w.matched, processText);
      assert prefix[..|w.matched|] == prefix;
    }
  }

  /**
   * Round trip: from any resolved state, descending into the first current
   * section with a given slug writes a path that, resolved again (as the
   * effect does after the push), yields the trail just built, entry for
   * entry except that resolved entries carry no section, and the same
   * current sections. This needs the written path to be non-empty: an empty
   * `section` value reads back as the top-level view.
   */
  lemma NavigateRoundTrip(doc: Document, sectionParam: Option<string>, s: Section, processText: seq<string> -> string)
    requires Find(Resolve(doc, sectionParam, processText).currentSections, Slug(s.heading)) == Some(s)
    requires SectionPath(Resolve(doc, sectionParam, processText).activePath + [NavEntry(s, processText)]) != ""
    ensures var r := Resolve(doc, sectionParam, processText);
      Resolve(doc, Some(SectionPath(r.activePath + [NavEntry(s, processText)])), processText)
        == Resolved(r.activePath + [BreadcrumbItem(Slug(s.heading), processText(s.heading), None)], ChildSections(s))
  {
    var r := Resolve(doc, sectionParam, processText);
    var entry := NavEntry(s, processText);
    var prefix := ResolvedPrefix(doc, sectionParam, processText);
    var w := Walk(doc.children, prefix);
    var crumbs := Crumbs(prefix, w.matched, processText);
    SectionPathAppend(InitialPath(doc) + crumbs, entry);
    assert (InitialPath(doc) + crumbs)[2..] == crumbs;
    IdsOfCrumbs(prefix, w.matched, processText);
    assert prefix[..|w.matched|] == prefix;
    ResolveDescend(doc, prefix, s, processText);
  }

  /**
   * Sibling sections that share a slug cannot be told apart by the path: a
   * top-level section whose slug some earlier sibling also has is written to
   * the query as that slug, and the path resolves to the earlier sibling's
   * children.
   */
  lemma ReloadPicksFirstSameSlug(doc: Document, first: Section, other: Section, processText: seq<string> -> string)
    requires other in doc.children && Slug(other.heading) == Slug(first.heading) != ""
    requires Find(doc.children, Slug(first.heading)) == Some(first)
    ensures Resolve(doc, Some(Slug(other.heading)), processText).currentSections == ChildSections(first)
  {
    assert Walk(doc.children, []) == Walked([], doc.children);
    assert [] + [Slug(first.heading)] == [Slug(first.heading)];
    ResolveDescend(doc, [], first, processText);
  }

  /**
   * The query is the source of truth: after a descent into the first
   * current section with its slug, the effect that the push re-runs
   * rebuilds the same trail ids and the same current sections.
   */
  method NavigateThenReload(v: DocumentViewer, s: Section)
    requires v.Valid() && v.document.Some? && !v.loading
    requires Resolved(v.activePath, v.currentSections) == Resolve(v.document.value, SectionParam(v.query), v.processText)
    requires !HasLink(s) && Slug(s.heading) != ""
    requires Find(v.currentSections, Slug(s.heading)) == Some(s)
    modifies v
    ensures v.Valid() && !v.loading && v.document == old(v.document)
    ensures Ids(v.activePath) == Ids(old(v.activePath)) + [Slug(s.heading)]
    ensures v.currentSections == ChildSections(s)
  {
    var doc := v.document.value;
    ghost var before := v.activePath;
    ghost var entry := BreadcrumbItem(Slug(s.heading), v.processText(s.heading), None);
    v.NavigateToSection(s);
    SectionPathAppend(before, NavEntry(s, v.processText));
    NavigateRoundTrip(doc, SectionParam(old(v.query)), s, v.processText);
    v.BeginFetch();
    v.FinishFetch(Some(doc));
    assert v.activePath == before + [entry];
    IdsAppend(before, [entry]);
  }
}
