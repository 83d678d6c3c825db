/**
 * The URL-path resolver of the document viewer
 * (app/components/DocumentViewer.tsx:44-106): the `section` query value is
 * split on `/`, and each id is looked up among the current siblings only,
 * the first section whose slug equals it winning; the walk stops at the
 * first id that matches nothing.
 */
module Resolver {
  import opened Wrappers
  import opened Text
  import opened DocumentModel
  import opened SectionId

  /** One entry of the breadcrumb trail (`activePath`). */
  datatype BreadcrumbItem = BreadcrumbItem(id: string, caption: string, section: Option<Section>)

  /** `list.find((s) => slug(s.heading) === id)`: the first section whose slug is `id`. */
  function Find(list: seq<Section>, id: string): (r: Option<Section>)
    ensures r.Some? ==> Slug(r.value.heading) == id
  {
    if list == [] then None
    else if Slug(list[0].heading) == id then Some(list[0])
    else Find(list[1..], id)
  }

  /**
   * `Find` returns a section of the list whose slug is `id` and that no
   * earlier section's slug equals; it finds nothing only when no section's
   * slug is `id`.
   */
  lemma {:induction false} FindIsFirstMatch(list: seq<Section>, id: string)
    ensures Find(list, id).Some? ==>
      exists i :: && 0 <= i < |list| && list[i] == Find(list, id).value
                  && Slug(list[i].heading) == id
                  && forall j :: 0 <= j < i ==> Slug(list[j].heading) != id
    ensures Find(list, id).None? <==> forall j :: 0 <= j < |list| ==> Slug(list[j].heading) != id
  {
    if list != [] && Slug(list[0].heading) != id {
      FindIsFirstMatch(list[1..], id);
      if Find(list, id).Some? {
        var i :| 0 <= i < |list[1..]| && list[1..][i] == Find(list, id).value
          && Slug(list[1..][i].heading) == id && forall j :: 0 <= j < i ==> Slug(list[1..][j].heading) != id;
        assert list[i + 1] == Find(list, id).value;
        assert forall j :: 0 <= j < i + 1 ==> Slug(list[j].heading) != id by {
          forall j | 0 <= j < i + 1 ensures Slug(list[j].heading) != id {
            if j > 0 { assert list[j] == list[1..][j - 1]; }
          }
        }
      } else {
        forall j | 0 <= j < |list| ensures Slug(list[j].heading) != id {
          if j > 0 { assert list[j] == list[1..][j - 1]; }
        }
      }
    } else if list != [] {
      assert list[0] == Find(list, id).value;
    }
  }

  /** The sections matched by a walk, and the sibling list it ends on. */
  datatype Walked = Walked(matched: seq<Section>, current: seq<Section>)

  /**
   * The walk of the resolver loop from `list` along `ids`: each matched
   * section's id is the path component it was matched against.
   */
  function Walk(list: seq<Section>, ids: seq<string>): (w: Walked)
    ensures |w.matched| <= |ids|
    decreases |ids|
  {
    if ids == [] then Walked([], list)
    else match Find(list, ids[0])
      case None => Walked([], list)
      case Some(s) =>
        var w := Walk(ChildSections(s), ids[1..]);
        Walked([s] + w.matched, w.current)
  }

  /** A section the walk matched has the slug of the path component it was matched against. */
  lemma {:induction false} WalkMatchesIds(list: seq<Section>, ids: seq<string>)
    ensures var w := Walk(list, ids);
      forall i :: 0 <= i < |w.matched| ==> Slug(w.matched[i].heading) == ids[i]
    decreases |ids|
  {
    if ids != [] {
      match Find(list, ids[0])
      case None =>
      case Some(s) =>
        var rest := Walk(ChildSections(s), ids[1..]).matched;
        WalkMatchesIds(ChildSections(s), ids[1..]);
        assert Walk(list, ids).matched == [s] + rest;
        forall i | 1 <= i < |rest| + 1 ensures Slug(([s] + rest)[i].heading) == ids[i] {
          assert ([s] + rest)[i] == rest[i - 1];
          assert ids[i] == ids[1..][i - 1];
        }
    }
  }

  /** The sibling list the `k`-th id is looked up in, given the sections matched before it. */
  function Level(list: seq<Section>, matched: seq<Section>, k: nat): seq<Section>
    requires k <= |matched|
  {
    if k == 0 then list else ChildSections(matched[k - 1])
  }

  /** The `k`-th id picks the `k`-th matched section out of its sibling list. */
  ghost predicate MatchedAt(list: seq<Section>, ids: seq<string>, matched: seq<Section>, k: nat)
    requires k < |matched| <= |ids|
  {
    Find(Level(list, matched, k), ids[k]) == Some(matched[k])
  }

  /** What it means for `matched` and `current` to be the outcome of the greedy walk. */
  ghost predicate IsGreedyWalk(list: seq<Section>, ids: seq<string>, matched: seq<Section>, current: seq<Section>)
  {
    && |matched| <= |ids|
    && (forall k :: 0 <= k < |matched| ==> MatchedAt(list, ids, matched, k))
    && (|matched| < |ids| ==> Find(Level(list, matched, |matched|), ids[|matched|]) == None)
    && current == Level(list, matched, |matched|)
  }

  /** Dropping the first match shifts the levels of a walk down by one. */
  lemma LevelShift(list: seq<Section>, matched: seq<Section>, k: nat)
    requires matched != [] && k < |matched|
    ensures Level(ChildSections(matched[0]), matched[1..], k) == Level(list, matched, k + 1)
  {
    if k > 0 {
      assert matched[1..][k - 1] == matched[k];
    }
  }

  /** Dropping the first match and the first id keeps each later match in place. */
  lemma MatchedAtShift(list: seq<Section>, ids: seq<string>, matched: seq<Section>, k: nat)
    requires matched != [] && k + 1 < |matched| <= |ids|
    ensures MatchedAt(ChildSections(matched[0]), ids[1..], matched[1..], k) <==> MatchedAt(list, ids, matched, k + 1)
  {
    LevelShift(list, matched, k);
    assert ids[1..][k] == ids[k + 1] && matched[1..][k] == matched[k + 1];
  }

  /**
   * The walk matches each id against the current sibling list only, takes
   * the first match, continues with that section's children, and stops at
   * the first id that matches nothing.
   */
  lemma {:induction false} WalkIsGreedy(list: seq<Section>, ids: seq<string>)
    ensures var w := Walk(list, ids); IsGreedyWalk(list, ids, w.matched, w.current)
    decreases |ids|
  {
    if ids != [] {
      match Find(list, ids[0])
      case None =>
        assert Level(list, [], 0) == list;
      case Some(s) =>
        var w' := Walk(ChildSections(s), ids[1..]);
        WalkIsGreedy(ChildSections(s), ids[1..]);
        GreedyWalkCons(list, ids, s, w'.matched, w'.current);
    }
  }

  /** Putting the first sibling match in front of a greedy walk of its children gives a greedy walk. */
  lemma GreedyWalkCons(list: seq<Section>, ids: seq<string>, s: Section, matched: seq<Section>, current: seq<Section>)
    requires ids != [] && Find(list, ids[0]) == Some(s)
    requires IsGreedyWalk(ChildSections(s), ids[1..], matched, current)
    ensures IsGreedyWalk(list, ids, [s] + matched, current)
  {
    var m := [s] + matched;
    assert m[0] == s && m[1..] == matched;
    forall k | 0 <= k < |m|
      ensures MatchedAt(list, ids, m, k)
    {
      if k > 0 {
        MatchedAtShift(list, ids, m, k - 1);
      } else {
        assert Level(list, m, 0) == list;
      }
    }
    LevelShift(list, m, |m| - 1);
    if |m| < |ids| {
      assert ids[|m|] == ids[1..][|matched|];
    }
  }

  /** A greedy walk that matched something continues greedily from the first match's children. */
  lemma GreedyWalkTail(list: seq<Section>, ids: seq<string>, matched: seq<Section>, current: seq<Section>)
    requires IsGreedyWalk(list, ids, matched, current) && matched != []
    ensures Find(list, ids[0]) == Some(matched[0])
    ensures IsGreedyWalk(ChildSections(matched[0]), ids[1..], matched[1..], current)
  {
    assert MatchedAt(list, ids, matched, 0);
    assert Level(list, matched, 0) == list;
    var cs := ChildSections(matched[0]);
    var m' := matched[1..];
    MatchesShift(list, ids, matched);
    LevelShift(list, matched, |m'|);
    assert current == Level(cs, m', |m'|);
    if |m'| < |ids[1..]| {
      assert ids[1..][|m'|] == ids[|matched|];
      assert Find(Level(cs, m', |m'|), ids[1..][|m'|]) == None;
    }
  }

  /** Every match after the first is a match of the walk from the first match's children. */
  lemma MatchesShift(list: seq<Section>, ids: seq<string>, matched: seq<Section>)
    requires matched != [] && |matched| <= |ids|
    requires forall k :: 0 <= k < |matched| ==> MatchedAt(list, ids, matched, k)
    ensures forall k :: 0 <= k < |matched| - 1 ==> MatchedAt(ChildSections(matched[0]), ids[1..], matched[1..], k)
  {
    forall k | 0 <= k < |matched| - 1
      ensures MatchedAt(ChildSections(matched[0]), ids[1..], matched[1..], k)
    {
      MatchedAtShift(list, ids, matched, k);
    }
  }

  /** Conversely, the greedy walk has exactly one outcome: the one `Walk` computes. */
  lemma {:induction false} GreedyWalkIsUnique(list: seq<Section>, ids: seq<string>, matched: seq<Section>, current: seq<Section>)
    requires IsGreedyWalk(list, ids, matched, current)
    ensures Walk(list, ids) == Walked(matched, current)
    decreases |ids|
  {
    if ids == [] {
    } else if matched == [] {
      assert Level(list, matched, 0) == list;
    } else {
      GreedyWalkTail(list, ids, matched, current);
      GreedyWalkIsUnique(ChildSections(matched[0]), ids[1..], matched[1..], current);
      assert matched == [matched[0]] + matched[1..];
    }
  }

  /**
   * Extending a fully matched path by one id: the walk either matches the
   * first sibling with that slug and descends into it, or stops unchanged.
   */
  lemma {:induction false} WalkExtend(list: seq<Section>, p: seq<string>, x: string)
    requires |Walk(list, p).matched| == |p|
    ensures var w := Walk(list, p);
      Walk(list, p + [x]) == match Find(w.current, x)
        case None => w
        case Some(s) => Walked(w.matched + [s], ChildSections(s))
    decreases |p|
  {
    if p == [] {
      assert p + [x] == [x];
      match Find(list, x)
      case None =>
      case Some(s) =>
        assert Walk(ChildSections(s), [x][1..]) == Walked([], ChildSections(s));
    } else {
      var first := Find(list, p[0]).value;
      assert (p + [x])[0] == p[0] && (p + [x])[1..] == p[1..] + [x];
      WalkExtend(ChildSections(first), p[1..], x);
      var w' := Walk(ChildSections(first), p[1..]);
      match Find(w'.current, x)
      case None =>
      case Some(s) =>
        assert [first] + (w'.matched + [s]) == ([first] + w'.matched) + [s];
    }
  }

  /** Once a walk has stopped at an unmatched id, later ids change nothing. */
  lemma {:induction false} WalkStopped(list: seq<Section>, p: seq<string>, q: seq<string>)
    requires |Walk(list, p).matched| < |p|
    ensures Walk(list, p + q) == Walk(list, p)
    decreases |p|
  {
    assert (p + q)[0] == p[0] && (p + q)[1..] == p[1..] + q;
    match Find(list, p[0])
    case None =>
    case Some(first) =>
      WalkStopped(ChildSections(first), p[1..], q);
  }

  /** One step of the resolver loop, when the `k`-th id has a match among the current siblings. */
  lemma WalkStepMatched(list: seq<Section>, ids: seq<string>, k: nat, s: Section)
    requires k < |ids| && |Walk(list, ids[..k]).matched| == k
    requires Find(Walk(list, ids[..k]).current, ids[k]) == Some(s)
    ensures Walk(list, ids[..k + 1]) == Walked(Walk(list, ids[..k]).matched + [s], ChildSections(s))
  {
    WalkExtend(list, ids[..k], ids[k]);
    assert ids[..k] + [ids[k]] == ids[..k + 1];
  }

  /** One step of the resolver loop, when the `k`-th id has no match: the walk is over. */
  lemma WalkStepUnmatched(list: seq<Section>, ids: seq<string>, k: nat)
    requires k < |ids| && |Walk(list, ids[..k]).matched| == k
    requires Find(Walk(list, ids[..k]).current, ids[k]) == None
    ensures Walk(list, ids) == Walk(list, ids[..k])
  {
    WalkExtend(list, ids[..k], ids[k]);
    assert ids[..k] + [ids[k]] == ids[..k + 1];
    WalkStopped(list, ids[..k + 1], ids[k + 1..]);
    assert ids[..k + 1] + ids[k + 1..] == ids;
  }

  /** Walking just the ids a walk consumed reproduces that walk. */
  lemma {:induction false} WalkConsumedPrefix(list: seq<Section>, ids: seq<string>)
    ensures var w := Walk(list, ids); Walk(list, ids[..|w.matched|]) == w
    decreases |ids|
  {
    var w := Walk(list, ids);
    if ids != [] && w.matched != [] {
      var first := Find(list, ids[0]).value;
      WalkConsumedPrefix(ChildSections(first), ids[1..]);
      var n := |w.matched|;
      assert ids[..n][0] == ids[0] && ids[..n][1..] == ids[1..][..n - 1];
    } else {
      assert ids[..|w.matched|] == [];
    }
  }

  /** The two fixed head entries of every trail. */
  function InitialPath(doc: Document): seq<BreadcrumbItem>
  {
    [BreadcrumbItem("home", "Home", None), BreadcrumbItem("document", Join(doc.title, " "), None)]
  }

  /** The trail entries the resolver pushes: the path component as id, the cleaned heading as label, no section. */
  function Crumbs(ids: seq<string>, matched: seq<Section>, processText: seq<string> -> string): seq<BreadcrumbItem>
    requires |matched| <= |ids|
  {
    seq(|matched|, i requires 0 <= i < |matched| => BreadcrumbItem(ids[i], processText(matched[i].heading), None))
  }

  lemma CrumbsAppend(ids: seq<string>, matched: seq<Section>, s: Section, processText: seq<string> -> string)
    requires |matched| < |ids|
    ensures Crumbs(ids, matched + [s], processText)
         == Crumbs(ids, matched, processText) + [BreadcrumbItem(ids[|matched|], processText(s.heading), None)]
  {
  }

  /** The ids of a list of trail entries, in order. */
  function Ids(items: seq<BreadcrumbItem>): (r: seq<string>)
    ensures |r| == |items| && forall i :: 0 <= i < |items| ==> r[i] == items[i].id
  {
    seq(|items|, i requires 0 <= i < |items| => items[i].id)
  }

  /** The viewer state the effect establishes once the document is loaded. */
  datatype Resolved = Resolved(activePath: seq<BreadcrumbItem>, currentSections: seq<Section>)

  /**
   * The state for document `doc` and query value `sectionParam`
   * (`searchParams.get("section")`); a missing or empty value is the
   * top-level view.
   */
  function Resolve(doc: Document, sectionParam: Option<string>, processText: seq<string> -> string): (r: Resolved)
    ensures |r.activePath| >= 2 && r.activePath[..2] == InitialPath(doc)
  {
    if sectionParam.None? || sectionParam.value == "" then Resolved(InitialPath(doc), doc.children)
    else
      var ids := Split(sectionParam.value, '/');
      var w := Walk(doc.children, ids);
      Resolved(InitialPath(doc) + Crumbs(ids, w.matched, processText), w.current)
  }

  /**
   * The effect's resolver loop: walk the split path, pushing one trail
   * entry per matched id and breaking out at the first id that matches
   * nothing.
   */
  method ResolvePath(doc: Document, sectionParam: Option<string>, processText: seq<string> -> string)
    returns (activePath: seq<BreadcrumbItem>, currentSections: seq<Section>)
    ensures Resolved(activePath, currentSections) == Resolve(doc, sectionParam, processText)
  {
    var initialPath := InitialPath(doc);
    if sectionParam.Some? && sectionParam.value != "" {
      var sectionIds := Split(sectionParam.value, '/');
      var currentSectionList := doc.children;
      var newPath := initialPath;
      ghost var matched: seq<Section> := [];
      var k := 0;
      while k < |sectionIds|
        invariant 0 <= k <= |sectionIds|
        invariant |matched| == k
        invariant Walk(doc.children, sectionIds[..k]) == Walked(matched, currentSectionList)
        invariant newPath == initialPath + Crumbs(sectionIds, matched, processText)
      {
        var sectionId := sectionIds[k];
        var matchedSection := Find(currentSectionList, sectionId);
        if matchedSection.Some? {
          var s := matchedSection.value;
          WalkStepMatched(doc.children, sectionIds, k, s);
          newPath := newPath + [BreadcrumbItem(sectionId, processText(s.heading), None)];
          currentSectionList := GuardedChildSections(s);
          CrumbsAppend(sectionIds, matched, s, processText);
          matched := matched + [s];
          k := k + 1;
        } else {
          WalkStepUnmatched(doc.children, sectionIds, k);
          break;
        }
      }
      if k == |sectionIds| {
        assert sectionIds[..k] == sectionIds;
      }
      assert Walk(doc.children, sectionIds) == Walked(matched, currentSectionList);
      activePath, currentSections := newPath, currentSectionList;
    } else {
      activePath, currentSections := initialPath, doc.children;
    }
  }

  /** Trail entries built from the same ids and sections are the same. */
  lemma CrumbsAgree(ids1: seq<string>, ids2: seq<string>, matched: seq<Section>, processText: seq<string> -> string)
    requires |matched| <= |ids1| && |matched| <= |ids2| && ids1[..|matched|] == ids2[..|matched|]
    ensures Crumbs(ids1, matched, processText) == Crumbs(ids2, matched, processText)
  {
    forall i | 0 <= i < |matched| ensures ids1[i] == ids2[i] {
      assert ids1[..|matched|][i] == ids2[..|matched|][i];
    }
  }

  /**
   * The resolved trail begins with the two fixed entries and every later
   * entry carries no section; an absent or empty `section` value gives the
   * top-level view.
   */
  lemma ResolvedTrailHead(doc: Document, sectionParam: Option<string>, processText: seq<string> -> string)
    ensures var r := Resolve(doc, sectionParam, processText);
      && |r.activePath| >= 2 && r.activePath[..2] == InitialPath(doc)
      && (forall i :: 2 <= i < |r.activePath| ==> r.activePath[i].section.None?)
    ensures sectionParam.None? || sectionParam.value == "" ==>
      Resolve(doc, sectionParam, processText) == Resolved(InitialPath(doc), doc.children)
  {
    var r := Resolve(doc, sectionParam, processText);
    if sectionParam.Some? && sectionParam.value != "" {
      var ids := Split(sectionParam.value, '/');
      var w := Walk(doc.children, ids);
      assert r.activePath == InitialPath(doc) + Crumbs(ids, w.matched, processText);
      assert forall i :: 2 <= i < |r.activePath| ==> r.activePath[i] == Crumbs(ids, w.matched, processText)[i - 2];
    }
  }

  /**
   * For a non-empty `section` value, the trail holds one entry per section
   * the walk matched (the longest greedily matched prefix, by WalkIsGreedy
   * and GreedyWalkIsUnique): its id is the URL component, which is that
   * section's slug, and its label the section's cleaned heading; the
   * current sections are where the walk ended.
   */
  lemma ResolvedTrailFollowsWalk(doc: Document, path: string, processText: seq<string> -> string)
    requires path != ""
    ensures var r := Resolve(doc, Some(path), processText);
      var ids := Split(path, '/');
      var w := Walk(doc.children, ids);
      && |r.activePath| == 2 + |w.matched|
      && r.currentSections == w.current
      && forall i :: 0 <= i < |w.matched| ==>
           && r.activePath[2 + i].id == ids[i] == Slug(w.matched[i].heading)
           && r.activePath[2 + i].caption == processText(w.matched[i].heading)
  {
    var r := Resolve(doc, Some(path), processText);
    var ids := Split(path, '/');
    var w := Walk(doc.children, ids);
    WalkMatchesIds(doc.children, ids);
    var c := Crumbs(ids, w.matched, processText);
    assert r.activePath == InitialPath(doc) + c;
    forall i | 0 <= i < |w.matched|
      ensures r.activePath[2 + i].id == ids[i] && r.activePath[2 + i].caption == processText(w.matched[i].heading)
    {
      assert r.activePath[2 + i] == c[i];
    }
  }

  /**
   * Fail-soft: appending an id that matches nothing below a fully resolved
   * path resolves exactly as the path without it.
   */
  lemma ResolveFailSoft(doc: Document, path: string, x: string, processText: seq<string> -> string)
    requires path != "" && '/' !in x
    requires var w := Walk(doc.children, Split(path, '/'));
      |w.matched| == |Split(path, '/')| && Find(w.current, x) == None
    ensures Resolve(doc, Some(path + "/" + x), processText) == Resolve(doc, Some(path), processText)
  {
    var ids := Split(path, '/');
    SplitAround(path, x, '/');
    SplitFreePrefix(x, "", '/');
    assert x + "" == x;
    assert Split(x, '/') == [x];
    assert path + "/" + x == path + ['/'] + x;
    WalkExtend(doc.children, ids, x);
    CrumbsAgree(ids + [x], ids, Walk(doc.children, ids).matched, processText);
    assert (ids + [x])[..|ids|] == ids[..|ids|];
  }

  /** Once an id matches nothing, whatever follows it in the path has no effect. */
  lemma ResolveIgnoresAfterMiss(doc: Document, path: string, rest: string, processText: seq<string> -> string)
    requires path != ""
    requires |Walk(doc.children, Split(path, '/')).matched| < |Split(path, '/')|
    ensures Resolve(doc, Some(path + "/" + rest), processText) == Resolve(doc, Some(path), processText)
  {
    var ids := Split(path, '/');
    SplitAround(path, rest, '/');
    assert path + "/" + rest == path + ['/'] + rest;
    WalkStopped(doc.children, ids, Split(rest, '/'));
    var m := Walk(doc.children, ids).matched;
    assert (ids + Split(rest, '/'))[..|m|] == ids[..|m|];
    CrumbsAgree(ids + Split(rest, '/'), ids, m, processText);
  }
}
