/**
 * The document tree (the `Section`, `SectionContainer` and `Document`
 * interfaces of app/utils/supabase.ts) and the rule that decides which
 * children of a section can be navigated into.
 */
module DocumentModel {
  import opened Wrappers

  /**
   * A node of the content tree. `url` is read by the viewer and the card
   * although the interface does not declare it; a section whose `url` is a
   * non-empty string opens a link instead of being navigated into.
   */
  datatype Section = Section(
    heading: seq<string>,
    children: seq<Child>,
    summary: seq<string>,
    longSummary: seq<string>,
    imageUrl: Option<string>,
    url: Option<string>)

  /** One entry of `children`: a nested list of sections, or raw leaf text. */
  datatype Child = Nested(sections: seq<Section>) | Text(text: string)

  /** The tree root; its `children` is a plain list of sections. */
  datatype Document = Document(
    title: seq<string>,
    summary: seq<string>,
    longSummary: seq<string>,
    children: seq<Section>)

  /** `if (section.url)`: present and not the (falsy) empty string. */
  predicate HasLink(s: Section)
  {
    s.url.Some? && s.url.value != ""
  }

  /** `children.some((child) => Array.isArray(child))`. */
  function AnyNested(children: seq<Child>): (r: bool)
    ensures r <==> exists i :: 0 <= i < |children| && children[i].Nested?
  {
    if children == [] then false
    else children[0].Nested? || AnyNested(children[1..])
  }

  /** `children.filter((child) => Array.isArray(child))`, in order. */
  function NestedLists(children: seq<Child>): (r: seq<seq<Section>>)
    ensures |r| <= |children|
  {
    if children == [] then []
    else
      var rest := NestedLists(children[1..]);
      if children[0].Nested? then [children[0].sections] + rest else rest
  }

  /** The filter keeps exactly the nested lists among the children. */
  lemma {:induction false} NestedListsMembers(children: seq<Child>, xs: seq<Section>)
    ensures xs in NestedLists(children) <==> Nested(xs) in children
  {
    if children != [] {
      NestedListsMembers(children[1..], xs);
      assert Nested(xs) in children <==> Nested(xs) == children[0] || Nested(xs) in children[1..];
    }
  }

  /** `.flat()` one level deep: the lists concatenated in order. */
  function Flat(lists: seq<seq<Section>>): seq<Section>
  {
    if lists == [] then [] else lists[0] + Flat(lists[1..])
  }

  /** `hasChildSections` of the card (app/components/SectionCard.tsx:27). */
  predicate HasChildSections(s: Section)
  {
    AnyNested(s.children)
  }

  /**
   * The navigable children of a section as the source computes them
   * (`:80-92`, `:138-148` of the viewer, `:30-32` of the card): when
   * `children` is a non-empty array with some nested list, the nested lists
   * kept and flattened one level, otherwise the empty list. The guard is
   * redundant: the result is always the unguarded `ChildSections`.
   */
  function GuardedChildSections(s: Section): (r: seq<Section>)
    ensures r == ChildSections(s)
  {
    if |s.children| > 0 && AnyNested(s.children) then Flat(NestedLists(s.children))
    else NoNestedFlatEmpty(s.children); []
  }

  /** The navigable children: the nested-list children, kept in order and flattened one level. */
  function ChildSections(s: Section): (r: seq<Section>)
    ensures r != [] ==> HasChildSections(s)
  {
    NestedFlatHasNested(s.children);
    Flat(NestedLists(s.children))
  }

  lemma {:induction false} FlatAppend(a: seq<seq<Section>>, b: seq<seq<Section>>)
    ensures Flat(a + b) == Flat(a) + Flat(b)
  {
    if a != [] {
      assert (a + b)[1..] == a[1..] + b;
      FlatAppend(a[1..], b);
    } else {
      assert a + b == b;
    }
  }

  /** Filtering then flattening distributes over concatenation of children. */
  lemma {:induction false} NestedFlatAppend(a: seq<Child>, b: seq<Child>)
    ensures Flat(NestedLists(a + b)) == Flat(NestedLists(a)) + Flat(NestedLists(b))
  {
    if a == [] {
      assert a + b == b;
    } else {
      assert (a + b)[0] == a[0] && (a + b)[1..] == a[1..] + b;
      NestedFlatAppend(a[1..], b);
    }
  }

  /** Without a nested list, filtering then flattening leaves nothing. */
  lemma {:induction false} NoNestedFlatEmpty(children: seq<Child>)
    requires !AnyNested(children)
    ensures NestedLists(children) == [] && Flat(NestedLists(children)) == []
  {
    if children != [] {
      NoNestedFlatEmpty(children[1..]);
    }
  }

  /** Filtering then flattening yields something only when some child is a nested list. */
  lemma NestedFlatHasNested(children: seq<Child>)
    ensures Flat(NestedLists(children)) != [] ==> AnyNested(children)
  {
    if !AnyNested(children) {
      NoNestedFlatEmpty(children);
    }
  }

  /** Leaf text adds nothing: a string child contributes no section. */
  lemma TextChildAddsNothing(before: seq<Child>, text: string, after: seq<Child>)
    ensures Flat(NestedLists(before + [Text(text)] + after))
         == Flat(NestedLists(before)) + Flat(NestedLists(after))
  {
    NestedFlatAppend(before + [Text(text)], after);
    NestedFlatAppend(before, [Text(text)]);
    assert NestedLists([Text(text)]) == [];
  }

  /** A nested list contributes its sections, in order, at its position. */
  lemma NestedChildContributes(before: seq<Child>, xs: seq<Section>, after: seq<Child>)
    ensures Flat(NestedLists(before + [Nested(xs)] + after))
         == Flat(NestedLists(before)) + xs + Flat(NestedLists(after))
  {
    NestedFlatAppend(before + [Nested(xs)], after);
    NestedFlatAppend(before, [Nested(xs)]);
    assert NestedLists([Nested(xs)]) == [xs];
    assert Flat([xs]) == xs + Flat([]);
  }

  /** Every navigable child sits in some nested list of the section. */
  lemma {:induction false} ChildSectionsMembers(children: seq<Child>, x: Section)
    ensures x in Flat(NestedLists(children))
        <==> exists i :: 0 <= i < |children| && children[i].Nested? && x in children[i].sections
  {
    if children != [] {
      ChildSectionsMembers(children[1..], x);
      assert children == [children[0]] + children[1..];
      NestedFlatAppend([children[0]], children[1..]);
      assert Flat(NestedLists([children[0]])) == (if children[0].Nested? then children[0].sections else []) by {
        if children[0].Nested? {
          assert Flat([children[0].sections]) == children[0].sections + Flat([]);
        }
      }
      if x in Flat(NestedLists(children)) && !(x in Flat(NestedLists(children[1..]))) {
        assert children[0].Nested? && x in children[0].sections;
      }
      if exists i :: 0 <= i < |children| && children[i].Nested? && x in children[i].sections {
        var i :| 0 <= i < |children| && children[i].Nested? && x in children[i].sections;
        if i > 0 {
          assert children[1..][i - 1] == children[i];
        }
      }
    }
  }

  /**
   * The converse fails: a section whose only child is an empty nested list
   * has child sections by the `some` test, yet none to show.
   */
  lemma EmptyNestedListCounterexample()
    ensures var s := Section(["A"], [Nested([])], [], [], None, None);
      HasChildSections(s) && GuardedChildSections(s) == []
  {
    var s := Section(["A"], [Nested([])], [], [], None, None);
    assert s.children[0].Nested?;
    assert Flat(NestedLists(s.children)) == [] + Flat([]);
  }
}
