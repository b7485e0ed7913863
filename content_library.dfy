/** The content library: its category chips and the search/category filter. */
module ContentLibrary {
  import opened Collections
  import opened Strings
  import opened ContentPage

  function CategoryList(items: seq<ContentItem>): (r: seq<string>)
    ensures |r| == |items| && forall i :: 0 <= i < |items| ==> r[i] == items[i].category
  {
    seq(|items|, i requires 0 <= i < |items| => items[i].category)
  }

  /** `categories`: each category once, in the order it first appears. */
  function Categories(items: seq<ContentItem>): (r: seq<string>)
    ensures forall i, j :: 0 <= i < j < |r| ==> r[i] != r[j]
    ensures forall i :: 0 <= i < |items| ==> items[i].category in r
    ensures forall k :: 0 <= k < |r| ==> exists i :: 0 <= i < |items| && items[i].category == r[k]
  {
    var cats := CategoryList(items);
    var r := Dedup(cats);
    assert forall k :: 0 <= k < |r| ==> exists i :: 0 <= i < |items| && items[i].category == r[k] by {
      forall k | 0 <= k < |r|
        ensures exists i :: 0 <= i < |items| && items[i].category == r[k]
      {
        var i :| 0 <= i < |cats| && cats[i] == r[k];
      }
    }
    r
  }

  /** Categories are listed in order of first appearance. */
  lemma CategoriesInFirstAppearanceOrder(items: seq<ContentItem>, i: nat, j: nat)
    requires i < j < |Categories(items)|
    ensures FirstIndex(CategoryList(items), Categories(items)[i]) <
            FirstIndex(CategoryList(items), Categories(items)[j])
  {
    DedupFirstAppearanceOrder(CategoryList(items), i, j);
  }

  /** The `filteredItems` predicate: the name contains the search term,
      ignoring case, and the item is in the selected category, if any (an
      empty selection, like no selection, filters by no category). */
  predicate Matches(item: ContentItem, searchTerm: string, selected: Option<string>) {
    Contains(ToLower(item.name), ToLower(searchTerm)) &&
    (selected.None? || selected.value == "" || item.category == selected.value)
  }

  function FilteredItems(items: seq<ContentItem>, searchTerm: string, selected: Option<string>): (r: seq<ContentItem>)
    ensures IsSubsequence(r, items)
    ensures forall i :: 0 <= i < |r| ==> Matches(r[i], searchTerm, selected)
    ensures forall i :: 0 <= i < |items| && Matches(items[i], searchTerm, selected) ==> items[i] in r
    ensures forall c :: multiset(r)[c] == if Matches(c, searchTerm, selected) then multiset(items)[c] else 0
    ensures selected.Some? && selected.value != "" ==>
              forall i :: 0 <= i < |r| ==> r[i].category == selected.value
  {
    FilterIsSubsequence((c: ContentItem) => Matches(c, searchTerm, selected), items);
    Filter((c: ContentItem) => Matches(c, searchTerm, selected), items)
  }

  /** No search term and no category: every item is shown. */
  lemma EmptyFilterShowsAll(items: seq<ContentItem>)
    ensures FilteredItems(items, "", None) == items
  {
    forall i | 0 <= i < |items| ensures Matches(items[i], "", None) {
      ContainsEmpty(ToLower(items[i].name));
    }
    FilterAll((c: ContentItem) => Matches(c, "", None), items);
  }

  /** The search ignores the case of the term. */
  lemma SearchIgnoresCase(item: ContentItem, searchTerm: string, selected: Option<string>)
    ensures Matches(item, ToLower(searchTerm), selected) <==> Matches(item, searchTerm, selected)
    ensures Matches(item.(name := ToLower(item.name)), searchTerm, selected) <==> Matches(item, searchTerm, selected)
  {
    ToLowerIdempotent(searchTerm);
    ToLowerIdempotent(item.name);
  }

  /** The search is a substring test: an item matches when the lower-cased
      term occurs somewhere in the lower-cased name. */
  lemma SearchIsSubstring(item: ContentItem, searchTerm: string)
    ensures Matches(item, searchTerm, None) <==>
            exists k :: OccursAt(ToLower(item.name), ToLower(searchTerm), k)
  {
    ContainsIff(ToLower(item.name), ToLower(searchTerm));
  }
}
