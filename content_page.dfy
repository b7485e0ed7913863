/** The content page: the content items, appended to by uploads and filtered
    by deletes, and the per-type counts shown above the library. */
module ContentPage {
  import opened Collections

  datatype ContentType = Image | Video | Document

  /** The content item shared by the page, the library and the upload form. */
  datatype ContentItem = ContentItem(
    id: int,
    name: string,
    kind: ContentType,
    size: string,
    uploadDate: string,
    category: string,
    thumbnail: Option<string>)

  /** `handleUpload`: the new item goes to the end. */
  function Upload(items: seq<ContentItem>, item: ContentItem): (r: seq<ContentItem>)
    ensures |r| == |items| + 1 && r[..|items|] == items && r[|items|] == item
  {
    items + [item]
  }

  /** `handleDelete`: every item with the id goes, the others keep their order. */
  function Delete(items: seq<ContentItem>, id: int): (r: seq<ContentItem>)
    ensures forall i :: 0 <= i < |r| ==> r[i].id != id
    ensures forall i :: 0 <= i < |items| && items[i].id != id ==> items[i] in r
    ensures forall c :: multiset(r)[c] == if c.id != id then multiset(items)[c] else 0
    ensures IsSubsequence(r, items)
  {
    FilterIsSubsequence((c: ContentItem) => c.id != id, items);
    Filter((c: ContentItem) => c.id != id, items)
  }

  /** `imageCount`, `videoCount`, `documentCount` */
  function CountOf(items: seq<ContentItem>, t: ContentType): (n: nat)
    ensures n == multiset(Project((c: ContentItem) => c.kind, items))[t]
    ensures n <= |items|
  {
    FilterCountsOccurrences((c: ContentItem) => c.kind == t, (c: ContentItem) => c.kind, t, items);
    |Filter((c: ContentItem) => c.kind == t, items)|
  }

  /** The three counts add up to the number of items. */
  lemma CountsPartition(items: seq<ContentItem>)
    ensures CountOf(items, Image) + CountOf(items, Video) + CountOf(items, Document) == |items|
  {
    FilterPartitionCounts((c: ContentItem) => c.kind == Image, (c: ContentItem) => c.kind == Video,
                          (c: ContentItem) => c.kind == Document, items);
  }

  /** An upload raises the count of its own type by one and no other count. */
  lemma UploadCounts(items: seq<ContentItem>, item: ContentItem, t: ContentType)
    ensures CountOf(Upload(items, item), t) == CountOf(items, t) + (if item.kind == t then 1 else 0)
  {
    FilterAppend((c: ContentItem) => c.kind == t, items, [item]);
  }

  /** Deleting the id of a fresh upload restores the list. */
  lemma DeleteUndoesUpload(items: seq<ContentItem>, item: ContentItem)
    requires forall i :: 0 <= i < |items| ==> items[i].id != item.id
    ensures Delete(Upload(items, item), item.id) == items
  {
    var keep := (c: ContentItem) => c.id != item.id;
    FilterAppend(keep, items, [item]);
    FilterAll(keep, items);
  }
}
