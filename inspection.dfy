/**
 * The inspection report the populators read: `inspection.sections[]`, each
 * with `lineItems[]`, each with an optional status and a list of comments.
 * Missing string fields read as "", a missing `order` as 0 and missing lists
 * as [] (the defaults both sources supply).
 */
module Inspection {
  import opened Wrappers

  /** A photo attached to a comment. */
  datatype Photo = Photo(url: string, caption: string, description: string)

  /** A video attached to a comment. */
  datatype Video = Video(url: string)

  /** One inspector comment on a line item. */
  datatype Comment = Comment(
    text: string,
    commentText: string,
    value: string,
    location: string,
    order: int,
    photos: seq<Photo>,
    videos: seq<Video>)

  /** One inspected component; `inspectionStatus` is None when the key is
      absent or null. */
  datatype LineItem = LineItem(name: string, inspectionStatus: Option<string>, comments: seq<Comment>)

  /** One report section with its line items, in report order. */
  datatype Section = Section(name: string, lineItems: seq<LineItem>)

  /** A line item with neither a status nor a comment. A status of "" still
      counts: only a missing or null status is absent. */
  predicate IsEmptyItem(li: LineItem)
    ensures IsEmptyItem(li) ==> li.comments == []
    ensures li.inspectionStatus == Some("") ==> !IsEmptyItem(li)
  {
    li.inspectionStatus.None? && |li.comments| == 0
  }

  /** The line items kept by the filter of a section, in their order. */
  function NonEmptyItems(items: seq<LineItem>): (r: seq<LineItem>)
    ensures |r| <= |items|
    ensures forall li :: li in r <==> li in items && !IsEmptyItem(li)
  {
    if items == [] then []
    else
      var rest := NonEmptyItems(items[..|items| - 1]);
      var last := items[|items| - 1];
      assert items == items[..|items| - 1] + [last];
      if IsEmptyItem(last) then rest else rest + [last]
  }

  /** A section all of whose items are empty has nothing left after the filter. */
  lemma {:induction false} AllEmptyFiltersToNothing(items: seq<LineItem>)
    requires forall k :: 0 <= k < |items| ==> IsEmptyItem(items[k])
    ensures NonEmptyItems(items) == []
  {
    if items != [] {
      AllEmptyFiltersToNothing(items[..|items| - 1]);
    }
  }

  /** Filtering a concatenation filters each part. */
  lemma {:induction false} NonEmptyItemsAppend(a: seq<LineItem>, b: seq<LineItem>)
    ensures NonEmptyItems(a + b) == NonEmptyItems(a) + NonEmptyItems(b)
    decreases |b|
  {
    if b == [] {
      assert a + b == a;
    } else {
      var c := b[..|b| - 1];
      assert (a + b)[..|a + b| - 1] == a + c;
      NonEmptyItemsAppend(a, c);
    }
  }

  /** An empty line item contributes nothing wherever it stands in a section. */
  lemma EmptyItemIsDropped(a: seq<LineItem>, li: LineItem, b: seq<LineItem>)
    requires IsEmptyItem(li)
    ensures NonEmptyItems(a + [li] + b) == NonEmptyItems(a + b)
  {
    NonEmptyItemsAppend(a + [li], b);
    NonEmptyItemsAppend(a, [li]);
    NonEmptyItemsAppend(a, b);
    assert NonEmptyItems([li]) == [];
  }
}
