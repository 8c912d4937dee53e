/**
 * What the populators write into a comments container, one HTML block per
 * element of a `seq<Fragment>`: the comment paragraphs, the media
 * containers, the thin divider between comments and the thick "Additional
 * Finding" separator. Styles and HTML escaping are not modelled; a block
 * keeps the (unescaped) text it displays.
 */
module Fragments {
  import opened Text
  import opened Inspection

  /** A paragraph of a `comment-item` block. */
  datatype Paragraph =
    | LocationPara(location: string)   // "<strong>Location:</strong> location"
    | TextPara(text: string)

  datatype Fragment =
    | CommentItem(paragraphs: seq<Paragraph>)   // div.comment-item
    | PhotoMedia(url: string, caption: string)  // div.media-container with an img (and a caption paragraph when the caption is not "")
    | VideoMedia(url: string)                   // div.media-container with a video
    | Divider                                   // the thin rule between two comments
    | AdditionalFinding                         // the thick rule and the "Additional Finding:" paragraph
    | TemplateText(text: string)                // whatever the template already held

  /** The comment's text: the first of `text`, `commentText`, `value` that is not "". */
  function ChosenText(c: Comment): string {
    if c.text != "" then c.text else if c.commentText != "" then c.commentText else c.value
  }

  /** `format_comment_text` / `formatCommentText`: a location paragraph when the
      stripped location is not "", then a text paragraph when there is text. */
  function FormatCommentText(c: Comment): (ps: seq<Paragraph>)
    ensures |ps| <= 2
    ensures ps == [] <==> Strip(c.location) == "" && c.text == "" && c.commentText == "" && c.value == ""
  {
    var location := Strip(c.location);
    var text := ChosenText(c);
    (if location != "" then [LocationPara(location)] else [])
      + (if text != "" then [TextPara(text)] else [])
  }

  /** Which paragraphs a comment gets: the stripped location first, then the
      first of `text`, `commentText`, `value` that is not "". */
  lemma FormatCommentTextParts(c: Comment)
    ensures var ps := FormatCommentText(c);
      (Strip(c.location) != "" ==> ps[0] == LocationPara(Strip(c.location))) &&
      (Strip(c.location) == "" ==> forall k :: 0 <= k < |ps| ==> ps[k].TextPara?) &&
      (c.text == "" && c.commentText == "" && c.value == "" ==> forall k :: 0 <= k < |ps| ==> ps[k].LocationPara?)
    ensures var ps := FormatCommentText(c);
      (c.text != "" ==> ps[|ps| - 1] == TextPara(c.text)) &&
      (c.text == "" && c.commentText != "" ==> ps[|ps| - 1] == TextPara(c.commentText)) &&
      (c.text == "" && c.commentText == "" && c.value != "" ==> ps[|ps| - 1] == TextPara(c.value))
  {
    var location, text := Strip(c.location), ChosenText(c);
    var head: seq<Paragraph> := if location != "" then [LocationPara(location)] else [];
    var tail: seq<Paragraph> := if text != "" then [TextPara(text)] else [];
    assert FormatCommentText(c) == head + tail;
  }

  // ---------------------------------------------------------------------
  // Sorting by `order` (Python's `sorted` and JavaScript's `Array.prototype.sort`
  // are both stable)

  predicate SortedByOrder(cs: seq<Comment>) {
    forall i, j :: 0 <= i < j < |cs| ==> cs[i].order <= cs[j].order
  }

  /** The comments with order `k`, in their relative order. */
  function WithOrder(cs: seq<Comment>, k: int): seq<Comment> {
    if cs == [] then []
    else (if cs[0].order == k then [cs[0]] else []) + WithOrder(cs[1..], k)
  }

  /** `c` inserted into the sorted `s` after every comment of order at most its own. */
  function InsertByOrder(c: Comment, s: seq<Comment>): (r: seq<Comment>)
    requires SortedByOrder(s)
    ensures SortedByOrder(r)
    ensures |r| == |s| + 1
    ensures forall x :: x in r ==> x == c || x in s
  {
    if s == [] || c.order <= s[0].order then [c] + s
    else
      var rest := InsertByOrder(c, s[1..]);
      assert forall x :: x in rest ==> x.order >= s[0].order;
      [s[0]] + rest
  }

  /** Inserting adds `c` and nothing else. */
  lemma {:induction false} InsertByOrderPermutes(c: Comment, s: seq<Comment>)
    requires SortedByOrder(s)
    ensures multiset(InsertByOrder(c, s)) == multiset(s) + multiset{c}
    decreases |s|
  {
    if s != [] && c.order > s[0].order {
      InsertByOrderPermutes(c, s[1..]);
      assert s == [s[0]] + s[1..];
    }
  }

  /** Inserting keeps the comments of order `k` in their relative order, with
      `c` first among them when its order is `k`. */
  lemma {:induction false} InsertByOrderStable(c: Comment, s: seq<Comment>, k: int)
    requires SortedByOrder(s)
    ensures WithOrder(InsertByOrder(c, s), k) == (if c.order == k then [c] else []) + WithOrder(s, k)
    decreases |s|
  {
    if s == [] || c.order <= s[0].order {
      assert ([c] + s)[1..] == s;
    } else {
      InsertByOrderStable(c, s[1..], k);
      WithOrderBehindHead(s[0], InsertByOrder(c, s[1..]), s[1..], c, k);
      assert [s[0]] + s[1..] == s;
    }
  }

  /** Putting `h` in front of two sequences whose `k`-comments differ only by
      `c` keeps them so, when `h` sorts strictly before `c`. */
  lemma WithOrderBehindHead(h: Comment, rest: seq<Comment>, tail: seq<Comment>, c: Comment, k: int)
    requires h.order < c.order
    requires WithOrder(rest, k) == (if c.order == k then [c] else []) + WithOrder(tail, k)
    ensures WithOrder([h] + rest, k) == (if c.order == k then [c] else []) + WithOrder([h] + tail, k)
  {
    assert ([h] + rest)[0] == h && ([h] + rest)[1..] == rest;
    assert ([h] + tail)[0] == h && ([h] + tail)[1..] == tail;
    if h.order == k {
      // `c` sorts after `h`, so `c` does not have order `k`.
      assert WithOrder([h] + rest, k) == [h] + WithOrder(tail, k);
    } else {
      assert WithOrder([h] + rest, k) == WithOrder(rest, k);
      assert WithOrder([h] + tail, k) == WithOrder(tail, k);
    }
  }

  /** The comments sorted by `order` (an insertion sort). */
  function SortByOrder(cs: seq<Comment>): (r: seq<Comment>)
    ensures SortedByOrder(r)
    ensures |r| == |cs|
  {
    if cs == [] then [] else InsertByOrder(cs[0], SortByOrder(cs[1..]))
  }

  /** Sorting is a permutation that keeps comments of equal order in their
      input order: the stable sort of `sorted(..., key=order)` and of
      `Array.prototype.sort`. */
  lemma {:induction false} SortByOrderContents(cs: seq<Comment>)
    ensures multiset(SortByOrder(cs)) == multiset(cs)
    ensures forall k :: WithOrder(SortByOrder(cs), k) == WithOrder(cs, k)
    decreases |cs|
  {
    if cs != [] {
      SortByOrderContents(cs[1..]);
      InsertByOrderPermutes(cs[0], SortByOrder(cs[1..]));
      assert cs == [cs[0]] + cs[1..];
      forall k ensures WithOrder(SortByOrder(cs), k) == WithOrder(cs, k) {
        InsertByOrderStable(cs[0], SortByOrder(cs[1..]), k);
        assert WithOrder(cs, k) == (if cs[0].order == k then [cs[0]] else []) + WithOrder(cs[1..], k);
      }
    }
  }

  // ---------------------------------------------------------------------
  // The blocks of one comment and of a list of comments

  /** The caption of a photo: its caption, else its description. */
  function Caption(p: Photo): string {
    if p.caption != "" then p.caption else p.description
  }

  /** The photos that produce a media container (those whose url is not ""). */
  function PhotoUrlCount(ps: seq<Photo>): nat {
    if ps == [] then 0 else PhotoUrlCount(ps[..|ps| - 1]) + (if ps[|ps| - 1].url != "" then 1 else 0)
  }

  function VideoUrlCount(vs: seq<Video>): nat {
    if vs == [] then 0 else VideoUrlCount(vs[..|vs| - 1]) + (if vs[|vs| - 1].url != "" then 1 else 0)
  }

  /** One media container per photo with a url, in photo order. */
  function PhotoBlocks(ps: seq<Photo>): (fs: seq<Fragment>)
    ensures |fs| == PhotoUrlCount(ps)
    ensures forall k :: 0 <= k < |fs| ==> fs[k].PhotoMedia? && fs[k].url != ""
  {
    if ps == [] then []
    else
      var p := ps[|ps| - 1];
      assert ps == ps[..|ps| - 1] + [p];
      PhotoBlocks(ps[..|ps| - 1]) + (if p.url != "" then [PhotoMedia(p.url, Caption(p))] else [])
  }

  /** One media container per video with a url, in video order. */
  function VideoBlocks(vs: seq<Video>): (fs: seq<Fragment>)
    ensures |fs| == VideoUrlCount(vs)
    ensures forall k :: 0 <= k < |fs| ==> fs[k].VideoMedia? && fs[k].url != ""
  {
    if vs == [] then []
    else
      var v := vs[|vs| - 1];
      assert vs == vs[..|vs| - 1] + [v];
      VideoBlocks(vs[..|vs| - 1]) + (if v.url != "" then [VideoMedia(v.url)] else [])
  }

  /** Every photo with a url has its container among the blocks. */
  lemma {:induction false} PhotoBlocksCover(ps: seq<Photo>, p: Photo)
    requires p in ps && p.url != ""
    ensures PhotoMedia(p.url, Caption(p)) in PhotoBlocks(ps)
  {
    var last := ps[|ps| - 1];
    assert ps == ps[..|ps| - 1] + [last];
    if p != last {
      PhotoBlocksCover(ps[..|ps| - 1], p);
    }
  }

  /** Every video with a url has its container among the blocks. */
  lemma {:induction false} VideoBlocksCover(vs: seq<Video>, v: Video)
    requires v in vs && v.url != ""
    ensures VideoMedia(v.url) in VideoBlocks(vs)
  {
    var last := vs[|vs| - 1];
    assert vs == vs[..|vs| - 1] + [last];
    if v != last {
      VideoBlocksCover(vs[..|vs| - 1], v);
    }
  }

  /** The comment-item block of a comment, if its paragraphs are not empty. */
  function TextBlock(c: Comment): seq<Fragment> {
    var ps := FormatCommentText(c);
    if ps == [] then [] else [CommentItem(ps)]
  }

  /** Everything one comment contributes: its text block, then its photos,
      then its videos. It holds no divider and one media container per photo
      or video with a url. */
  function CommentBlock(c: Comment): (r: seq<Fragment>)
    ensures DividerCount(r) == 0
    ensures MediaCount(r) == PhotoUrlCount(c.photos) + VideoUrlCount(c.videos)
  {
    var pb, vb := PhotoBlocks(c.photos), VideoBlocks(c.videos);
    CountsOfAllMedia(pb);
    CountsOfAllMedia(vb);
    CountsOfConcat(TextBlock(c), pb);
    CountsOfConcat(TextBlock(c) + pb, vb);
    TextBlock(c) + pb + vb
  }

  /** The blocks of the comments in the given order, a divider between two consecutive comments. */
  function JoinBlocks(cs: seq<Comment>): seq<Fragment> {
    if |cs| == 0 then []
    else if |cs| == 1 then CommentBlock(cs[0])
    else JoinBlocks(cs[..|cs| - 1]) + [Divider] + CommentBlock(cs[|cs| - 1])
  }

  /** `format_all_comments` / `formatAllComments`: the blocks of the comments
      sorted by order. There is one divider between each two comments and one
      media container per photo or video url. */
  function Render(cs: seq<Comment>): (r: seq<Fragment>)
    ensures DividerCount(r) == if cs == [] then 0 else |cs| - 1
    ensures MediaCount(r) == UrlCount(cs)
  {
    JoinBlocksCounts(SortByOrder(cs));
    UrlCountSort(cs);
    JoinBlocks(SortByOrder(cs))
  }

  /** The loop of `format_all_comments` / `formatAllComments`: per sorted
      comment, its text block, its media containers, and a divider unless it
      is the last comment. */
  method FormatAllComments(comments: seq<Comment>) returns (parts: seq<Fragment>)
    ensures parts == Render(comments)
  {
    if |comments| == 0 {
      return [];
    }
    var sorted := SortByOrder(comments);
    parts := [];
    for idx := 0 to |sorted|
      invariant parts == JoinBlocks(sorted[..idx]) + (if 0 < idx < |sorted| then [Divider] else [])
    {
      parts := AppendCommentBlock(parts, sorted[idx]);
      JoinBlocksPrefix(sorted, idx);
      if idx < |sorted| - 1 {
        parts := parts + [Divider];
      }
    }
    assert sorted[..|sorted|] == sorted;
  }

  /** One comment's turn of the loop: its text block, then its photo and video containers. */
  method AppendCommentBlock(parts: seq<Fragment>, comment: Comment) returns (r: seq<Fragment>)
    ensures r == parts + CommentBlock(comment)
  {
    r := parts + TextBlock(comment);
    r := AppendPhotos(r, comment.photos);
    r := AppendVideos(r, comment.videos);
    ConcatAssoc(parts, TextBlock(comment), PhotoBlocks(comment.photos), VideoBlocks(comment.videos));
  }

  lemma ConcatAssoc(a: seq<Fragment>, b: seq<Fragment>, c: seq<Fragment>, d: seq<Fragment>)
    ensures a + b + c + d == a + (b + c + d)
  {
  }

  /** One more comment adds its block, after a divider unless it is the first. */
  lemma JoinBlocksPrefix(cs: seq<Comment>, i: nat)
    requires i < |cs|
    ensures JoinBlocks(cs[..i + 1]) == JoinBlocks(cs[..i]) + (if i > 0 then [Divider] else []) + CommentBlock(cs[i])
  {
    assert cs[..i + 1][..i] == cs[..i];
  }

  /** The photo loop of `format_all_comments`: a container per photo with a url. */
  method AppendPhotos(parts: seq<Fragment>, photos: seq<Photo>) returns (r: seq<Fragment>)
    ensures r == parts + PhotoBlocks(photos)
  {
    r := parts;
    for k := 0 to |photos|
      invariant r == parts + PhotoBlocks(photos[..k])
    {
      PhotoBlocksStep(photos, k);
      var photo := photos[k];
      if photo.url != "" {
        r := r + [PhotoMedia(photo.url, Caption(photo))];
      }
    }
    assert photos[..|photos|] == photos;
  }

  /** The video loop of `format_all_comments`: a container per video with a url. */
  method AppendVideos(parts: seq<Fragment>, videos: seq<Video>) returns (r: seq<Fragment>)
    ensures r == parts + VideoBlocks(videos)
  {
    r := parts;
    for k := 0 to |videos|
      invariant r == parts + VideoBlocks(videos[..k])
    {
      VideoBlocksStep(videos, k);
      var video := videos[k];
      if video.url != "" {
        r := r + [VideoMedia(video.url)];
      }
    }
    assert videos[..|videos|] == videos;
  }

  /** One more photo adds its container when it has a url. */
  lemma PhotoBlocksStep(photos: seq<Photo>, k: nat)
    requires k < |photos|
    ensures PhotoBlocks(photos[..k + 1])
         == PhotoBlocks(photos[..k]) + (if photos[k].url != "" then [PhotoMedia(photos[k].url, Caption(photos[k]))] else [])
  {
    assert photos[..k + 1][..k] == photos[..k];
  }

  /** One more video adds its container when it has a url. */
  lemma VideoBlocksStep(videos: seq<Video>, k: nat)
    requires k < |videos|
    ensures VideoBlocks(videos[..k + 1])
         == VideoBlocks(videos[..k]) + (if videos[k].url != "" then [VideoMedia(videos[k].url)] else [])
  {
    assert videos[..k + 1][..k] == videos[..k];
  }

  // ---------------------------------------------------------------------
  // Counting blocks

  function DividerCount(fs: seq<Fragment>): nat {
    if fs == [] then 0 else DividerCount(fs[..|fs| - 1]) + (if fs[|fs| - 1].Divider? then 1 else 0)
  }

  predicate IsMedia(f: Fragment) {
    f.PhotoMedia? || f.VideoMedia?
  }

  function MediaCount(fs: seq<Fragment>): nat {
    if fs == [] then 0 else MediaCount(fs[..|fs| - 1]) + (if IsMedia(fs[|fs| - 1]) then 1 else 0)
  }

  /** The number of media containers a list of comments calls for. */
  function UrlCount(cs: seq<Comment>): nat {
    if cs == [] then 0
    else UrlCount(cs[..|cs| - 1]) + PhotoUrlCount(cs[|cs| - 1].photos) + VideoUrlCount(cs[|cs| - 1].videos)
  }

  lemma {:induction false} CountsOfConcat(a: seq<Fragment>, b: seq<Fragment>)
    ensures DividerCount(a + b) == DividerCount(a) + DividerCount(b)
    ensures MediaCount(a + b) == MediaCount(a) + MediaCount(b)
  {
    if b != [] {
      assert (a + b)[..|a + b| - 1] == a + b[..|b| - 1];
      CountsOfConcat(a, b[..|b| - 1]);
    } else {
      assert a + b == a;
    }
  }

  lemma CountsOfAllMedia(fs: seq<Fragment>)
    requires forall k :: 0 <= k < |fs| ==> IsMedia(fs[k])
    ensures DividerCount(fs) == 0 && MediaCount(fs) == |fs|
  {
  }

  /** A rendering has one divider fewer than there are comments. */
  lemma {:induction false} JoinBlocksCounts(cs: seq<Comment>)
    ensures DividerCount(JoinBlocks(cs)) == if cs == [] then 0 else |cs| - 1
    ensures MediaCount(JoinBlocks(cs)) == UrlCount(cs)
  {
    if |cs| == 1 {
      assert cs[..0] == [];
    } else if |cs| > 1 {
      var init := cs[..|cs| - 1];
      JoinBlocksCounts(init);
      CountsOfConcat(JoinBlocks(init), [Divider]);
      CountsOfConcat(JoinBlocks(init) + [Divider], CommentBlock(cs[|cs| - 1]));
    }
  }

  lemma {:induction false} UrlCountCons(c: Comment, s: seq<Comment>)
    ensures UrlCount([c] + s) == PhotoUrlCount(c.photos) + VideoUrlCount(c.videos) + UrlCount(s)
  {
    if s == [] {
      assert ([c] + s)[..0] == [];
    } else {
      assert ([c] + s)[..|[c] + s| - 1] == [c] + s[..|s| - 1];
      UrlCountCons(c, s[..|s| - 1]);
    }
  }

  lemma {:induction false} UrlCountInsert(c: Comment, s: seq<Comment>)
    requires SortedByOrder(s)
    ensures UrlCount(InsertByOrder(c, s)) == PhotoUrlCount(c.photos) + VideoUrlCount(c.videos) + UrlCount(s)
  {
    if s == [] || c.order <= s[0].order {
      UrlCountCons(c, s);
    } else {
      assert s == [s[0]] + s[1..];
      UrlCountInsert(c, s[1..]);
      UrlCountCons(s[0], InsertByOrder(c, s[1..]));
      UrlCountCons(s[0], s[1..]);
    }
  }

  lemma {:induction false} UrlCountSort(cs: seq<Comment>)
    ensures UrlCount(SortByOrder(cs)) == UrlCount(cs)
  {
    if cs != [] {
      assert cs == [cs[0]] + cs[1..];
      UrlCountSort(cs[1..]);
      UrlCountInsert(cs[0], SortByOrder(cs[1..]));
      UrlCountCons(cs[0], cs[1..]);
    }
  }

  /** Nothing is rendered exactly when there is no comment, or a single one
      with no location, no text and no media url (two comments always give a
      divider). */
  lemma RenderEmptiness(cs: seq<Comment>)
    ensures Render(cs) == [] <==> cs == [] || (|cs| == 1 && CommentBlock(cs[0]) == [])
  {
    if |cs| == 1 {
      assert SortByOrder(cs) == InsertByOrder(cs[0], SortByOrder([]));
    } else if |cs| >= 2 {
      assert DividerCount(Render(cs)) > 0;
    }
  }

  // ---------------------------------------------------------------------
  // Visible text (`get_text(strip=True)` is not "")

  predicate ParagraphHasText(p: Paragraph) {
    p.LocationPara? || !IsBlank(p.text)
  }

  predicate FragmentHasText(f: Fragment) {
    match f
    case CommentItem(ps) => exists k :: 0 <= k < |ps| && ParagraphHasText(ps[k])
    case PhotoMedia(_, caption) => !IsBlank(caption)
    case VideoMedia(_) => false
    case Divider => false
    case AdditionalFinding => true
    case TemplateText(t) => !IsBlank(t)
  }

  /** The container shows some non-whitespace text. */
  predicate HasText(fs: seq<Fragment>) {
    exists k :: 0 <= k < |fs| && FragmentHasText(fs[k])
  }
}
