/**
 * One captured clipboard entry: its content-type tag, its stored fields, and the
 * strings derived from them for searching, the one-line list preview, the full
 * preview and the type label.
 */
module Items {
  import opened Options
  import opened Strings

  newtype byte = x: int | 0 <= x < 256

  /** Raw binary payloads (`Data`). */
  type Bytes = seq<byte>

  // ---------------------------------------------------------------------------
  // Content types and their stored tags
  // ---------------------------------------------------------------------------

  datatype ContentType = Text | RichText | Html | Image | FileURL

  /**
   * The tag a content type is stored under in the history file: Swift's
   * default raw value, the case name itself, so it starts in lower case.
   */
  function RawValue(t: ContentType): (r: string)
    ensures r != [] && !IsUpper(r[0])
  {
    match t
    case Text => "text"
    case RichText => "richText"
    case Html => "html"
    case Image => "image"
    case FileURL => "fileURL"
  }

  /** Reading a stored tag back; any other string is not a content type. */
  function ParseContentType(raw: string): (r: Option<ContentType>)
    ensures r.Some? ==> RawValue(r.value) == raw
  {
    if raw == "text" then Some(Text)
    else if raw == "richText" then Some(RichText)
    else if raw == "html" then Some(Html)
    else if raw == "image" then Some(Image)
    else if raw == "fileURL" then Some(FileURL)
    else None
  }

  /** Every content type reads back from its tag, and distinct types have distinct tags. */
  lemma ContentTypeRoundTrip(t: ContentType, u: ContentType)
    ensures ParseContentType(RawValue(t)) == Some(t)
    ensures RawValue(t) == RawValue(u) ==> t == u
  {
    assert ParseContentType(RawValue(u)) == Some(u);
  }

  /** The human-readable label shown in the preview: a capitalised word (distinct per type, see below). */
  function ContentTypeLabel(t: ContentType): (r: string)
    ensures r != [] && IsUpper(r[0])
  {
    match t
    case Text => "Plain Text"
    case RichText => "Rich Text"
    case Html => "HTML"
    case Image => "Image"
    case FileURL => "File"
  }

  /** No two content types share a label. */
  lemma ContentTypeLabelInjective(t: ContentType, u: ContentType)
    ensures ContentTypeLabel(t) == ContentTypeLabel(u) ==> t == u
  {
  }

  // ---------------------------------------------------------------------------
  // The item record
  // ---------------------------------------------------------------------------

  /**
   * A history entry. `id` stands for the UUID and `timestamp` for the capture
   * date; the payload fields are optional.
   */
  datatype Item = Item(
    id: nat,
    contentType: ContentType,
    timestamp: int,
    sourceApp: Option<string>,
    plainText: Option<string>,
    richTextData: Option<Bytes>,
    htmlString: Option<string>,
    imageFilename: Option<string>,
    fileURLPaths: Option<seq<string>>)

  /**
   * The payload fields a content type uses are present and the others are
   * absent: text has non-empty plain text; rich text has its data and maybe a
   * plain-text fallback; HTML has its markup and maybe a fallback; an image
   * has its file name; file references have a non-empty path list.
   */
  predicate PayloadMatchesType(item: Item) {
    match item.contentType
    case Text =>
      item.plainText.Some? && item.plainText.value != "" && item.richTextData.None?
      && item.htmlString.None? && item.imageFilename.None? && item.fileURLPaths.None?
    case RichText =>
      item.richTextData.Some? && item.htmlString.None? && item.imageFilename.None? && item.fileURLPaths.None?
    case Html =>
      item.htmlString.Some? && item.richTextData.None? && item.imageFilename.None? && item.fileURLPaths.None?
    case Image =>
      item.imageFilename.Some? && item.plainText.None? && item.richTextData.None?
      && item.htmlString.None? && item.fileURLPaths.None?
    case FileURL =>
      item.fileURLPaths.Some? && item.fileURLPaths.value != [] && item.plainText.None?
      && item.richTextData.None? && item.htmlString.None? && item.imageFilename.None?
  }

  // ---------------------------------------------------------------------------
  // Derived strings
  // ---------------------------------------------------------------------------

  /**
   * The lower-case text the history filter searches: the plain text if there
   * is one, else the paths joined by spaces, else "image" for an image.
   */
  function SearchText(item: Item): (r: string)
    ensures IsLowercase(r)
    ensures item.plainText.Some? ==> |r| == |item.plainText.value|
  {
    match item.plainText
    case Some(text) => Lower(text)
    case None =>
      match item.fileURLPaths
      case Some(paths) => Lower(Join(paths, " "))
      case None => if item.contentType == Image then "image" else ""
  }

  /** `lastPathComponent` of every path, in order. */
  function FileNames(paths: seq<string>): (r: seq<string>)
    ensures |r| == |paths|
    ensures forall i :: 0 <= i < |paths| ==> r[i] == LastPathComponent(paths[i])
  {
    seq(|paths|, i requires 0 <= i < |paths| => LastPathComponent(paths[i]))
  }

  /**
   * The one-line list preview: the plain text collapsed to single spaces and
   * cut at 200 characters plus "...", else the file names joined by ", ",
   * else "Image" for an image.
   */
  function DisplayText(item: Item): (r: string)
    ensures item.plainText.Some? ==> |r| <= 203
  {
    match item.plainText
    case Some(text) => Truncate(Collapse(text), 200)
    case None =>
      match item.fileURLPaths
      case Some(paths) => Join(FileNames(paths), ", ")
      case None => if item.contentType == Image then "Image" else ""
  }

  /**
   * The hover preview: the plain text cut at 1000 characters plus "...",
   * else the paths one per line, else "Image" for an image.
   */
  function FullPreviewText(item: Item): (r: string)
    ensures item.plainText.Some? ==> |r| <= 1003
  {
    match item.plainText
    case Some(text) => Truncate(text, 1000)
    case None =>
      match item.fileURLPaths
      case Some(paths) => Join(paths, "\n")
      case None => if item.contentType == Image then "Image" else ""
  }

  predicate IsNewline(c: char) {
    c == '\n'
  }

  // ---------------------------------------------------------------------------
  // Properties of the derived strings
  // ---------------------------------------------------------------------------

  /**
   * The plain text takes priority over paths and the image tag: whenever an
   * item has plain text, its search text is exactly that text lowercased.
   */
  lemma SearchTextPrefersPlainText(item: Item, text: string)
    requires item.plainText == Some(text)
    ensures SearchText(item) == Lower(text)
    ensures Lower(SearchText(item)) == SearchText(item)
  {
    LowerIdempotent(text);
  }

  /**
   * Without plain text, the search text of file references is their paths
   * joined by spaces and lowercased, so searching for any one of the paths,
   * in any case, finds the item.
   */
  lemma SearchFindsPaths(item: Item, paths: seq<string>, k: nat)
    requires item.plainText.None? && item.fileURLPaths == Some(paths) && k < |paths|
    ensures SearchText(item) == Lower(Join(paths, " "))
    ensures Matches(item, paths[k])
  {
    JoinContainsPart(paths, " ", k);
    ContainsLower(Join(paths, " "), paths[k]);
  }

  /**
   * An image with neither plain text nor paths searches as "image", so the
   * query "Image" finds it, and both previews read "Image".
   */
  lemma BareImageTexts(item: Item)
    requires item.contentType == Image && item.plainText.None? && item.fileURLPaths.None?
    ensures SearchText(item) == "image" && Matches(item, "Image")
    ensures DisplayText(item) == "Image" && FullPreviewText(item) == "Image"
  {
    assert Lower("Image") == "image";
    assert OccursAt("image", "image", 0);
  }

  /**
   * The list preview of a text-bearing item is a single line of at most 203
   * characters with no leading, trailing or repeated whitespace; it is longer
   * than 200 (and ends in the appended "...") exactly when the collapsed text
   * is, and when it is not cut it keeps every non-whitespace character.
   */
  lemma DisplayTextOfText(item: Item, text: string)
    requires item.plainText == Some(text)
    ensures var r := DisplayText(item);
      && |r| <= 203
      && SingleSpaced(r)
      && (|r| > 200 <==> |Collapse(text)| > 200)
      && (|r| > 200 ==> r[..200] == Collapse(text)[..200] && r[200..] == "...")
      && (|r| <= 200 ==> Visible(r, IsWhitespace) == Visible(text, IsWhitespace))
      && (|r| <= 200 ==> Words(r) == Words(text))
  {
    TruncateSingleSpaced(Collapse(text), 200);
  }

  /**
   * The list preview of file references with no plain text is their file
   * names joined by ", ": for paths `dirs[k]/names[k]`, it is the names.
   */
  lemma DisplayTextOfFiles(item: Item, paths: seq<string>, dirs: seq<string>, names: seq<string>)
    requires item.plainText.None? && item.fileURLPaths == Some(paths)
    requires |paths| == |dirs| == |names|
    requires forall k :: 0 <= k < |paths| ==> paths[k] == dirs[k] + "/" + names[k]
    requires forall k :: 0 <= k < |names| ==> names[k] != [] && '/' !in names[k]
    ensures DisplayText(item) == Join(names, ", ")
  {
    forall k | 0 <= k < |paths| ensures FileNames(paths)[k] == names[k] {
      LastPathComponentOfPath(dirs[k], names[k]);
    }
    assert FileNames(paths) == names;
  }

  /**
   * An item with neither plain text nor paths that is not an image (rich
   * text or HTML without a plain fallback) shows and searches as the empty
   * string, so no non-empty query finds it.
   */
  lemma NoTextNoPathsTexts(item: Item, query: string)
    requires item.plainText.None? && item.fileURLPaths.None? && item.contentType != Image
    ensures SearchText(item) == "" && DisplayText(item) == "" && FullPreviewText(item) == ""
    ensures query != "" ==> !Matches(item, query)
  {
    assert |Lower(query)| == |query|;
  }

  /**
   * The full preview of a text-bearing item is the text itself up to 1000
   * characters; beyond that it is the first 1000 characters and "...".
   */
  lemma FullPreviewOfText(item: Item, text: string)
    requires item.plainText == Some(text)
    ensures |text| <= 1000 ==> FullPreviewText(item) == text
    ensures |text| > 1000 ==> FullPreviewText(item) == text[..1000] + "..."
  {
  }

  /**
   * The full preview of file references lists the paths one per line: cutting
   * it at the line breaks gives back the path list, when no path holds a line
   * break.
   */
  lemma FullPreviewOfPaths(item: Item, paths: seq<string>)
    requires item.plainText.None? && item.fileURLPaths == Some(paths) && paths != []
    requires forall k :: 0 <= k < |paths| ==> NoneOf(paths[k], IsNewline)
    ensures Split(FullPreviewText(item), IsNewline) == paths
  {
    assert "\n" == ['\n'];
    SplitJoin(paths, '\n', IsNewline);
  }

  // ---------------------------------------------------------------------------
  // The history filter
  // ---------------------------------------------------------------------------

  /**
   * An empty query shows everything; otherwise the lowercased query must
   * occur in the search text, which is then at least as long as the query.
   */
  predicate Matches(item: Item, query: string)
    ensures Matches(item, query) && query != "" ==> |query| <= |SearchText(item)|
  {
    query == "" || Contains(SearchText(item), Lower(query))
  }

  /** The history filter: the matching items, in history order (see `FilterAppend` and `FilterFirst`). */
  function Filter(items: seq<Item>, query: string): (r: seq<Item>)
    ensures |r| <= |items|
    ensures forall x :: x in r <==> x in items && Matches(x, query)
  {
    if items == [] then []
    else (if Matches(items[0], query) then [items[0]] else []) + Filter(items[1..], query)
  }

  /** The filter ignores the case of the query. */
  lemma FilterIsCaseInsensitive(items: seq<Item>, query: string)
    ensures Filter(items, Lower(query)) == Filter(items, query)
  {
    LowerIdempotent(query);
    assert forall x :: Matches(x, Lower(query)) == Matches(x, query);
    FilterSame(items, query, Lower(query));
  }

  /** The filter finds every item whose plain text contains the query, whatever the case of either. */
  lemma FilterFindsPlainText(items: seq<Item>, query: string)
    ensures forall x :: x in items && x.plainText.Some? && Contains(x.plainText.value, query) ==>
      x in Filter(items, query)
  {
    forall x | x in items && x.plainText.Some? && Contains(x.plainText.value, query)
      ensures x in Filter(items, query)
    {
      ContainsLower(x.plainText.value, query);
    }
  }

  /** The filter keeps history order: filtering a concatenation filters each part in turn. */
  lemma {:induction false} FilterAppend(a: seq<Item>, b: seq<Item>, query: string)
    ensures Filter(a + b, query) == Filter(a, query) + Filter(b, query)
    decreases |a|
  {
    if a == [] {
      assert a + b == b;
    } else {
      assert (a + b)[0] == a[0];
      assert (a + b)[1..] == a[1..] + b;
      FilterAppend(a[1..], b, query);
    }
  }

  /** The first row of the filtered list, which the popup selects, is the newest matching item. */
  lemma {:induction false} FilterFirst(items: seq<Item>, query: string, k: nat)
    requires k < |items| && Matches(items[k], query)
    requires forall j :: 0 <= j < k ==> !Matches(items[j], query)
    ensures Filter(items, query) != [] && Filter(items, query)[0] == items[k]
    decreases k
  {
    if k > 0 {
      FilterFirst(items[1..], query, k - 1);
    }
  }

  lemma {:induction false} FilterSame(items: seq<Item>, q1: string, q2: string)
    requires forall x :: Matches(x, q1) == Matches(x, q2)
    ensures Filter(items, q1) == Filter(items, q2)
  {
    if items != [] {
      FilterSame(items[1..], q1, q2);
    }
  }
}
