/**
 * The pasteboard watcher: on every poll it compares the pasteboard's change
 * counter with the last one seen, skips the history's own pastes, turns the
 * pasteboard's best representation into an item and adds it to the store.
 *
 * `Capture` and `Polled` state what one capture and one poll do; the
 * `ClipboardMonitor` class performs them against a `Pasteboard` and a
 * `ClipboardStore` and is proved to match them.
 */
module Monitor {
  import opened Options
  import opened Items
  import opened Board
  import opened Store

  /**
   * What a capture takes from outside the pasteboard: the frontmost
   * application's name, the identifier and date the new item gets, the UUID
   * an image file is named after, and the TIFF-to-PNG conversion (which may
   * fail).
   */
  datatype CaptureEnv = CaptureEnv(
    sourceApp: Option<string>,
    id: nat,
    now: int,
    imageId: string,
    convert: Bytes -> Option<Bytes>)

  /** The PNG made from the board's TIFF data, when there is TIFF data and it converts. */
  function PngOn(board: Contents, convert: Bytes -> Option<Bytes>): (r: Option<Bytes>)
    ensures r.Some? ==> DataOn(board, TiffType).Some?
    ensures DataOn(board, TiffType).Some? ==> r == convert(DataOn(board, TiffType).value)
  {
    match DataOn(board, TiffType)
    case None => None
    case Some(tiff) => convert(tiff)
  }

  /**
   * `captureItem`: the first representation present, in the order file
   * references, image, rich text, HTML, non-empty plain text, becomes the
   * item; rich text and HTML take the plain string along as their fallback.
   * Every field of the item comes from the board or from `env`.
   */
  function Capture(board: Contents, env: CaptureEnv): (r: Option<Item>)
    ensures r.Some? ==> PayloadMatchesType(r.value)
    ensures r.Some? ==> r.value.id == env.id && r.value.timestamp == env.now && r.value.sourceApp == env.sourceApp
    ensures r.Some? && r.value.plainText.Some? ==> r.value.plainText == StringOn(board, StringType)
    ensures r.Some? && r.value.richTextData.Some? ==> r.value.richTextData == DataOn(board, RtfType)
    ensures r.Some? && r.value.htmlString.Some? ==> r.value.htmlString == StringOn(board, HtmlType)
    ensures r.Some? && r.value.fileURLPaths.Some? ==> r.value.fileURLPaths == Some(FileURLsOn(board))
    ensures r.Some? && r.value.imageFilename.Some? ==> r.value.imageFilename == Some(ImageFilename(env.imageId))
  {
    var urls := FileURLsOn(board);
    if urls != [] then
      Some(Item(env.id, FileURL, env.now, env.sourceApp, None, None, None, None, Some(urls)))
    else if PngOn(board, env.convert).Some? then
      Some(Item(env.id, Image, env.now, env.sourceApp, None, None, None, Some(ImageFilename(env.imageId)), None))
    else if DataOn(board, RtfType).Some? then
      Some(Item(env.id, RichText, env.now, env.sourceApp, StringOn(board, StringType), DataOn(board, RtfType), None, None, None))
    else if StringOn(board, HtmlType).Some? then
      Some(Item(env.id, Html, env.now, env.sourceApp, StringOn(board, StringType), None, StringOn(board, HtmlType), None, None))
    else if StringOn(board, StringType).Some? && StringOn(board, StringType).value != "" then
      Some(Item(env.id, Text, env.now, env.sourceApp, StringOn(board, StringType), None, None, None, None))
    else
      None
  }

  /** The store after a capture's side effect: only an image capture writes a file, the PNG under its fresh name. */
  function CaptureFiles(s: StoreState, board: Contents, env: CaptureEnv): (r: StoreState)
    ensures r.items == s.items && r.saves == s.saves && s.files.Keys <= r.files.Keys
  {
    if FileURLsOn(board) == [] && PngOn(board, env.convert).Some? then
      s.(files := s.files[ImageFilename(env.imageId) := PngOn(board, env.convert).value])
    else s
  }

  /**
   * `checkForChanges` as a value: the last change count seen and the store
   * after one poll of a board with change counter `count`.
   */
  function Polled(last: int, s: StoreState, count: int, board: Contents, env: CaptureEnv): (r: (int, StoreState))
    ensures r.0 == count
    ensures SelfMarked(board) ==> r.1 == s
  {
    if count == last then (last, s)
    else if SelfMarked(board) then (count, s)
    else
      match Capture(board, env)
      case None => (count, s)
      case Some(item) => (count, Added(CaptureFiles(s, board, env), item))
  }

  // ---------------------------------------------------------------------------
  // What a capture guarantees
  // ---------------------------------------------------------------------------

  /**
   * The capture order: each content type is chosen exactly when its
   * representation is on the board and no earlier one is, and nothing is
   * captured exactly when the board has none of them (or only an empty
   * string).
   */
  lemma CapturePriority(board: Contents, env: CaptureEnv)
    ensures var r := Capture(board, env);
      var urls, png, rtf, html, text :=
        FileURLsOn(board) != [], PngOn(board, env.convert).Some?, DataOn(board, RtfType).Some?,
        StringOn(board, HtmlType).Some?, StringOn(board, StringType).Some? && StringOn(board, StringType).value != "";
      && (r.Some? && r.value.contentType == FileURL <==> urls)
      && (r.Some? && r.value.contentType == Image <==> !urls && png)
      && (r.Some? && r.value.contentType == RichText <==> !urls && !png && rtf)
      && (r.Some? && r.value.contentType == Html <==> !urls && !png && !rtf && html)
      && (r.Some? && r.value.contentType == Text <==> !urls && !png && !rtf && !html && text)
      && (r.None? <==> !urls && !png && !rtf && !html && !text)
  {
  }

  /**
   * A capture keeps what the board offered: file references keep their
   * paths, rich text and HTML keep their markup and plain fallback, text
   * keeps its string, and an image refers to the file written for it.
   */
  lemma CaptureKeepsContent(board: Contents, env: CaptureEnv)
    requires Capture(board, env).Some?
    ensures var item := Capture(board, env).value;
      match item.contentType
      case FileURL => item.fileURLPaths == Some(FileURLsOn(board))
      case Image => item.imageFilename == Some(ImageFilename(env.imageId))
        && CaptureFiles(StoreState([], map[], []), board, env).files == map[ImageFilename(env.imageId) := PngOn(board, env.convert).value]
      case RichText => item.richTextData == DataOn(board, RtfType) && item.plainText == StringOn(board, StringType)
      case Html => item.htmlString == StringOn(board, HtmlType) && item.plainText == StringOn(board, StringType)
      case Text => item.plainText == StringOn(board, StringType)
  {
  }

  /**
   * The capture's side effect touches nothing but the image directory, and
   * only an image capture writes there: the item's file, holding the PNG.
   */
  lemma CaptureWritesOnlyImages(s: StoreState, board: Contents, env: CaptureEnv)
    ensures var t := CaptureFiles(s, board, env);
      && t.items == s.items && t.saves == s.saves
      && (t != s ==> Capture(board, env).Some? && Capture(board, env).value.contentType == Image)
      && (Capture(board, env).Some? && Capture(board, env).value.contentType == Image ==>
            var name := Capture(board, env).value.imageFilename.value;
            name in t.files && t.files == s.files[name := PngOn(board, env.convert).value])
  {
  }

  // ---------------------------------------------------------------------------
  // What a poll guarantees
  // ---------------------------------------------------------------------------

  /**
   * A poll always records the current change count, and it changes the store
   * only when the counter moved, the board is not the history's own paste and
   * something was captured.
   */
  lemma PollChangesStoreOnlyOnCapture(last: int, s: StoreState, count: int, board: Contents, env: CaptureEnv)
    ensures Polled(last, s, count, board, env).0 == count
    ensures Polled(last, s, count, board, env).1 != s ==>
      count != last && !SelfMarked(board) && Capture(board, env).Some?
  {
  }

  /**
   * After a poll that captured an item, the newest entry of the history is
   * that item or an entry with the same content. When the old head already
   * had that content the list and its snapshots are untouched; otherwise the
   * item is the new head and a snapshot of the new list was saved.
   */
  lemma PollShowsCapture(last: int, s: StoreState, count: int, board: Contents, env: CaptureEnv)
    requires count != last && !SelfMarked(board) && Capture(board, env).Some?
    ensures var t := Polled(last, s, count, board, env).1;
      var item := Capture(board, env).value;
      && t.items != []
      && (t.items[0] == item || IsDuplicate(t.items[0], item))
      && (s.items != [] && IsDuplicate(s.items[0], item) ==> t.items == s.items && t.saves == s.saves)
      && (s.items == [] || !IsDuplicate(s.items[0], item) ==> t.items[0] == item && t.saves == s.saves + [t.items])
  {
    var item := Capture(board, env).value;
    var s' := CaptureFiles(s, board, env);
    CaptureWritesOnlyImages(s, board, env);
    AddHeadMatches(s', item);
    if FindDuplicate(s'.items, item) != Some(0) {
      AddInserts(s', item);
    } else {
      AddDuplicateOfHead(s', item);
    }
  }

  /**
   * With every image file named after a fresh UUID, polling keeps every live
   * image's file on disk and keeps image files distinct between items.
   */
  lemma PollKeepsAssets(last: int, s: StoreState, count: int, board: Contents, env: CaptureEnv)
    requires AssetsPresent(s) && Pairwise(s.items, DistinctImages)
    requires ImageFilename(env.imageId) !in ImageNames(s.items)
    ensures AssetsPresent(Polled(last, s, count, board, env).1)
    ensures Pairwise(Polled(last, s, count, board, env).1.items, DistinctImages)
  {
    if count != last && !SelfMarked(board) && Capture(board, env).Some? {
      var item := Capture(board, env).value;
      var s' := CaptureFiles(s, board, env);
      CaptureWritesOnlyImages(s, board, env);
      assert NameOf(item) <= s'.files.Keys;
      forall i | 0 <= i < |s.items| ensures DistinctImages(item, s.items[i]) {
        if item.imageFilename.Some? {
          ImageNamesMember(s.items, item.imageFilename.value);
        }
      }
      PairwiseCons(item, s.items, DistinctImages);
      AddKeepsAssets(s', item);
    }
  }

  // ---------------------------------------------------------------------------

  class ClipboardMonitor {
    var lastChangeCount: int
    const pasteboard: Pasteboard
    const store: ClipboardStore

    /** Start-up: the counter already on the board counts as seen. */
    constructor(store: ClipboardStore, pasteboard: Pasteboard)
      ensures this.store == store && this.pasteboard == pasteboard
      ensures lastChangeCount == pasteboard.changeCount
    {
      this.store := store;
      this.pasteboard := pasteboard;
      lastChangeCount := pasteboard.changeCount;
    }

    /** One timer tick. */
    method CheckForChanges(env: CaptureEnv)
      requires store.Valid()
      modifies this, store
      ensures store.Valid()
      ensures (lastChangeCount, store.State()) ==
        Polled(old(lastChangeCount), old(store.State()), pasteboard.changeCount, pasteboard.contents, env)
    {
      var currentCount := pasteboard.changeCount;
      if currentCount == lastChangeCount {
        return;
      }
      lastChangeCount := currentCount;
      if DataOn(pasteboard.contents, SelfMarkerType).Some? {
        return;
      }
      var item := CaptureItem(env);
      if item.Some? {
        store.Add(item.value);
      }
    }

    /** `captureItem`: reads the board in priority order; an image is saved before the item is made. */
    method CaptureItem(env: CaptureEnv) returns (item: Option<Item>)
      requires store.Valid()
      modifies store`imageFiles
      ensures store.Valid()
      ensures item == Capture(pasteboard.contents, env)
      ensures store.State() == CaptureFiles(old(store.State()), pasteboard.contents, env)
    {
      var board := pasteboard.contents;
      var urls := FileURLsOn(board);
      if urls != [] {
        return Some(Item(env.id, FileURL, env.now, env.sourceApp, None, None, None, None, Some(urls)));
      }
      var tiffData := DataOn(board, TiffType);
      if tiffData.Some? {
        var pngData := env.convert(tiffData.value);
        if pngData.Some? {
          var filename := store.SaveImageData(pngData.value, env.imageId);
          return Some(Item(env.id, Image, env.now, env.sourceApp, None, None, None, Some(filename), None));
        }
      }
      var rtfData := DataOn(board, RtfType);
      if rtfData.Some? {
        var plainText := StringOn(board, StringType);
        return Some(Item(env.id, RichText, env.now, env.sourceApp, plainText, rtfData, None, None, None));
      }
      var htmlString := StringOn(board, HtmlType);
      if htmlString.Some? {
        var plainText := StringOn(board, StringType);
        return Some(Item(env.id, Html, env.now, env.sourceApp, plainText, None, htmlString, None, None));
      }
      var text := StringOn(board, StringType);
      if text.Some? && text.value != "" {
        return Some(Item(env.id, Text, env.now, env.sourceApp, text, None, None, None, None));
      }
      return None;
    }
  }
}
