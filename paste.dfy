/**
 * Pasting an entry back: the pasteboard is cleared, marked as the history's
 * own write, given the entry's representations for its content type, and
 * the entry moves to the head of the history.
 *
 * `Pasted` states what the board holds afterwards; `PasteService` performs
 * the writes one call at a time and is proved to produce it. The lemmas
 * relate a paste to the watcher: the paste is never captured back, and the
 * board it leaves would be captured as the same content.
 */
module Paste {
  import opened Options
  import opened Items
  import opened Board
  import opened Store
  import opened Monitor

  /** The self-write marker: empty data under the private type. */
  function Marked(): (r: Contents)
    ensures r.Keys == {SelfMarkerType} && SelfMarked(r)
  {
    map[SelfMarkerType := Data([])]
  }

  function WithData(board: Contents, t: PasteboardType, data: Option<Bytes>): Contents {
    if data.Some? then board[t := Data(data.value)] else board
  }

  function WithString(board: Contents, t: PasteboardType, text: Option<string>): Contents {
    if text.Some? then board[t := Str(text.value)] else board
  }

  /**
   * The board after `copyToClipboard(item:)`, given the image directory: the
   * marker, then the present payload fields of the item's content type; an
   * image's PNG only when its file is there; file references replace the
   * board and the marker is put back.
   */
  function Pasted(item: Item, files: map<string, Bytes>): (r: Contents)
    ensures SelfMarked(r)
  {
    match item.contentType
    case Text => WithString(Marked(), StringType, item.plainText)
    case RichText => WithString(WithData(Marked(), RtfType, item.richTextData), StringType, item.plainText)
    case Html => WithString(WithString(Marked(), HtmlType, item.htmlString), StringType, item.plainText)
    case Image =>
      if item.imageFilename.Some? && item.imageFilename.value in files
      then Marked()[PngType := Data(files[item.imageFilename.value])]
      else Marked()
    case FileURL =>
      if item.fileURLPaths.Some?
      then map[FileURLType := FileURLs(item.fileURLPaths.value), SelfMarkerType := Data([])]
      else Marked()
  }

  // ---------------------------------------------------------------------------
  // What a paste guarantees
  // ---------------------------------------------------------------------------

  /**
   * Whatever is pasted, the board carries the marker, so the watcher's next
   * poll records the new change count and leaves the history alone.
   */
  lemma PasteIsNotCaptured(item: Item, files: map<string, Bytes>, last: int, s: StoreState, count: int, env: CaptureEnv)
    ensures SelfMarked(Pasted(item, files))
    ensures Polled(last, s, count, Pasted(item, files), env) == (count, s)
  {
    assert SelfMarkerType in Pasted(item, files) && Pasted(item, files)[SelfMarkerType] == Data([]);
  }

  /**
   * A paste writes only the representations of the item's own content type:
   * the string exactly when the item has plain text and a text type, rich
   * text data and markup only for their types, a PNG only for an image whose
   * file exists, and file references only for file entries.
   */
  lemma PastedRepresentations(item: Item, files: map<string, Bytes>)
    ensures var b := Pasted(item, files);
      && (StringOn(b, StringType) == (if item.contentType in {Text, RichText, Html} then item.plainText else None))
      && (DataOn(b, RtfType) == (if item.contentType == RichText then item.richTextData else None))
      && (StringOn(b, HtmlType) == (if item.contentType == Html then item.htmlString else None))
      && (DataOn(b, PngType).Some? <==>
            item.contentType == Image && item.imageFilename.Some? && item.imageFilename.value in files)
      && (DataOn(b, PngType).Some? ==> DataOn(b, PngType) == Some(files[item.imageFilename.value]))
      && (FileURLsOn(b) == (if item.contentType == FileURL && item.fileURLPaths.Some? then item.fileURLPaths.value else []))
      && DataOn(b, TiffType).None?
  {
  }

  /**
   * Pasting and capturing are inverse for every entry but images: copying
   * the pasted board elsewhere would capture an item with the entry's
   * content type and payload (and a new id, date and source application),
   * which the history treats as a duplicate of the entry whenever the entry
   * has plain text or file references. File references come back as given:
   * the board here stores path strings, while the system pasteboard
   * standardises each path through a file URL (dropping a trailing slash,
   * resolving a relative path), so the round trip is the system's only for
   * paths that are already standard, as captured paths are.
   */
  lemma CaptureOfPasted(item: Item, files: map<string, Bytes>, env: CaptureEnv)
    requires PayloadMatchesType(item) && item.contentType != Image
    ensures Capture(Pasted(item, files), env) ==
      Some(item.(id := env.id, timestamp := env.now, sourceApp := env.sourceApp))
    ensures (item.plainText.Some? || item.contentType == FileURL) ==>
      IsDuplicate(item, Capture(Pasted(item, files), env).value)
  {
    var b := Pasted(item, files);
    PastedRepresentations(item, files);
    assert DataOn(b, TiffType).None?;
    assert PngOn(b, env.convert).None?;
  }

  /**
   * An image entry is pasted as PNG only, while the watcher reads images as
   * TIFF: the board carries no representation the watcher captures. This is
   * a fact about this model's pasteboard, which never converts PNG to TIFF;
   * what keeps a paste out of the history is the marker (`PasteIsNotCaptured`).
   */
  lemma PastedImageIsNotRecaptured(item: Item, files: map<string, Bytes>, env: CaptureEnv)
    requires item.contentType == Image
    ensures Capture(Pasted(item, files), env).None?
  {
    PastedRepresentations(item, files);
  }

  // ---------------------------------------------------------------------------

  class PasteService {
    const store: ClipboardStore

    constructor(store: ClipboardStore)
      ensures this.store == store
    {
      this.store := store;
    }

    /**
     * `copyToClipboard(item:)`: a new change count, the board of `Pasted`
     * built from the image directory as it was, and the entry moved to the
     * head of the history.
     */
    method CopyToClipboard(pasteboard: Pasteboard, item: Item)
      requires store.Valid()
      modifies pasteboard, store
      ensures store.Valid()
      ensures pasteboard.changeCount == old(pasteboard.changeCount) + 1
      ensures pasteboard.contents == Pasted(item, old(store.imageFiles))
      ensures store.State() == MovedToTop(old(store.State()), item.id)
    {
      pasteboard.ClearContents();
      pasteboard.SetData([], SelfMarkerType);
      match item.contentType {
        case Text =>
          if item.plainText.Some? {
            pasteboard.SetString(item.plainText.value, StringType);
          }
        case RichText =>
          if item.richTextData.Some? {
            pasteboard.SetData(item.richTextData.value, RtfType);
          }
          if item.plainText.Some? {
            pasteboard.SetString(item.plainText.value, StringType);
          }
        case Html =>
          if item.htmlString.Some? {
            pasteboard.SetString(item.htmlString.value, HtmlType);
          }
          if item.plainText.Some? {
            pasteboard.SetString(item.plainText.value, StringType);
          }
        case Image =>
          if item.imageFilename.Some? {
            var data := store.LoadImageData(item.imageFilename.value);
            if data.Some? {
              pasteboard.SetData(data.value, PngType);
            }
          }
        case FileURL =>
          if item.fileURLPaths.Some? {
            pasteboard.WriteObjects(item.fileURLPaths.value);
            pasteboard.SetData([], SelfMarkerType);
          }
      }
      store.MoveToTop(item);
    }
  }
}
