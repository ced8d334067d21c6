/**
 * The system pasteboard as the clipboard history sees it: a change counter and
 * a map from representation type to value. Clearing bumps the counter and
 * empties the map; writing file objects replaces every representation.
 */
module Board {
  import opened Options
  import opened Items

  /** The representations the history reads or writes, and the private self-write marker. */
  datatype PasteboardType = StringType | RtfType | HtmlType | TiffType | PngType | FileURLType | SelfMarkerType

  datatype Value = Data(bytes: Bytes) | Str(text: string) | FileURLs(paths: seq<string>)

  type Contents = map<PasteboardType, Value>

  /** `data(forType:)` for a binary representation. */
  function DataOn(board: Contents, t: PasteboardType): (r: Option<Bytes>)
    ensures r.Some? <==> t in board && board[t].Data?
    ensures r.Some? ==> board[t] == Data(r.value)
  {
    if t in board && board[t].Data? then Some(board[t].bytes) else None
  }

  /** `string(forType:)`. */
  function StringOn(board: Contents, t: PasteboardType): (r: Option<string>)
    ensures r.Some? <==> t in board && board[t].Str?
    ensures r.Some? ==> board[t] == Str(r.value)
  {
    if t in board && board[t].Str? then Some(board[t].text) else None
  }

  /** The paths of the file URLs on the board (`readObjects` restricted to file URLs); empty when there are none. */
  function FileURLsOn(board: Contents): (r: seq<string>)
    ensures r != [] ==> FileURLType in board && board[FileURLType] == FileURLs(r)
    ensures FileURLType in board && board[FileURLType].FileURLs? ==> r == board[FileURLType].paths
  {
    if FileURLType in board && board[FileURLType].FileURLs? then board[FileURLType].paths else []
  }

  /** The board carries data under the marker type the history writes when it pastes an item back. */
  predicate SelfMarked(board: Contents)
    ensures SelfMarked(board) <==> SelfMarkerType in board && board[SelfMarkerType].Data?
  {
    DataOn(board, SelfMarkerType).Some?
  }

  class Pasteboard {
    var changeCount: int
    var contents: Contents

    constructor(changeCount: int, contents: Contents)
      ensures this.changeCount == changeCount && this.contents == contents
    {
      this.changeCount := changeCount;
      this.contents := contents;
    }

    /** `clearContents()`: a new owner, so the counter moves on, and nothing on the board. */
    method ClearContents()
      modifies this
      ensures changeCount == old(changeCount) + 1 && contents == map[]
    {
      changeCount := changeCount + 1;
      contents := map[];
    }

    /** `setData(_:forType:)`. */
    method SetData(data: Bytes, t: PasteboardType)
      modifies this`contents
      ensures contents == old(contents)[t := Data(data)]
    {
      contents := contents[t := Data(data)];
    }

    /** `setString(_:forType:)`. */
    method SetString(text: string, t: PasteboardType)
      modifies this`contents
      ensures contents == old(contents)[t := Str(text)]
    {
      contents := contents[t := Str(text)];
    }

    /** `writeObjects(_:)` with file URLs: every other representation is dropped. */
    method WriteObjects(paths: seq<string>)
      modifies this`contents
      ensures contents == map[FileURLType := FileURLs(paths)]
    {
      contents := map[FileURLType := FileURLs(paths)];
    }
  }
}
