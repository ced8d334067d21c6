# Clipboard history (pastila) — a Dafny model of its core

Pastila is a macOS menu-bar clipboard history. A watcher polls the system
pasteboard's change counter. When the counter moves, the watcher turns the
pasteboard's best representation into a history item. The order is file
references, then image, then rich text, then HTML, then plain text. Pastes
the app makes itself carry a private marker type and are skipped.

The store keeps the items newest first, at most 100 of them. A new item
replaces an older entry with the same content, unless that entry is already
at the head: then the new capture is dropped. Items beyond the cap are
evicted together with their image files. Every change hands a snapshot of
the list to a background writer. Pasting an entry back writes its
representations and the marker to the pasteboard and moves the entry to the
head. The search box filters the history by a case-insensitive substring of
each item's search text.

The model has seven modules:

- `Options`: Swift optionals.
- `Strings`: the Foundation string operations the item's derived strings
  use: lowercasing, substring search, `components(separatedBy:)`,
  `joined(separator:)`, truncation with "..." and `lastPathComponent`.
- `Items`: the content types with their stored tags and labels, the item
  record, its search, list-preview and full-preview strings, and the
  history filter.
- `Board`: the pasteboard as a class. It holds a change counter and a map
  from representation type to value, with the AppKit calls the core makes.
- `Store`: the history. The pure functions `Added`, `MovedToTop` and
  `Cleared` state what each operation does to a `StoreState`: the items,
  the image directory and the snapshots handed to the writer. The
  `ClipboardStore` class performs the operations in place. Each of its
  methods is proved to produce exactly that new state. The class invariant
  is that the last snapshot saved is the current list.
- `Monitor`: the watcher. `Capture` and `Polled` state one capture and one
  poll. The `ClipboardMonitor` class is proved to match them.
- `Paste`: the paste service. `Pasted` states what the pasteboard holds
  after a paste. `PasteService.CopyToClipboard` is proved to build it with
  the individual pasteboard calls and to move the entry to the head.

Two behaviours of `add` are worth spelling out:

- Re-copying the head entry's content. The comment at
  Sources/Services/ClipboardStore.swift:26 speaks of updating the timestamp.
  The code at lines 27-29 puts the old entry back unchanged and saves
  nothing. `Store.AddDuplicateOfHead` states the code's behaviour: the whole
  store is left as it was.
- The sequence "hello", then an image, then "hello" again. The second
  "hello" finds its duplicate at index 1, removes it and is inserted at the
  head, giving `[new "hello", image]`. `Store.CopyTextImageText` proves
  this.

## Model

| member | source | states |
|---|---|---|
| Strings.Lower | Sources/Models/ClipboardItem.swift:24 | lowercasing keeps the length, leaves no upper-case letter, and maps each character on its own |
| Strings.LowerIdempotent | Sources/Models/ClipboardItem.swift:24 | a lower-case string is its own lowercasing, so lowercasing twice is lowercasing once |
| Strings.Contains | Sources/UI/PopupViewController.swift:175 | a text contains only queries no longer than itself, and contains each of its prefixes, the empty query included |
| Strings.ContainsLower | Sources/UI/PopupViewController.swift:174-175 | if the query occurs in the text, the lowercased query occurs in the lowercased text |
| Strings.Split | Sources/Models/ClipboardItem.swift:38 | splitting at a character set gives at least one component, one more than the number of separators, and no component holds a separator |
| Strings.ConcatSplit | Sources/Models/ClipboardItem.swift:38 | laid end to end, the components are the input minus its separators |
| Strings.Join | Sources/Models/ClipboardItem.swift:27 | the joined text starts with the first part and is as long as the parts plus one separator between each two; `SplitJoin` and `JoinContainsPart` are its partners |
| Strings.SplitJoin | Sources/Models/ClipboardItem.swift:106 | joining separator-free parts with a separator character and splitting at it gives back the parts |
| Strings.JoinContainsPart | Sources/Models/ClipboardItem.swift:27 | every part occurs in the joined text |
| Strings.IsWhitespace | Sources/Models/ClipboardItem.swift:38 | space, tab, line feed and carriage return are whitespace; digits, ASCII letters, '/' and '.' are not |
| Strings.NonEmpty | Sources/Models/ClipboardItem.swift:39 | the filtered parts are all non-empty and all come from the input, and every non-empty part of the input is kept |
| Strings.NonEmptyAppend | Sources/Models/ClipboardItem.swift:39 | filtering a concatenation is filtering each half, so the kept parts stay in their order |
| Strings.ConcatNonEmpty | Sources/Models/ClipboardItem.swift:39 | dropping empty parts loses no character |
| Strings.Words | Sources/Models/ClipboardItem.swift:38-39 | the words of a text are non-empty and free of whitespace, and laid end to end they are the text's non-whitespace characters in order |
| Strings.JoinWordsSingleSpaced | Sources/Models/ClipboardItem.swift:40 | words joined by one space form a single-spaced line that does not start with whitespace |
| Strings.WordsOfJoin | Sources/Models/ClipboardItem.swift:38-40 | splitting words joined by single spaces gives back exactly those words |
| Strings.Collapse | Sources/Models/ClipboardItem.swift:38-40 | collapsed text is single-spaced (no leading, trailing or repeated whitespace, no line break), keeps every non-whitespace character in order, and has exactly the words of the original |
| Strings.CollapseIdempotent | Sources/Models/ClipboardItem.swift:38-40 | collapsing collapsed text changes nothing |
| Strings.Truncate | Sources/Models/ClipboardItem.swift:41-44 | the result is at most limit+3 long; it is longer than the limit exactly when the input is; a short input is unchanged; a long one keeps its first `limit` characters followed by "..." |
| Strings.TruncateSingleSpaced | Sources/Models/ClipboardItem.swift:41-42 | cutting a single-spaced line and appending "..." keeps it single-spaced |
| Strings.LastPathComponent | Sources/Models/ClipboardItem.swift:47 | the last component is empty only for an empty path, is "/" or free of slashes, and otherwise occurs in the path |
| Strings.LastPathComponentOfPath | Sources/Models/ClipboardItem.swift:47 | the last component of `dir/name`, with or without a trailing slash, is `name` |
| Items.RawValue | Sources/Models/ClipboardItem.swift:3-9 | each content type is stored under its case name, a non-empty tag starting in lower case |
| Items.ContentTypeLabel | Sources/Models/ClipboardItem.swift:88-96 | each content type's label is non-empty and capitalised |
| Items.ParseContentType | Sources/Models/ClipboardItem.swift:3-9 | a stored tag that parses is the tag of the content type it parses to |
| Items.ContentTypeRoundTrip | Sources/Models/ClipboardItem.swift:3-9 | every content type reads back from its tag, and distinct types have distinct tags |
| Items.ContentTypeLabelInjective | Sources/Models/ClipboardItem.swift:88-96 | no two content types share a label |
| Items.SearchText | Sources/Models/ClipboardItem.swift:22-33 | the search text is lower case, and as long as the plain text when there is one |
| Items.SearchTextPrefersPlainText | Sources/Models/ClipboardItem.swift:23-25 | with plain text, the search text is that text lowercased, whatever paths or type the item has |
| Items.SearchFindsPaths | Sources/Models/ClipboardItem.swift:26-28 | without plain text, the search text is the paths joined and lowercased, and searching for any one path, in any case, finds the item |
| Items.BareImageTexts | Sources/Models/ClipboardItem.swift:29-110 | an image without text or paths searches as "image", is found by the query "Image", and previews as "Image" |
| Items.FileNames | Sources/Models/ClipboardItem.swift:47 | one file name per path, the i-th being the last path component of the i-th path |
| Items.DisplayText | Sources/Models/ClipboardItem.swift:35-53 | the list preview of an item with plain text is at most 203 characters |
| Items.DisplayTextOfText | Sources/Models/ClipboardItem.swift:35-45 | the list preview of a text-bearing item is a single-spaced line of at most 203 characters; it is cut, ending in "...", exactly when the collapsed text exceeds 200; uncut, it has exactly the words of the text |
| Items.DisplayTextOfFiles | Sources/Models/ClipboardItem.swift:46-48 | the list preview of file references `dir/name` is their names joined by ", " |
| Items.NoTextNoPathsTexts | Sources/Models/ClipboardItem.swift:22-112 | an item other than an image with neither text nor paths has empty search, list-preview and full-preview strings, and no non-empty query finds it |
| Items.FullPreviewText | Sources/Models/ClipboardItem.swift:98-112 | the full preview of an item with plain text is at most 1003 characters |
| Items.FullPreviewOfText | Sources/Models/ClipboardItem.swift:99-104 | the full preview is the text up to 1000 characters, else its first 1000 characters and "..." |
| Items.FullPreviewOfPaths | Sources/Models/ClipboardItem.swift:105-107 | the full preview of file references splits at line breaks back into the path list |
| Items.Matches | Sources/UI/PopupViewController.swift:171-175 | an item matched by a non-empty query has a search text at least as long as the query |
| Items.Filter | Sources/UI/PopupViewController.swift:171-176 | the filter keeps exactly the items that match the query, and no more items than there were |
| Items.FilterAppend | Sources/UI/PopupViewController.swift:171-176 | filtering a concatenation is filtering each half, so the filter keeps history order |
| Items.FilterFirst | Sources/UI/PopupViewController.swift:171-176 | the first filtered item is the first item of the history that matches |
| Items.FilterIsCaseInsensitive | Sources/UI/PopupViewController.swift:171-176 | the filter gives the same items for a query and its lowercasing |
| Items.FilterFindsPlainText | Sources/UI/PopupViewController.swift:171-176 | the filter keeps every item whose plain text contains the query, in any case |
| Store.FirstIndex | Sources/Services/ClipboardStore.swift:63-73 | the index found satisfies the condition and no earlier one does; no index is found only when no element satisfies it |
| Store.RemoveAt | Sources/Services/ClipboardStore.swift:25 | removal keeps the elements before the index, shifts those after it down by one, and removes exactly one occurrence of the element |
| Store.IsDuplicate | Sources/Services/ClipboardStore.swift:63-73 | duplicates share their content type, and images never are duplicates |
| Store.FindDuplicate | Sources/Services/ClipboardStore.swift:62-74 | the position found holds a duplicate and no earlier entry is one |
| Store.IndexOfId | Sources/Services/ClipboardStore.swift:50 | the position found holds the id and no earlier entry does |
| Store.DuplicateIsPartialEquivalence | Sources/Services/ClipboardStore.swift:62-74 | being duplicates is symmetric and transitive, never crosses content types and never holds between images |
| Store.Added | Sources/Services/ClipboardStore.swift:22-46 | add leaves the store as it was, or puts the item first, stays within 100 items and saves the new list |
| Store.AddFreshItem | Sources/Services/ClipboardStore.swift:37-43 | without a duplicate the new item is first, every old item moves down one, and the list grows by one up to the cap |
| Store.AddToFullHistory | Sources/Services/ClipboardStore.swift:37-43 | a new item added to a full history evicts exactly the last item and deletes its image file |
| Store.AddInserts | Sources/Services/ClipboardStore.swift:37-45 | unless the head is a duplicate, the new item is first, the list is within the cap, and the new list is saved |
| Store.AddDuplicateOfHead | Sources/Services/ClipboardStore.swift:24-30 | a duplicate at the head leaves the store unchanged: items, files and snapshots |
| Store.AddDuplicateBelowHead | Sources/Services/ClipboardStore.swift:24-37 | a duplicate below the head is removed and the new item is first; the others keep their order; below the cap the length is unchanged and the multiset swaps the duplicate for the item |
| Store.AddHeadMatches | Sources/Services/ClipboardStore.swift:22-46 | after add, the head is the new item, or the list is unchanged and its head duplicates the new item |
| Store.AddKeepsNoDuplicates | Sources/Services/ClipboardStore.swift:22-46 | a history without duplicates stays without duplicates |
| Store.AddKeepsIdsDistinct | Sources/Services/ClipboardStore.swift:22-46 | a new item with a fresh id keeps ids distinct |
| Store.Capped | Sources/Services/ClipboardStore.swift:39-43 | the kept items are the first 100, or all of them when there are fewer |
| Store.Evicted | Sources/Services/ClipboardStore.swift:39-43 | the evicted tail is exactly what follows the kept items |
| Store.Inserted | Sources/Services/ClipboardStore.swift:37-45 | after the insert, the list is within the cap and followed by the evicted tail gives the full list, the evicted items' images are deleted, and the new list is saved |
| Store.InsertedKeepsAssets | Sources/Services/ClipboardStore.swift:37-43 | eviction deletes no file of an item it keeps |
| Store.AddKeepsAssets | Sources/Services/ClipboardStore.swift:22-46 | with distinct image files and the new image written, every live image keeps its file and files stay distinct |
| Store.ReplaceKeepsAssets | Sources/Services/ClipboardStore.swift:31-43 | replacing a duplicate below the head keeps every live image's file |
| Store.ReplacedFiles | Sources/Services/ClipboardStore.swift:32-34 | dropping a duplicate deletes at most its own image file, changes no other file, and deletes nothing when the new item refers to the same file |
| Store.DedupCleanupNeverFires | Sources/Services/ClipboardStore.swift:32-34 | the image clean-up for a replaced duplicate deletes nothing for well-formed entries, since images are never duplicates |
| Store.ReplacedImageNotLive | Sources/Services/ClipboardStore.swift:32-34 | the image file deleted for a replaced duplicate belongs to no item that stays |
| Store.MovedToTop | Sources/Services/ClipboardStore.swift:49-55 | moving to the top keeps the length and the files, and either changes nothing or saves the new list |
| Store.MoveToTopReorders | Sources/Services/ClipboardStore.swift:49-55 | moving to the top keeps the same items and files; an absent id or one at the head changes nothing; otherwise the entry is first, the rest keep their order, and the new list is saved |
| Store.MoveToTopIdempotent | Sources/Services/ClipboardStore.swift:49-55 | moving the same id to the top twice is moving it once |
| Store.MoveToTopKeepsInvariants | Sources/Services/ClipboardStore.swift:49-55 | moving to the top keeps ids distinct and the history free of duplicates |
| Store.Cleared | Sources/Services/ClipboardStore.swift:76-82 | clearing empties the list, only deletes files, and saves the empty list |
| Store.ClearRemovesEverything | Sources/Services/ClipboardStore.swift:76-82 | clearing empties the list, deletes every item's image, keeps other files, and saves the empty list |
| Store.OperationsKeepSnapshotCurrent | Sources/Services/ClipboardStore.swift:104-106 | after add, moveToTop and clearAll, the last snapshot handed to the writer is the current list |
| Store.CopyTextImageText | Sources/Services/ClipboardStore.swift:22-46 | copying "hello", an image, then "hello" again leaves the new "hello" first and the image second |
| Store.CopyTextTwice | Sources/Services/ClipboardStore.swift:24-30 | copying "hello" twice keeps only the first capture |
| Store.ImageFilename | Sources/Services/ClipboardStore.swift:85 | an image file is named by its UUID followed by ".png" |
| Store.ClipboardStore.constructor | Sources/Services/ClipboardStore.swift:119-129 | start-up uses the decoded list, or an empty one when there is none |
| Store.ClipboardStore.Add | Sources/Services/ClipboardStore.swift:22-46 | the new store is `Added` of the old one, and the last snapshot stays current |
| Store.ClipboardStore.EvictOldItems | Sources/Services/ClipboardStore.swift:39-43 | the loop leaves the first 100 items and deletes exactly the images of the evicted tail |
| Store.ClipboardStore.MoveToTop | Sources/Services/ClipboardStore.swift:49-55 | the new store is `MovedToTop` of the old one |
| Store.ClipboardStore.ItemAt | Sources/Services/ClipboardStore.swift:57-60 | the item at an index inside the list, and nothing exactly when the index is outside it |
| Store.ClipboardStore.ClearAll | Sources/Services/ClipboardStore.swift:76-82 | the new store is `Cleared` of the old one |
| Store.ClipboardStore.SaveImageData | Sources/Services/ClipboardStore.swift:84-89 | the data is written under the UUID with ".png", and that name is returned |
| Store.ClipboardStore.LoadImageData | Sources/Services/ClipboardStore.swift:91-94 | the file's data when the file exists, nothing otherwise |
| Store.ClipboardStore.CleanupImageFile | Sources/Services/ClipboardStore.swift:98-102 | the item's image file, if it has one, is gone and no other file is touched |
| Store.ClipboardStore.ScheduleSave | Sources/Services/ClipboardStore.swift:104-117 | a snapshot of the current list is handed to the writer |
| Board.DataOn | Sources/Services/ClipboardMonitor.swift:32 | data is read exactly when the type holds data, and it is that data |
| Board.StringOn | Sources/Services/ClipboardMonitor.swift:84 | a string is read exactly when the type holds a string, and it is that string |
| Board.FileURLsOn | Sources/Services/ClipboardMonitor.swift:47-49 | the paths of the file URLs on the board are returned exactly, and a non-empty result is what the board stores under the file-URL type |
| Board.SelfMarked | Sources/Services/ClipboardMonitor.swift:32 | a board is self-marked exactly when it holds data under the marker type |
| Board.Pasteboard.constructor | Sources/Services/ClipboardMonitor.swift:6 | a pasteboard with the given counter and contents |
| Board.Pasteboard.ClearContents | Sources/Services/PasteService.swift:12 | clearing empties the board and moves the counter on by one |
| Board.Pasteboard.SetData | Sources/Services/PasteService.swift:15 | the data is stored under its type and nothing else changes |
| Board.Pasteboard.SetString | Sources/Services/PasteService.swift:20 | the string is stored under its type and nothing else changes |
| Board.Pasteboard.WriteObjects | Sources/Services/PasteService.swift:48-49 | writing file references replaces the contents by those references |
| Monitor.PngOn | Sources/Services/ClipboardMonitor.swift:65-67 | with TIFF data on the board the result is the conversion of that data, and without it there is no PNG |
| Monitor.CaptureFiles | Sources/Services/ClipboardMonitor.swift:65-68 | a capture leaves the list and snapshots alone and deletes no image file |
| Monitor.Polled | Sources/Services/ClipboardMonitor.swift:26-41 | a poll records the current change count, and a self-marked board leaves the store as it was |
| Monitor.Capture | Sources/Services/ClipboardMonitor.swift:43-130 | a captured item has the payload fields of its type; its id, date and source come from outside; every payload field comes from the board |
| Monitor.CapturePriority | Sources/Services/ClipboardMonitor.swift:43-130 | each type is captured exactly when its representation is present and no earlier one is; nothing is captured exactly when none is present |
| Monitor.CaptureKeepsContent | Sources/Services/ClipboardMonitor.swift:47-127 | the item keeps the board's paths, markup, fallback string or text, and an image refers to the PNG file written for it |
| Monitor.CaptureWritesOnlyImages | Sources/Services/ClipboardMonitor.swift:65-80 | a capture changes only the image directory, and only an image capture writes there, under the item's file name |
| Monitor.PollChangesStoreOnlyOnCapture | Sources/Services/ClipboardMonitor.swift:26-41 | a poll records the current change count, and changes the store only when the counter moved, the board is not self-marked and something was captured |
| Monitor.PollShowsCapture | Sources/Services/ClipboardMonitor.swift:38-40 | after a capture the head shows the captured content: the untouched old head if it duplicates the item, else the item itself, with the new list saved |
| Monitor.PollKeepsAssets | Sources/Services/ClipboardMonitor.swift:26-41 | with fresh image names, polling keeps every live image's file and the image files distinct |
| Monitor.ClipboardMonitor.constructor | Sources/Services/ClipboardMonitor.swift:10-13 | the counter already on the board counts as seen |
| Monitor.ClipboardMonitor.CheckForChanges | Sources/Services/ClipboardMonitor.swift:26-41 | the new count and store are those of `Polled` |
| Monitor.ClipboardMonitor.CaptureItem | Sources/Services/ClipboardMonitor.swift:43-130 | the item is that of `Capture`, and the store gains only the image file |
| Paste.Marked | Sources/Services/PasteService.swift:15 | the marker board holds the marker type and nothing else, and is self-marked |
| Paste.Pasted | Sources/Services/PasteService.swift:10-52 | every pasted board carries the self marker |
| Paste.PasteIsNotCaptured | Sources/Services/PasteService.swift:14-15 | every pasted board carries the marker, so the next poll leaves the history unchanged |
| Paste.PastedRepresentations | Sources/Services/PasteService.swift:17-52 | a paste writes only the representations of the item's own type, a PNG only when the image file exists, and never TIFF |
| Paste.CaptureOfPasted | Sources/Services/PasteService.swift:17-52 | for every entry but images, capturing the pasted board gives the entry back with a new id, date and source, and that capture duplicates the entry |
| Paste.PastedImageIsNotRecaptured | Sources/Services/PasteService.swift:39-43 | a pasted image is PNG only, which the watcher does not capture |
| Paste.PasteService.constructor | Sources/Services/PasteService.swift:6-8 | the service works on the given store |
| Paste.PasteService.CopyToClipboard | Sources/Services/PasteService.swift:10-56 | the counter moves on by one, the board is `Pasted` of the entry and the image directory, and the store is `MovedToTop` of the old one |

## Left out

- JSON encoding and decoding of the history file: the constructor takes the decoded list, or none when the file is missing or does not decode. A save appends a snapshot to `saves` instead of writing the file.
- The background save queue: a save is the snapshot taken when it is scheduled. The order and failure of the writes are not modelled.
- File-system failures: writes and removals of image files always succeed, and reads fail only for missing files.
- The timer's start and stop and the 0.5 s polling interval: one poll is one call of `CheckForChanges`.
- The frontmost application, `UUID()` and `Date()`: they are parameters of a capture (`CaptureEnv`). The item id is a natural number. Nothing proves the UUIDs fresh: `PollKeepsAssets` and `AddKeepsIdsDistinct` take freshness as a precondition.
- TIFF-to-PNG conversion (`NSBitmapImageRep`): the capture takes a conversion function that may fail.
- The pasteboard's own conversions between representation types are not modelled. In particular a pasted PNG is never read back as TIFF, so `PastedImageIsNotRecaptured` reflects the model, not the system pasteboard. Paths written as file URLs are stored as given, without the standardisation `NSURL(fileURLWithPath:)` applies (dropping a trailing slash, resolving a relative path), so `CaptureOfPasted` holds on the system pasteboard only for standard paths, such as captured ones.
- `relativeTimeString`, `absoluteTimeString` and `icon`: presentation only, dependent on the clock, locale and system images.
- The hotkey manager, the status-bar item, the popup panel and the cell views. Only the popup's search filter is modelled.
- Strings.Lower: lowercases ASCII letters only, not the full Unicode case mapping.
- Strings.Contains: substring search works character by character, not on grapheme clusters up to canonical equivalence as Swift's `contains` does (so "e" is found in "cafe" followed by a combining acute accent).
- Store.IsDuplicate: plain texts and path lists are compared character by character, not by Swift's canonical equivalence, so a precomposed "café" and a decomposed one are not duplicates here.
- Strings.LastPathComponent: works on '/'-separated text. URL standardisation and percent-encoding are not modelled.
- String lengths count characters, not Swift's grapheme clusters, for the 200- and 1000-character cuts.
