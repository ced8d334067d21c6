/**
 * The clipboard history: an ordered list of items, newest first, capped at
 * `MaxItems`, with the directory of image files the items refer to and the
 * sequence of snapshots handed to the background writer.
 *
 * The pure functions `Added`, `MovedToTop` and `Cleared` state what each
 * operation does to the whole store; the `ClipboardStore` class performs the
 * operations in place and is proved to match them; the lemmas state the
 * history's guarantees in terms of those functions.
 */
module Store {
  import opened Options
  import opened Items

  /** The history keeps at most this many items after an insertion. */
  const MaxItems: nat := 100

  // ---------------------------------------------------------------------------
  // Searching and rearranging the item list
  // ---------------------------------------------------------------------------

  /** `firstIndex(where:)`: the first position whose element satisfies `p`. */
  function FirstIndex<T>(s: seq<T>, p: T -> bool): (r: Option<nat>)
    ensures r.Some? ==> r.value < |s| && p(s[r.value])
    ensures forall j :: 0 <= j < |s| && (r.None? || j < r.value) ==> !p(s[j])
  {
    if s == [] then None
    else if p(s[0]) then Some(0)
    else
      match FirstIndex(s[1..], p)
      case None => None
      case Some(k) => Some(k + 1)
  }

  /** `remove(at:)` as a value: `s` without its element at `k`. */
  function RemoveAt<T>(s: seq<T>, k: nat): (r: seq<T>)
    requires k < |s|
    ensures |r| == |s| - 1
    ensures forall i :: 0 <= i < k ==> r[i] == s[i]
    ensures forall i :: k <= i < |r| ==> r[i] == s[i + 1]
    ensures multiset(r) == multiset(s) - multiset{s[k]}
  {
    assert s == s[..k] + [s[k]] + s[k + 1..];
    s[..k] + s[k + 1..]
  }

  // ---------------------------------------------------------------------------
  // Duplicates
  // ---------------------------------------------------------------------------

  /**
   * When an existing entry counts as the same content as a new capture: same
   * content type, and then equal, present plain text for the text types, equal
   * path lists for file references, and never for images.
   */
  predicate IsDuplicate(existing: Item, item: Item)
    ensures IsDuplicate(existing, item) ==> existing.contentType == item.contentType && item.contentType != Image
  {
    existing.contentType == item.contentType &&
    match item.contentType
    case Text => existing.plainText == item.plainText && item.plainText.Some?
    case RichText => existing.plainText == item.plainText && item.plainText.Some?
    case Html => existing.plainText == item.plainText && item.plainText.Some?
    case FileURL => existing.fileURLPaths == item.fileURLPaths
    case Image => false
  }

  /** The first entry of the history that duplicates `item`. */
  function FindDuplicate(items: seq<Item>, item: Item): (r: Option<nat>)
    ensures r.Some? ==> r.value < |items| && IsDuplicate(items[r.value], item)
    ensures forall j :: 0 <= j < |items| && (r.None? || j < r.value) ==> !IsDuplicate(items[j], item)
  {
    FirstIndex(items, (e: Item) => IsDuplicate(e, item))
  }

  /** The first entry of the history with identifier `id`. */
  function IndexOfId(items: seq<Item>, id: nat): (r: Option<nat>)
    ensures r.Some? ==> r.value < |items| && items[r.value].id == id
    ensures forall j :: 0 <= j < |items| && (r.None? || j < r.value) ==> items[j].id != id
  {
    FirstIndex(items, (e: Item) => e.id == id)
  }

  /**
   * Being duplicates is symmetric and transitive (but not reflexive: images
   * and items without plain text are no one's duplicates), and it never holds
   * across content types or between images.
   */
  lemma DuplicateIsPartialEquivalence(a: Item, b: Item, c: Item)
    ensures IsDuplicate(a, b) ==> IsDuplicate(b, a)
    ensures IsDuplicate(a, b) && IsDuplicate(b, c) ==> IsDuplicate(a, c)
    ensures IsDuplicate(a, b) ==> a.contentType == b.contentType && a.contentType != Image
  {
  }

  // ---------------------------------------------------------------------------
  // Image files
  // ---------------------------------------------------------------------------

  /** The name an image is written under: a fresh UUID string with the PNG extension. */
  function ImageFilename(uuid: string): (r: string)
    ensures |r| == |uuid| + 4 && r[..|uuid|] == uuid && r[|uuid|..] == ".png"
  {
    uuid + ".png"
  }

  /** The image file an item refers to, if any. */
  function NameOf(item: Item): set<string> {
    if item.imageFilename.Some? then {item.imageFilename.value} else {}
  }

  /** The image files the items refer to. */
  function ImageNames(s: seq<Item>): set<string> {
    if s == [] then {} else NameOf(s[0]) + ImageNames(s[1..])
  }

  lemma {:induction false} ImageNamesAppend(a: seq<Item>, b: seq<Item>)
    ensures ImageNames(a + b) == ImageNames(a) + ImageNames(b)
  {
    if a == [] {
      assert a + b == b;
    } else {
      assert (a + b)[1..] == a[1..] + b;
      ImageNamesAppend(a[1..], b);
    }
  }

  lemma {:induction false} ImageNamesMember(s: seq<Item>, f: string)
    ensures f in ImageNames(s) <==> exists i :: 0 <= i < |s| && s[i].imageFilename == Some(f)
  {
    if s != [] {
      ImageNamesMember(s[1..], f);
      if f in ImageNames(s[1..]) {
        var i :| 0 <= i < |s[1..]| && s[1..][i].imageFilename == Some(f);
        assert s[i + 1].imageFilename == Some(f);
      }
      if exists i :: 0 <= i < |s| && s[i].imageFilename == Some(f) {
        var i :| 0 <= i < |s| && s[i].imageFilename == Some(f);
        if i > 0 {
          assert s[1..][i - 1].imageFilename == Some(f);
        }
      }
    }
  }

  // ---------------------------------------------------------------------------
  // Pairwise properties of the history
  // ---------------------------------------------------------------------------

  /** `ok` holds of every earlier/later pair of entries. */
  predicate Pairwise(s: seq<Item>, ok: (Item, Item) -> bool) {
    forall i, j :: 0 <= i < j < |s| ==> ok(s[i], s[j])
  }

  predicate DistinctIds(a: Item, b: Item) {
    a.id != b.id
  }

  predicate NotDuplicates(a: Item, b: Item) {
    !IsDuplicate(b, a)
  }

  predicate DistinctImages(a: Item, b: Item) {
    a.imageFilename.None? || a.imageFilename != b.imageFilename
  }

  lemma PairwiseCapped(s: seq<Item>, ok: (Item, Item) -> bool)
    requires Pairwise(s, ok)
    ensures Pairwise(Capped(s), ok)
  {
    assert forall i :: 0 <= i < |Capped(s)| ==> Capped(s)[i] == s[i];
  }

  lemma PairwiseRemoveAt(s: seq<Item>, k: nat, ok: (Item, Item) -> bool)
    requires Pairwise(s, ok) && k < |s|
    ensures Pairwise(RemoveAt(s, k), ok)
  {
    var r := RemoveAt(s, k);
    forall i, j | 0 <= i < j < |r| ensures ok(r[i], r[j]) {
      var i', j' := if i < k then i else i + 1, if j < k then j else j + 1;
      assert r[i] == s[i'] && r[j] == s[j'];
    }
  }

  lemma PairwiseCons(x: Item, s: seq<Item>, ok: (Item, Item) -> bool)
    requires Pairwise(s, ok)
    requires forall i :: 0 <= i < |s| ==> ok(x, s[i])
    ensures Pairwise([x] + s, ok)
  {
    var r := [x] + s;
    forall i, j | 0 <= i < j < |r| ensures ok(r[i], r[j]) {
      assert r[j] == s[j - 1];
      if i > 0 {
        assert r[i] == s[i - 1];
      }
    }
  }

  /** Bringing the entry at `k` to the front keeps a symmetric pairwise property. */
  lemma PairwiseMoveToFront(s: seq<Item>, k: nat, ok: (Item, Item) -> bool)
    requires Pairwise(s, ok) && k < |s|
    requires forall a, b :: ok(a, b) ==> ok(b, a)
    ensures Pairwise([s[k]] + RemoveAt(s, k), ok)
  {
    PairwiseRemoveAt(s, k, ok);
    var r := RemoveAt(s, k);
    forall i | 0 <= i < |r| ensures ok(s[k], r[i]) {
      if i < k {
        assert r[i] == s[i] && ok(s[i], s[k]);
      } else {
        assert r[i] == s[i + 1];
      }
    }
    PairwiseCons(s[k], r, ok);
  }

  // ---------------------------------------------------------------------------
  // The store as a value, and what each operation does to it
  // ---------------------------------------------------------------------------

  /**
   * The whole observable state of the history: its items, newest first; the
   * image files on disk, by file name; the snapshots handed to the writer, in
   * order.
   */
  datatype StoreState = StoreState(items: seq<Item>, files: map<string, Bytes>, saves: seq<seq<Item>>)

  /** The part of a list that survives eviction. */
  function Capped(full: seq<Item>): (r: seq<Item>)
    ensures r <= full && |r| == if |full| > MaxItems then MaxItems else |full|
  {
    if |full| > MaxItems then full[..MaxItems] else full
  }

  /** The tail that eviction removes. */
  function Evicted(full: seq<Item>): (r: seq<Item>)
    ensures Capped(full) + r == full
  {
    if |full| > MaxItems then full[MaxItems..] else []
  }

  /** After the insertion: evict the tail beyond the cap, delete its images, save a snapshot. */
  function Inserted(s: StoreState, full: seq<Item>, files: map<string, Bytes>): (r: StoreState)
    ensures |r.items| <= MaxItems && r.items + Evicted(full) == full
    ensures r.files.Keys == files.Keys - ImageNames(Evicted(full))
    ensures r.saves == s.saves + [r.items]
  {
    StoreState(Capped(full), files - ImageNames(Evicted(full)), s.saves + [Capped(full)])
  }

  /**
   * `add`: a duplicate already at the head leaves everything as it was; a
   * duplicate further down is removed (deleting its image when the new item
   * does not refer to the same file) and the new item goes to the head;
   * without a duplicate the new item goes to the head. Then the tail beyond
   * the cap is evicted with its images, and a snapshot is saved.
   */
  function Added(s: StoreState, item: Item): (r: StoreState)
    ensures r == s || (r.items != [] && r.items[0] == item && |r.items| <= MaxItems && r.saves == s.saves + [r.items])
  {
    match FindDuplicate(s.items, item)
    case None => Inserted(s, [item] + s.items, s.files)
    case Some(k) =>
      if k == 0 then s
      else
        Inserted(s, [item] + RemoveAt(s.items, k), ReplacedFiles(s.files, s.items[k], item))
  }

  /** The image directory once a duplicate is dropped: its file goes, unless the new item refers to the same one. */
  function ReplacedFiles(files: map<string, Bytes>, existing: Item, item: Item): (r: map<string, Bytes>)
    ensures r.Keys <= files.Keys && files.Keys - r.Keys <= NameOf(existing)
    ensures forall f :: f in r ==> r[f] == files[f]
    ensures existing.imageFilename == item.imageFilename ==> r == files
  {
    if existing.imageFilename.Some? && existing.imageFilename != item.imageFilename
    then files - NameOf(existing) else files
  }

  /**
   * That clean-up never deletes anything for a well-formed entry: only images
   * have a file name, and images are never duplicates.
   */
  lemma DedupCleanupNeverFires(files: map<string, Bytes>, existing: Item, item: Item)
    requires PayloadMatchesType(existing) && IsDuplicate(existing, item)
    ensures ReplacedFiles(files, existing, item) == files
  {
  }

  /** `moveToTop`: an entry with the id, unless absent or already first, moves to the head and a snapshot is saved. */
  function MovedToTop(s: StoreState, id: nat): (r: StoreState)
    ensures |r.items| == |s.items| && r.files == s.files
    ensures r == s || r.saves == s.saves + [r.items]
  {
    match IndexOfId(s.items, id)
    case None => s
    case Some(k) =>
      if k == 0 then s
      else
        var moved := [s.items[k]] + RemoveAt(s.items, k);
        StoreState(moved, s.files, s.saves + [moved])
  }

  /** `clearAll`: every item's image is deleted, the list emptied, and a snapshot saved. */
  function Cleared(s: StoreState): (r: StoreState)
    ensures r.items == [] && r.files.Keys <= s.files.Keys && r.saves == s.saves + [[]]
  {
    StoreState([], s.files - ImageNames(s.items), s.saves + [[]])
  }

  /** The last snapshot handed to the writer is the current list. */
  predicate SnapshotCurrent(s: StoreState) {
    s.saves != [] ==> s.saves[|s.saves| - 1] == s.items
  }

  /** Every image an item refers to has its file. */
  predicate AssetsPresent(s: StoreState) {
    ImageNames(s.items) <= s.files.Keys
  }

  // ---------------------------------------------------------------------------
  // What `add` guarantees
  // ---------------------------------------------------------------------------

  /**
   * Without a duplicate the new item is at index 0 and every old item moves
   * down by one; below the cap the list grows by exactly one.
   */
  lemma AddFreshItem(s: StoreState, item: Item)
    requires FindDuplicate(s.items, item).None?
    ensures var r := Added(s, item).items;
      && r[0] == item
      && |r| == (if |s.items| < MaxItems then |s.items| + 1 else MaxItems)
      && forall i :: 1 <= i < |r| ==> r[i] == s.items[i - 1]
  {
  }

  /**
   * Adding a new item to a full history evicts exactly the last item, and
   * that item's image file is gone afterwards.
   */
  lemma AddToFullHistory(s: StoreState, item: Item)
    requires FindDuplicate(s.items, item).None? && |s.items| == MaxItems
    ensures Added(s, item).items == [item] + s.items[..MaxItems - 1]
    ensures Added(s, item).files == s.files - NameOf(s.items[MaxItems - 1])
    ensures NameOf(s.items[MaxItems - 1]) !! Added(s, item).files.Keys
  {
    var full := [item] + s.items;
    assert Evicted(full) == [s.items[MaxItems - 1]];
    assert ImageNames(Evicted(full)) == NameOf(s.items[MaxItems - 1]) by {
      assert Evicted(full)[1..] == [];
    }
  }

  /**
   * Whenever `add` reaches the insertion, the new item is at the head, the
   * list is within the cap, and the new list is saved.
   */
  lemma AddInserts(s: StoreState, item: Item)
    requires FindDuplicate(s.items, item) != Some(0)
    ensures var r := Added(s, item);
      && r.items[0] == item
      && |r.items| <= MaxItems
      && r.saves == s.saves + [r.items]
  {
  }

  /**
   * A duplicate already at the head makes `add` a no-op: the old head keeps its
   * timestamp and every other field, nothing is deleted and nothing is saved.
   */
  lemma AddDuplicateOfHead(s: StoreState, item: Item)
    requires s.items != [] && IsDuplicate(s.items[0], item)
    ensures Added(s, item) == s
  {
  }

  /**
   * A duplicate further down is replaced: the new item is at the head and the
   * duplicate is gone, while the others keep their relative order; below the
   * cap the length is unchanged.
   */
  lemma AddDuplicateBelowHead(s: StoreState, item: Item, k: nat)
    requires FindDuplicate(s.items, item) == Some(k) && k > 0
    ensures var r := Added(s, item).items;
      && r[0] == item
      && r[1..] == RemoveAt(s.items, k)[..|r| - 1]
      && (|s.items| <= MaxItems ==>
            |r| == |s.items| && multiset(r) == multiset(s.items) - multiset{s.items[k]} + multiset{item})
  {
    var full := [item] + RemoveAt(s.items, k);
    assert full[1..] == RemoveAt(s.items, k);
  }

  /** After `add`, the head of the history is the new item or, untouched, an item it duplicates. */
  lemma AddHeadMatches(s: StoreState, item: Item)
    ensures var r := Added(s, item).items;
      r != [] && (r[0] == item || (r == s.items && IsDuplicate(r[0], item)))
  {
  }

  /** A history without duplicates stays without duplicates. */
  lemma AddKeepsNoDuplicates(s: StoreState, item: Item)
    requires Pairwise(s.items, NotDuplicates)
    ensures Pairwise(Added(s, item).items, NotDuplicates)
  {
    match FindDuplicate(s.items, item)
    case None =>
      PairwiseCons(item, s.items, NotDuplicates);
      PairwiseCapped([item] + s.items, NotDuplicates);
    case Some(k) =>
      if k > 0 {
        var rest := RemoveAt(s.items, k);
        PairwiseRemoveAt(s.items, k, NotDuplicates);
        forall i | 0 <= i < |rest| ensures NotDuplicates(item, rest[i]) {
          var j := if i < k then i else i + 1;
          assert rest[i] == s.items[j] && j != k;
          if j < k {
            assert NotDuplicates(s.items[j], s.items[k]);
          } else {
            assert NotDuplicates(s.items[k], s.items[j]);
          }
          DuplicateIsPartialEquivalence(s.items[j], s.items[k], item);
          DuplicateIsPartialEquivalence(s.items[k], item, item);
          DuplicateIsPartialEquivalence(s.items[j], item, s.items[k]);
        }
        PairwiseCons(item, rest, NotDuplicates);
        PairwiseCapped([item] + rest, NotDuplicates);
      }
  }

  /** A new item with a fresh id keeps the ids of the history distinct. */
  lemma AddKeepsIdsDistinct(s: StoreState, item: Item)
    requires Pairwise(s.items, DistinctIds)
    requires forall i :: 0 <= i < |s.items| ==> s.items[i].id != item.id
    ensures Pairwise(Added(s, item).items, DistinctIds)
  {
    match FindDuplicate(s.items, item)
    case None =>
      PairwiseCons(item, s.items, DistinctIds);
      PairwiseCapped([item] + s.items, DistinctIds);
    case Some(k) =>
      if k > 0 {
        PairwiseRemoveAt(s.items, k, DistinctIds);
        PairwiseCons(item, RemoveAt(s.items, k), DistinctIds);
        PairwiseCapped([item] + RemoveAt(s.items, k), DistinctIds);
      }
  }

  lemma ImageNamesDisjoint(a: seq<Item>, b: seq<Item>)
    requires Pairwise(a + b, DistinctImages)
    ensures ImageNames(a) !! ImageNames(b)
  {
    forall f | f in ImageNames(a) ensures f !in ImageNames(b) {
      ImageNamesMember(a, f);
      ImageNamesMember(b, f);
      var i :| 0 <= i < |a| && a[i].imageFilename == Some(f);
      forall j | 0 <= j < |b| ensures b[j].imageFilename != Some(f) {
        assert (a + b)[i] == a[i] && (a + b)[|a| + j] == b[j];
        assert DistinctImages((a + b)[i], (a + b)[|a| + j]);
      }
    }
  }

  lemma ImageNamesSubset(s: seq<Item>, k: nat)
    requires k < |s|
    ensures ImageNames(RemoveAt(s, k)) <= ImageNames(s)
  {
    forall f | f in ImageNames(RemoveAt(s, k)) ensures f in ImageNames(s) {
      ImageNamesMember(RemoveAt(s, k), f);
      ImageNamesMember(s, f);
      var i :| 0 <= i < |RemoveAt(s, k)| && RemoveAt(s, k)[i].imageFilename == Some(f);
      assert s[if i < k then i else i + 1].imageFilename == Some(f);
    }
  }

  /**
   * Insertion followed by eviction keeps every live image's file when the
   * items refer to distinct files and the files to delete are not live.
   */
  lemma InsertedKeepsAssets(s: StoreState, full: seq<Item>, files: map<string, Bytes>)
    requires ImageNames(full) <= files.Keys
    requires Pairwise(full, DistinctImages)
    ensures AssetsPresent(Inserted(s, full, files))
    ensures Pairwise(Inserted(s, full, files).items, DistinctImages)
  {
    if |full| > MaxItems {
      assert full == full[..MaxItems] + full[MaxItems..];
      ImageNamesAppend(full[..MaxItems], full[MaxItems..]);
      ImageNamesDisjoint(full[..MaxItems], full[MaxItems..]);
      PairwiseCapped(full, DistinctImages);
    }
  }

  /**
   * With distinct image files per item and the new item's image already
   * written, `add` never deletes the file of an item it keeps: every live
   * image still has its file afterwards.
   */
  lemma AddKeepsAssets(s: StoreState, item: Item)
    requires AssetsPresent(s) && NameOf(item) <= s.files.Keys
    requires Pairwise([item] + s.items, DistinctImages)
    ensures AssetsPresent(Added(s, item))
    ensures Pairwise(Added(s, item).items, DistinctImages)
  {
    match FindDuplicate(s.items, item)
    case None =>
      InsertedKeepsAssets(s, [item] + s.items, s.files);
    case Some(k) =>
      if k > 0 {
        ReplaceKeepsAssets(s, item, k);
      } else {
        assert RemoveAt([item] + s.items, 0) == s.items;
        PairwiseRemoveAt([item] + s.items, 0, DistinctImages);
      }
  }

  lemma ReplaceKeepsAssets(s: StoreState, item: Item, k: nat)
    requires AssetsPresent(s) && NameOf(item) <= s.files.Keys
    requires Pairwise([item] + s.items, DistinctImages)
    requires FindDuplicate(s.items, item) == Some(k) && k > 0
    ensures AssetsPresent(Added(s, item))
    ensures Pairwise(Added(s, item).items, DistinctImages)
  {
    var full := [item] + RemoveAt(s.items, k);
    var files := ReplacedFiles(s.files, s.items[k], item);
    assert Added(s, item) == Inserted(s, full, files);
    assert full == RemoveAt([item] + s.items, k + 1);
    PairwiseRemoveAt([item] + s.items, k + 1, DistinctImages);
    ReplacedListAssets(s, item, k);
    InsertedKeepsAssets(s, full, files);
  }

  lemma ReplacedListAssets(s: StoreState, item: Item, k: nat)
    requires AssetsPresent(s) && NameOf(item) <= s.files.Keys
    requires Pairwise([item] + s.items, DistinctImages)
    requires 0 < k < |s.items|
    ensures ImageNames([item] + RemoveAt(s.items, k)) <= ReplacedFiles(s.files, s.items[k], item).Keys
  {
    var full := [item] + RemoveAt(s.items, k);
    ImageNamesSubset(s.items, k);
    assert ImageNames(full) == NameOf(item) + ImageNames(RemoveAt(s.items, k)) by {
      assert full[1..] == RemoveAt(s.items, k);
    }
    if s.items[k].imageFilename.Some? && s.items[k].imageFilename != item.imageFilename {
      ReplacedImageNotLive(s.items, item, k);
    }
  }

  lemma ReplacedImageNotLive(items: seq<Item>, item: Item, k: nat)
    requires Pairwise([item] + items, DistinctImages)
    requires 0 < k < |items|
    requires items[k].imageFilename.Some? && items[k].imageFilename != item.imageFilename
    ensures items[k].imageFilename.value !in ImageNames([item] + RemoveAt(items, k))
  {
    var f := items[k].imageFilename.value;
    var full := [item] + RemoveAt(items, k);
    var all := [item] + items;
    forall i | 0 <= i < |full| ensures full[i].imageFilename != Some(f) {
      if i > 0 {
        var j := if i - 1 < k then i - 1 else i;
        assert full[i] == items[j] && j != k;
        assert all[j + 1] == items[j] && all[k + 1] == items[k];
        if j < k {
          assert DistinctImages(all[j + 1], all[k + 1]);
        } else {
          assert DistinctImages(all[k + 1], all[j + 1]);
        }
      }
    }
    ImageNamesMember(full, f);
  }

  // ---------------------------------------------------------------------------
  // What `moveToTop` guarantees
  // ---------------------------------------------------------------------------

  /**
   * `moveToTop` only reorders: same length, same items, same files. An absent
   * id or one already at the head changes nothing; otherwise the entry, with
   * all its fields, is at the head, the others keep their order, and the new
   * list is saved.
   */
  lemma MoveToTopReorders(s: StoreState, id: nat)
    ensures var r := MovedToTop(s, id);
      && |r.items| == |s.items| && multiset(r.items) == multiset(s.items) && r.files == s.files
      && (match IndexOfId(s.items, id)
          case None => r == s
          case Some(k) =>
            if k == 0 then r == s
            else r.items[0] == s.items[k] && r.items[1..] == RemoveAt(s.items, k) && r.saves == s.saves + [r.items])
  {
    match IndexOfId(s.items, id)
    case None =>
    case Some(k) =>
      if k > 0 {
        var r := MovedToTop(s, id);
        assert r.items[1..] == RemoveAt(s.items, k);
        calc {
          multiset(r.items);
          multiset([s.items[k]]) + multiset(RemoveAt(s.items, k));
          multiset{s.items[k]} + (multiset(s.items) - multiset{s.items[k]});
          multiset(s.items);
        }
      }
  }

  /** Moving the same entry to the top twice is the same as once. */
  lemma MoveToTopIdempotent(s: StoreState, id: nat)
    ensures MovedToTop(MovedToTop(s, id), id) == MovedToTop(s, id)
  {
    match IndexOfId(s.items, id)
    case None =>
    case Some(k) =>
      if k > 0 {
        var r := MovedToTop(s, id);
        assert r.items[0].id == id;
        assert IndexOfId(r.items, id) == Some(0);
      }
  }

  /** `moveToTop` keeps ids distinct and keeps a duplicate-free history duplicate-free. */
  lemma MoveToTopKeepsInvariants(s: StoreState, id: nat)
    ensures Pairwise(s.items, DistinctIds) ==> Pairwise(MovedToTop(s, id).items, DistinctIds)
    ensures Pairwise(s.items, NotDuplicates) ==> Pairwise(MovedToTop(s, id).items, NotDuplicates)
  {
    match IndexOfId(s.items, id)
    case None =>
    case Some(k) =>
      if k > 0 {
        if Pairwise(s.items, DistinctIds) {
          PairwiseMoveToFront(s.items, k, DistinctIds);
        }
        if Pairwise(s.items, NotDuplicates) {
          forall a, b | NotDuplicates(a, b) ensures NotDuplicates(b, a) {
            DuplicateIsPartialEquivalence(b, a, a);
          }
          PairwiseMoveToFront(s.items, k, NotDuplicates);
        }
      }
  }

  // ---------------------------------------------------------------------------
  // What `clearAll` guarantees, and what every operation keeps
  // ---------------------------------------------------------------------------

  /** `clearAll` leaves no items and none of their image files; other files stay. */
  lemma ClearRemovesEverything(s: StoreState)
    ensures Cleared(s).items == [] && Cleared(s).saves == s.saves + [[]]
    ensures ImageNames(s.items) !! Cleared(s).files.Keys
    ensures forall f :: f in s.files && f !in ImageNames(s.items) ==> f in Cleared(s).files
  {
  }

  /**
   * The last snapshot handed to the writer always equals the current list,
   * whatever operation ran: operations that change the list save it, and the
   * no-op paths change nothing.
   */
  lemma OperationsKeepSnapshotCurrent(s: StoreState, item: Item, id: nat)
    requires SnapshotCurrent(s)
    ensures SnapshotCurrent(Added(s, item))
    ensures SnapshotCurrent(MovedToTop(s, id))
    ensures SnapshotCurrent(Cleared(s))
  {
  }

  /**
   * Copying "hello", then an image, then "hello" again leaves the second
   * "hello" capture (with its own timestamp) at the head and the image below
   * it; the first capture is gone.
   */
  lemma CopyTextImageText(hello1: Item, image: Item, hello2: Item)
    requires hello1.contentType == Text && hello1.plainText == Some("hello")
    requires hello2.contentType == Text && hello2.plainText == Some("hello")
    requires image.contentType == Image
    ensures Added(Added(Added(StoreState([], map[], []), hello1), image), hello2).items == [hello2, image]
  {
    var s1 := Added(StoreState([], map[], []), hello1);
    assert s1.items == [hello1];
    var s2 := Added(s1, image);
    assert s2.items == [image, hello1];
    assert FindDuplicate(s2.items, hello2) == Some(1);
    assert RemoveAt(s2.items, 1) == [image];
  }

  /** Copying the same text twice in a row keeps the first capture, timestamp and all. */
  lemma CopyTextTwice(hello1: Item, hello2: Item)
    requires hello1.contentType == Text && hello1.plainText == Some("hello")
    requires hello2.contentType == Text && hello2.plainText == Some("hello")
    ensures Added(Added(StoreState([], map[], []), hello1), hello2).items == [hello1]
  {
    var s1 := Added(StoreState([], map[], []), hello1);
    assert s1.items == [hello1];
    assert FindDuplicate(s1.items, hello2) == Some(0);
  }

  // ---------------------------------------------------------------------------
  // The store object
  // ---------------------------------------------------------------------------

  class ClipboardStore {
    var items: seq<Item>
    var imageFiles: map<string, Bytes>
    var saves: seq<seq<Item>>

    function State(): StoreState
      reads this
    {
      StoreState(items, imageFiles, saves)
    }

    ghost predicate Valid()
      reads this
    {
      SnapshotCurrent(State())
    }

    /**
     * Start-up: the items decoded from the history file, or none when the file
     * is missing or does not decode; `files` is the image directory as found.
     */
    constructor(stored: Option<seq<Item>>, files: map<string, Bytes>)
      ensures Valid()
      ensures items == (if stored.Some? then stored.value else [])
      ensures imageFiles == files && saves == []
    {
      items := if stored.Some? then stored.value else [];
      imageFiles := files;
      saves := [];
    }

    method Add(item: Item)
      requires Valid()
      modifies this
      ensures Valid()
      ensures State() == Added(old(State()), item)
    {
      var existingIndex := FindDuplicate(items, item);
      if existingIndex.Some? {
        var k := existingIndex.value;
        var existing := items[k];
        items := RemoveAt(items, k);
        if k == 0 {
          items := [existing] + items;
          assert items == old(items);
          return;
        }
        if existing.imageFilename.Some? && existing.imageFilename != item.imageFilename {
          CleanupImageFile(existing);
        }
      }
      items := [item] + items;
      EvictOldItems();
      ScheduleSave();
    }

    /** Removes items from the tail, deleting their images, until the cap is respected. */
    method EvictOldItems()
      modifies this`items, this`imageFiles
      ensures items == Capped(old(items))
      ensures imageFiles == old(imageFiles) - ImageNames(Evicted(old(items)))
    {
      ghost var full := items;
      while |items| > MaxItems
        invariant |items| <= |full| && items == full[..|items|]
        invariant |full| > MaxItems ==> |items| >= MaxItems
        invariant |full| <= MaxItems ==> items == full
        invariant imageFiles == old(imageFiles) - ImageNames(full[|items|..])
        decreases |items|
      {
        var evicted := items[|items| - 1];
        assert full[|items| - 1..] == [evicted] + full[|items|..];
        items := items[..|items| - 1];
        CleanupImageFile(evicted);
      }
      assert full[|items|..] == Evicted(full);
    }

    method MoveToTop(item: Item)
      requires Valid()
      modifies this
      ensures Valid()
      ensures State() == MovedToTop(old(State()), item.id)
    {
      var found := IndexOfId(items, item.id);
      if found.None? {
        return;
      }
      var index := found.value;
      if index == 0 {
        return;
      }
      var moved := items[index];
      items := RemoveAt(items, index);
      items := [moved] + items;
      ScheduleSave();
    }

    method ItemAt(index: int) returns (r: Option<Item>)
      ensures r.None? <==> index < 0 || index >= |items|
      ensures r.Some? ==> 0 <= index < |items| && r.value == items[index]
    {
      if index < 0 || index >= |items| {
        return None;
      }
      return Some(items[index]);
    }

    method ClearAll()
      requires Valid()
      modifies this
      ensures Valid()
      ensures State() == Cleared(old(State()))
    {
      for i := 0 to |items|
        invariant items == old(items) && saves == old(saves)
        invariant imageFiles == old(imageFiles) - ImageNames(items[..i])
      {
        assert items[..i + 1] == items[..i] + [items[i]];
        ImageNamesAppend(items[..i], [items[i]]);
        CleanupImageFile(items[i]);
      }
      assert items[..|items|] == items;
      items := [];
      ScheduleSave();
    }

    /** Writes an image under a new name made from `uuid` and returns the name. */
    method SaveImageData(data: Bytes, uuid: string) returns (filename: string)
      modifies this`imageFiles
      ensures filename == ImageFilename(uuid)
      ensures imageFiles == old(imageFiles)[filename := data]
    {
      filename := ImageFilename(uuid);
      imageFiles := imageFiles[filename := data];
    }

    /** Reads an image file back; `None` when it does not exist. */
    method LoadImageData(filename: string) returns (r: Option<Bytes>)
      ensures r.Some? <==> filename in imageFiles
      ensures r.Some? ==> r.value == imageFiles[filename]
    {
      if filename in imageFiles {
        return Some(imageFiles[filename]);
      }
      return None;
    }

    /** Deletes the item's image file, if it has one; a missing file is ignored. */
    method CleanupImageFile(item: Item)
      modifies this`imageFiles
      ensures imageFiles == old(imageFiles) - NameOf(item)
    {
      if item.imageFilename.Some? {
        imageFiles := imageFiles - {item.imageFilename.value};
      }
    }

    /** Hands a snapshot of the current list to the writer. */
    method ScheduleSave()
      modifies this`saves
      ensures saves == old(saves) + [items]
    {
      saves := saves + [items];
    }
  }
}
