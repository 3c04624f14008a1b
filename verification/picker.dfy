/**
 * The picker dialog's session state machine: the state record, the
 * handlers that change it (results arriving, query changed or cleared,
 * load more, arrow keys, pointer focus), the asset built on selection, and
 * the two pure pieces of its rendering (the non-empty page filter and the
 * target row height).
 */
module Picker {
  import opened Wrappers
  import opened Types
  import opened Bynder

  /** Photos requested per page; a shorter page means the results have ended. */
  const ResultsPerPage: nat := 42

  const ArrowLeft := 37
  const ArrowUp := 38
  const ArrowRight := 39
  const ArrowDown := 40

  /**
   * The dialog state. `searchResults` holds the pages in arrival order,
   * `cursor` the index of the focused photo in their concatenation
   * (-1 after pointer focus on a photo that is not there).
   */
  datatype State = State(
    query: string,
    searchResults: seq<seq<BynderPhoto>>,
    page: nat,
    hasMore: bool,
    cursor: int
  )

  /** A handler's new state together with what it pushed, in order, into the page and query subjects. */
  datatype Transition = Transition(state: State, emitted: seq<Emission>)

  const Initial := State(query := "", searchResults := [[]], page := 1, hasMore := true, cursor := 0)

  /* ------------------------------------------------------------ Flatten */

  /** `pages.flat()`: the pages' photos, page after page. */
  function Flatten<T>(pages: seq<seq<T>>): seq<T> {
    if |pages| == 0 then [] else pages[0] + Flatten(pages[1..])
  }

  lemma {:induction false} FlattenConcat<T>(a: seq<seq<T>>, b: seq<seq<T>>)
    ensures Flatten(a + b) == Flatten(a) + Flatten(b)
  {
    if |a| == 0 {
      assert a + b == b;
    } else {
      assert (a + b)[1..] == a[1..] + b;
      FlattenConcat(a[1..], b);
    }
  }

  lemma FlattenSingle<T>(page: seq<T>)
    ensures Flatten([page]) == page
  {
    assert [page][1..] == [];
  }

  /**
   * `getPhotos()`: every photo received, in order — the photos of all
   * earlier pages followed by those of the latest page.
   */
  function Photos(s: State): (r: seq<BynderPhoto>)
    ensures |s.searchResults| > 0 ==>
      var n := |s.searchResults|;
      r == Flatten(s.searchResults[..n - 1]) + s.searchResults[n - 1]
  {
    var pages := s.searchResults;
    if |pages| > 0 then
      var n := |pages|;
      assert pages == pages[..n - 1] + [pages[n - 1]];
      FlattenConcat(pages[..n - 1], [pages[n - 1]]);
      FlattenSingle(pages[n - 1]);
      Flatten(pages)
    else Flatten(pages)
  }

  /**
   * The state invariant every handler keeps: pages are numbered from 1, and
   * the cursor is -1, 0, or the index of a photo.
   */
  ghost predicate Valid(s: State) {
    && s.page >= 1
    && -1 <= s.cursor
    && (s.cursor <= 0 || s.cursor < |Photos(s)|)
  }

  /** The dialog opens on page 1 with one empty page, more results expected and the cursor at 0. */
  lemma InitialIsValid()
    ensures Valid(Initial)
    ensures Photos(Initial) == []
  {
    FlattenSingle<BynderPhoto>([]);
  }

  /* ----------------------------------------------------------- Handlers */

  /**
   * The results subscriber: the page is appended after all earlier pages,
   * so the photos received so far stay an unchanged prefix, and more are
   * expected exactly when the page is full.
   */
  function ResultsArrived(s: State, results: seq<BynderPhoto>): (r: State)
    ensures r.searchResults == s.searchResults + [results]
    ensures Photos(r) == Photos(s) + results
    ensures r.hasMore <==> |results| == ResultsPerPage
    ensures r.query == s.query && r.page == s.page && r.cursor == s.cursor
    ensures Valid(s) ==> Valid(r)
  {
    var r := s.(searchResults := s.searchResults + [results], hasMore := |results| == ResultsPerPage);
    FlattenConcat(s.searchResults, [results]);
    FlattenSingle(results);
    r
  }

  /**
   * `handleSearchTermChanged`: the query is replaced, page, results and
   * cursor are reset, `hasMore` is kept; page 1 is emitted before the query.
   */
  function ChangeQuery(s: State, query: string): (t: Transition)
    ensures t.state.query == query && t.state.page == 1 && t.state.cursor == 0
    ensures t.state.searchResults == [[]] && Photos(t.state) == []
    ensures t.state.hasMore == s.hasMore
    ensures t.emitted == [PageEmitted(1), QueryEmitted(query)]
    ensures Valid(t.state)
  {
    FlattenSingle<BynderPhoto>([]);
    Transition(s.(query := query, page := 1, searchResults := [[]], cursor := 0),
               [PageEmitted(1), QueryEmitted(query)])
  }

  /** `handleSearchTermCleared`: a change to the empty query. */
  function ClearQuery(s: State): (t: Transition)
    ensures t.state.query == "" && t.state.page == 1 && t.state.cursor == 0
    ensures t.state.searchResults == [[]] && Photos(t.state) == []
    ensures t.state.hasMore == s.hasMore
    ensures t.emitted == [PageEmitted(1), QueryEmitted("")]
    ensures Valid(t.state)
    ensures t == ChangeQuery(s, "")
  {
    ChangeQuery(s, "")
  }

  /**
   * `scrollerLoadMore`: the page number goes up by one on every call, the
   * new page is emitted and the current query emitted again; nothing else changes.
   */
  function LoadMore(s: State): (t: Transition)
    ensures t.state.page == s.page + 1
    ensures t.state.query == s.query && t.state.searchResults == s.searchResults
    ensures t.state.cursor == s.cursor && t.state.hasMore == s.hasMore
    ensures t.emitted == [PageEmitted(s.page + 1), QueryEmitted(s.query)]
    ensures Valid(s) ==> Valid(t.state)
  {
    Transition(s.(page := s.page + 1), [PageEmitted(s.page + 1), QueryEmitted(s.query)])
  }

  predicate IsPreviousKey(keyCode: int) {
    keyCode == ArrowUp || keyCode == ArrowLeft
  }

  predicate IsNextKey(keyCode: int) {
    keyCode == ArrowDown || keyCode == ArrowRight
  }

  /**
   * `handleKeyDown`: up and left step the cursor back unless it is at 0 or
   * below, down and right step it forward unless it is at the last photo or
   * beyond; no other key and no other field changes.
   */
  function KeyDown(s: State, keyCode: int): (r: State)
    ensures r == s.(cursor := r.cursor)
    ensures !IsPreviousKey(keyCode) && !IsNextKey(keyCode) ==> r == s
    ensures IsPreviousKey(keyCode) ==> r.cursor <= s.cursor && (r.cursor != s.cursor <==> s.cursor > 0)
    ensures IsNextKey(keyCode) ==> r.cursor >= s.cursor && (r.cursor != s.cursor <==> s.cursor < |Photos(s)| - 1)
    ensures s.cursor - 1 <= r.cursor <= s.cursor + 1
    ensures 0 <= s.cursor < |Photos(s)| ==> 0 <= r.cursor < |Photos(s)|
    ensures Valid(s) ==> Valid(r)
  {
    if IsPreviousKey(keyCode) && s.cursor > 0 then s.(cursor := s.cursor - 1)
    else if IsNextKey(keyCode) && s.cursor < |Photos(s)| - 1 then s.(cursor := s.cursor + 1)
    else s
  }

  /** The state after a run of key presses. */
  function PressKeys(s: State, keyCodes: seq<int>): State
    decreases |keyCodes|
  {
    if |keyCodes| == 0 then s else PressKeys(KeyDown(s, keyCodes[0]), keyCodes[1..])
  }

  function Min(a: int, b: int): int {
    if a <= b then a else b
  }

  function Max(a: int, b: int): int {
    if a >= b then a else b
  }

  /** `n` presses of the down arrow move the cursor forward `n` places, stopping at the last photo. */
  lemma {:induction false} RepeatedNext(s: State, n: nat)
    requires 0 <= s.cursor < |Photos(s)|
    ensures PressKeys(s, seq(n, _ => ArrowDown)).cursor == Min(s.cursor + n, |Photos(s)| - 1)
    ensures PressKeys(s, seq(n, _ => ArrowDown)).searchResults == s.searchResults
    decreases n
  {
    if n > 0 {
      var keys := seq(n, _ => ArrowDown);
      assert keys[1..] == seq(n - 1, _ => ArrowDown);
      RepeatedNext(KeyDown(s, ArrowDown), n - 1);
    }
  }

  /** `n` presses of the up arrow move the cursor back `n` places, stopping at 0. */
  lemma {:induction false} RepeatedPrevious(s: State, n: nat)
    requires 0 <= s.cursor < |Photos(s)|
    ensures PressKeys(s, seq(n, _ => ArrowUp)).cursor == Max(s.cursor - n, 0)
    ensures PressKeys(s, seq(n, _ => ArrowUp)).searchResults == s.searchResults
    decreases n
  {
    if n > 0 {
      var keys := seq(n, _ => ArrowUp);
      assert keys[1..] == seq(n - 1, _ => ArrowUp);
      RepeatedPrevious(KeyDown(s, ArrowUp), n - 1);
    }
  }

  /** `findIndex` by id: the first position holding a photo with `id`, or -1. */
  function FindIndex(photos: seq<BynderPhoto>, id: string): (i: int)
    ensures -1 <= i < |photos|
    ensures i == -1 <==> forall k :: 0 <= k < |photos| ==> photos[k].id != id
    ensures 0 <= i ==> photos[i].id == id && forall k :: 0 <= k < i ==> photos[k].id != id
  {
    if |photos| == 0 then -1
    else if photos[0].id == id then 0
    else
      var j := FindIndex(photos[1..], id);
      if j < 0 then -1 else j + 1
  }

  /**
   * `handleUpdateCursor`: the cursor moves to the first photo with the
   * focused photo's id, or to -1 when there is none.
   */
  function UpdateCursor(s: State, photo: BynderPhoto): (r: State)
    ensures r == s.(cursor := r.cursor)
    ensures r.cursor == -1 <==> forall k :: 0 <= k < |Photos(s)| ==> Photos(s)[k].id != photo.id
    ensures 0 <= r.cursor ==> r.cursor < |Photos(s)| && Photos(s)[r.cursor].id == photo.id
    ensures 0 <= r.cursor ==> forall k :: 0 <= k < r.cursor ==> Photos(s)[k].id != photo.id
    ensures Valid(s) ==> Valid(r)
  {
    s.(cursor := FindIndex(Photos(s), photo.id))
  }

  /** The `active` flag of a rendered photo: the first index of its id is the cursor. */
  predicate IsActive(s: State, photo: BynderPhoto): (r: bool)
    ensures 0 <= s.cursor ==>
      (r <==> (s.cursor < |Photos(s)| && Photos(s)[s.cursor].id == photo.id
               && forall k :: 0 <= k < s.cursor ==> Photos(s)[k].id != photo.id))
    ensures s.cursor < 0 ==> (r <==> s.cursor == -1 && forall k :: 0 <= k < |Photos(s)| ==> Photos(s)[k].id != photo.id)
  {
    FindIndex(Photos(s), photo.id) == s.cursor
  }

  /** Focus reported by the active photo leaves the state as it is. */
  lemma ActiveFocusChangesNothing(s: State, photo: BynderPhoto)
    requires IsActive(s, photo)
    ensures UpdateCursor(s, photo) == s
  {
  }

  /** Pointer focus on a photo makes that photo active. */
  lemma FocusedPhotoIsActive(s: State, photo: BynderPhoto)
    ensures IsActive(UpdateCursor(s, photo), photo)
  {
  }

  ghost predicate UniqueIds(photos: seq<BynderPhoto>) {
    forall i, j :: 0 <= i < j < |photos| ==> photos[i].id != photos[j].id
  }

  /** With distinct ids, the photo at position `i` is active exactly when the cursor is `i`. */
  lemma ActiveIffAtCursor(s: State, i: int)
    requires UniqueIds(Photos(s))
    requires 0 <= i < |Photos(s)|
    ensures IsActive(s, Photos(s)[i]) <==> i == s.cursor
  {
    var photos := Photos(s);
    var j := FindIndex(photos, photos[i].id);
    assert j == i;
  }

  /** Two photos active at once share their id when the cursor is on a photo. */
  lemma ActivePhotosShareId(s: State, p: BynderPhoto, q: BynderPhoto)
    requires 0 <= s.cursor
    requires IsActive(s, p) && IsActive(s, q)
    ensures p.id == q.id
  {
  }

  /* ------------------------------------------------------------- Select */

  /**
   * `handleSelect`: the single asset handed to `onSelect`. Its value is the
   * download URL, its source the library record, its credit line names the
   * uploader, and title and description appear only when non-empty.
   */
  function Select(config: BynderConfig, photo: BynderPhoto): (assets: seq<Asset>)
    ensures |assets| == 1
    ensures assets[0].kind == UrlKind
    ensures assets[0].value == StringValue(photo.transformBaseUrl)
    ensures assets[0].assetDocumentProps.Some?
    ensures var props := assets[0].assetDocumentProps.value;
      && props.documentType == Some("sanity.imageAsset")
      && props.source == Some(AssetOrigin(id := photo.id, name := "bynder", url := Some(photo.transformBaseUrl)))
      && props.creditLine == Some(photo.userCreated + " by Bynder")
      && (props.title.Some? <==> photo.name != "")
      && (props.title.Some? ==> props.title.value == photo.name)
      && (props.description.Some? <==> photo.description != "")
      && (props.description.Some? ==> props.description.value == photo.description)
      && props.originalFileName.None? && props.labelText.None?
  {
    var downloadUrl := FetchDownloadUrl(config, photo);
    var props := AssetDocumentProps(
      documentType := Some("sanity.imageAsset"),
      originalFileName := None,
      labelText := None,
      title := if photo.name != "" then Some(photo.name) else None,
      description := if photo.description != "" then Some(photo.description) else None,
      source := Some(AssetOrigin(id := photo.id, name := "bynder", url := Some(photo.transformBaseUrl))),
      creditLine := Some(photo.userCreated + " by Bynder"));
    [Asset(UrlKind, StringValue(downloadUrl), Some(props))]
  }

  /** The fields of a photo the selected asset is built from. */
  predicate SameSelectionFields(p: BynderPhoto, q: BynderPhoto) {
    && p.transformBaseUrl == q.transformBaseUrl
    && p.id == q.id
    && p.name == q.name
    && p.description == q.description
    && p.userCreated == q.userCreated
  }

  /**
   * Two selections give the same asset exactly when the photos agree on
   * those fields, whatever the configurations: the asset loses nothing of them.
   */
  lemma SelectDeterminedByFields(c1: BynderConfig, p: BynderPhoto, c2: BynderConfig, q: BynderPhoto)
    ensures Select(c1, p) == Select(c2, q) <==> SameSelectionFields(p, q)
  {
    if Select(c1, p) == Select(c2, q) {
      var suffix := " by Bynder";
      var a := p.userCreated + suffix;
      var b := q.userCreated + suffix;
      assert a == b;
      assert a[..|p.userCreated|] == p.userCreated;
      assert b[..|q.userCreated|] == q.userCreated;
    }
  }

  /* ---------------------------------------------------------- Rendering */

  /** The pages that are rendered: the non-empty ones, in their original order. */
  function VisiblePages(pages: seq<seq<BynderPhoto>>): (r: seq<seq<BynderPhoto>>)
    ensures |r| <= |pages|
    ensures forall k :: 0 <= k < |r| ==> |r[k]| > 0
    ensures forall k :: 0 <= k < |pages| && |pages[k]| > 0 ==> pages[k] in r
    ensures Flatten(r) == Flatten(pages)
  {
    NonEmptyPagesProperties(pages);
    NonEmptyPages(pages)
  }

  /** `filter((photos) => photos.length > 0)`. */
  function NonEmptyPages(pages: seq<seq<BynderPhoto>>): seq<seq<BynderPhoto>> {
    if |pages| == 0 then []
    else (if |pages[0]| > 0 then [pages[0]] else []) + NonEmptyPages(pages[1..])
  }

  lemma {:induction false} NonEmptyPagesProperties(pages: seq<seq<BynderPhoto>>)
    ensures var r := NonEmptyPages(pages);
      && |r| <= |pages|
      && (forall k :: 0 <= k < |r| ==> |r[k]| > 0)
      && (forall k :: 0 <= k < |pages| && |pages[k]| > 0 ==> pages[k] in r)
      && Flatten(r) == Flatten(pages)
  {
    if |pages| > 0 {
      var rest := NonEmptyPages(pages[1..]);
      var head := if |pages[0]| > 0 then [pages[0]] else [];
      NonEmptyPagesProperties(pages[1..]);
      FlattenConcat(head, rest);
      FlattenSingle(pages[0]);
      assert forall k :: 1 <= k < |pages| ==> pages[k] == pages[1..][k - 1];
      assert Flatten(pages) == pages[0] + Flatten(pages[1..]);
    }
  }

  /** Filtering a concatenation filters each part: the rendered albums are the non-empty pages, one per page. */
  lemma {:induction false} VisiblePagesAppend(a: seq<seq<BynderPhoto>>, b: seq<seq<BynderPhoto>>)
    ensures VisiblePages(a + b) == VisiblePages(a) + VisiblePages(b)
  {
    NonEmptyPagesAppend(a, b);
  }

  lemma {:induction false} NonEmptyPagesAppend(a: seq<seq<BynderPhoto>>, b: seq<seq<BynderPhoto>>)
    ensures NonEmptyPages(a + b) == NonEmptyPages(a) + NonEmptyPages(b)
  {
    if |a| == 0 {
      assert a + b == b;
    } else {
      assert (a + b)[0] == a[0] && (a + b)[1..] == a[1..] + b;
      NonEmptyPagesAppend(a[1..], b);
    }
  }

  /** One page is rendered as one album exactly when it is non-empty. */
  lemma VisiblePagesSingle(page: seq<BynderPhoto>)
    ensures VisiblePages([page]) == (if |page| > 0 then [page] else [])
  {
    assert [page][1..] == [];
    assert NonEmptyPages([page]) == (if |page| > 0 then [page] else []) + NonEmptyPages([]);
  }

  /** `targetRowHeight(width)`: 150 below 300, 200 below 600, 300 from there on. */
  function TargetRowHeight(width: real): (h: int)
    ensures h == 150 || h == 200 || h == 300
    ensures h == 150 <==> width < 300.0
    ensures h == 300 <==> width >= 600.0
  {
    if width < 300.0 then 150
    else if width < 600.0 then 200
    else 300
  }

  /** Wider containers never get lower rows. */
  lemma RowHeightMonotone(w1: real, w2: real)
    requires w1 <= w2
    ensures TargetRowHeight(w1) <= TargetRowHeight(w2)
  {
  }
}
