# Bynder asset source for Sanity — a Dafny model

This project models the logic of `sanity-plugin-asset-source-bynder`, a
Sanity Studio plugin. The plugin lets an editor pick an image from a Bynder
asset library. The model covers five parts:

- **Plugin construction** (`Plugin`, from `src/index.ts`). The user's
  partial configuration is merged over the defaults. The portal domain gets
  a scheme and a trailing slash, then it is checked against
  `^https?://[^/]+/$`. Finally the API token must be non-empty. Each failure
  is a `ConfigError` carrying the message `bynderImageAsset` throws.
- **The asset-library client** (`Bynder`, from `src/datastores/bynder.ts`).
  It covers:
  - the dispatch rule: a keyword search for a non-empty query, and a
    listing ordered by `dateCreated asc` otherwise;
  - the exact request URL and `Authorization: Bearer …` header;
  - the ok / not-ok decision on a response;
  - the download URL;
  - the untimed `withLatestFrom` pairing of query emissions with the latest
    page.
- **The picker dialog** (`Picker`, from
  `src/components/BynderAssetSource.tsx`). This is its state record
  `{query, searchResults, page, hasMore, cursor}`. Each handler is a pure
  function from state to state, together with what it pushes into the page
  and query subjects. Also modelled are the asset built on selection, the
  non-empty page filter and the target row height.
- **A photo tile** (`PhotoTile`, from `src/components/Photo.tsx`). This is
  which parent callbacks each user event on a tile triggers, the credit-line
  link, and the thumbnail lookup.
- **A whole session** (`Session`). This puts the dialog, the subjects, the
  dispatch and the tiles together, so that a sequence of user events and
  responses gives the requests sent, the `onSelect` calls and the source
  pages opened.

Three helper modules support them:

- `Text`: prefixes, ASCII case folding, decimal rendering, and split/join,
  where splitting undoes joining.
- `Uri`: `encodeURIComponent` as ECMAScript defines it, with UTF-8
  percent-escapes and its unreserved set.
- `Wrappers`: `Option` and `Result`.

## Behaviour worth knowing

- The default empty portal domain normalises to `https://`. That text
  already ends with `/`, so no second slash is added. It is still rejected,
  because the host is empty (`Plugin.DefaultDomainRejected`).
- The domain check is the regular expression as written. `[^/]+` accepts
  `?`, so a domain with a query part passes (`Plugin.QueryAccepted`). The
  scheme test before normalisation ignores ASCII case, while the check
  after it does not. So `HTTPS://host` is left as it is and then rejected
  (`Plugin.UpperCaseSchemeRejected`).
- Responses carry no tag of the term or page they answer, and the results
  handler appends every page it receives. `switchMap` drops a response
  once a newer (term, page) pair has been dispatched. But a query change
  empties the results at once, while the new pair is only dispatched after
  the 800 ms debounce. A response to the old term that arrives in that
  window is appended to the new term's results. The model has no timing,
  so `Session.OnResponse` appends any ok response on an open subscription.
- A query change leaves `hasMore` as it was (`Picker.ChangeQuery`).
- Every load-more call moves to the next page and requests it, even when
  the previous page has not arrived yet (`Picker.LoadMore`,
  `Session.LoadMoreRun`).
- A failed fetch ends the search subscription for good. The error passes
  out of `switchMap`, and the results subscriber has no error handler. So
  after the first failed response no further request is sent
  (`Session.ErrorEndsRequests`), and the failed page never reaches the
  results (`Session.Step`).
- The cursor starts at 0. Pointer focus on a photo that is not in the
  results sets it to -1.

## Model

| member | source | states |
|---|---|---|
| Plugin.Merge | src/index.ts:30-37 | every field the user supplies overrides the default, and every absent field takes the default value |
| Plugin.MergeCompleteOrEmpty | src/index.ts:30-37 | a configuration with every field supplied merges to itself, and one with no field supplied merges to the defaults |
| Plugin.MergeFieldwise | src/index.ts:30-37 | two user configurations merge to the same configuration exactly when they agree on every field once the defaults are filled in |
| Plugin.HasHttpScheme | src/index.ts:41 | the scheme test holds exactly when the text starts with `http`, in any ASCII case, then an optional `s` in any case, then `://`; lower-case `http://` and `https://` always pass |
| Plugin.NormalizeDomain | src/index.ts:39-47 | the normalised domain ends with `/`, carries an http(s) scheme, and is the shortest text that starts with the (possibly `https://`-prefixed) input and ends with `/` |
| Plugin.NormalizeKeepsOrAddsScheme | src/index.ts:40-46 | an input without an ASCII-case-insensitive http(s) prefix gets exactly `https://` in front; an input with one keeps its text; an input ending in `/` gets no second slash |
| Plugin.NormalizeIdempotent | src/index.ts:40-47 | normalising a normalised domain returns it unchanged |
| Plugin.NormalizeUnschemed | src/index.ts:40-46 | for an input without a scheme: empty gives `https://`, a trailing `/` gives `https://` + input, otherwise `https://` + input + `/` |
| Plugin.NoSchemeByFirstChar | src/index.ts:41 | a domain whose first character is not `h`/`H` has no http(s) scheme |
| Plugin.MatchesDomainPattern | src/index.ts:50 | the regular-expression check holds exactly when the text is lowercase `http://` or `https://`, a non-empty host without `/`, and one final `/` |
| Plugin.Configure | src/index.ts:29-68 | success exactly when the normalised domain has the accepted shape and the token is non-empty; the domain error when the shape is wrong; the token error when only the token is empty; on success the plugin is named `asset-source-bynder-plugin` and holds the merged configuration with the normalised domain |
| Plugin.AssetSources | src/index.ts:63-65 | the previous sources are kept as a prefix, and exactly one source is appended; as `bynderAssetSource` (lines 19-24) builds it, it is named after `config.name`, has `config.menuTitle` as its i18n key, and closes over the validated configuration |
| Plugin.ConfiguredPluginIsValid | src/index.ts:50-57 | a constructed plugin's domain has the accepted shape, ends with `/`, and its token is non-empty |
| Plugin.DomainCheckedBeforeToken | src/index.ts:50-57 | with both a bad domain and an empty token, the domain error is the one raised |
| Plugin.DefaultDomainRejected | src/index.ts:33-52 | without a user domain, the domain normalises to `https://` and construction fails with the domain error |
| Plugin.UnschemedDomainAccepted | src/index.ts:40-52 | a domain given without a scheme is accepted exactly when it is a host without `/`, optionally followed by one `/` |
| Plugin.PathRejected | src/index.ts:49-52 | a scheme-less domain with a `/` before its last character (a path) is rejected |
| Plugin.ExamplePathRejected | src/index.ts:49-52 | `example.com/path` is rejected |
| Plugin.UpperCaseSchemeRejected | src/index.ts:41-52 | `HTTPS://host` keeps its upper-case scheme when normalised and is then rejected |
| Plugin.QueryAccepted | src/index.ts:49-52 | a host containing `?` is accepted, despite the stated intent of rejecting query parts |
| Text.UpperAscii | src/index.ts:41 | ASCII lower-case letters map to upper case and everything else to itself; this agrees with the `/i` flag's folding whenever one side is an ASCII letter, which is every comparison the scheme test makes (the flag also folds non-ASCII letters onto each other, which is not modelled) |
| Text.DecimalString | src/datastores/bynder.ts:31 | the rendering of a page or limit number is a non-empty digit string without a leading zero |
| Text.ParseDecimalString | src/datastores/bynder.ts:31 | reading back a rendered number gives the number |
| Text.DecimalStringInjective | src/datastores/bynder.ts:31 | distinct numbers render differently |
| Uri.EncodeUriComponent | src/datastores/bynder.ts:31 | every character of the encoding is unreserved, `%` or an upper-case hex digit, and the encoding is no shorter than its input |
| Uri.EncodeUnreservedIsIdentity | src/components/Photo.tsx:32-34 | a text of unreserved characters encodes to itself |
| Uri.EncodedHasNoDelimiters | src/datastores/bynder.ts:31 | an encoded keyword contains no `&`, `=`, `?`, `#`, `/` or space, so it cannot break the query string |
| Uri.EncodeChangesReserved | src/datastores/bynder.ts:31 | a text with any reserved character encodes to a longer, different text |
| Bynder.SearchUrlParameters | src/datastores/bynder.ts:31 | the search URL is the endpoint followed by exactly the parameters `keyword=<encoded query>`, `page=<p>`, `limit=<n>`, `type=image`, joined by `&` |
| Bynder.ListUrlParameters | src/datastores/bynder.ts:49 | the listing URL is the endpoint followed by exactly `orderBy=<order>`, `page=<p>`, `limit=<n>`, joined by `&` |
| Bynder.AuthHeaders | src/datastores/bynder.ts:33-35 | the only header is `Authorization`, with value `Bearer ` followed by the token |
| Bynder.AuthHeadersDetermineToken | src/datastores/bynder.ts:33-35 | two configurations send the same headers exactly when their tokens are equal |
| Bynder.FetchSearch | src/datastores/bynder.ts:21-38 | the URL is the endpoint followed by the keyword, page, limit and `type=image` parameters joined with `&`, and the request carries the bearer header |
| Bynder.FetchList | src/datastores/bynder.ts:40-56 | the URL is the endpoint followed by the unencoded order, page and limit parameters joined with `&`, and the request carries the bearer header |
| Bynder.Search | src/datastores/bynder.ts:73-78 | every request carries the bearer header, and its URL is `<domain>api/v4/media?` followed by the `&`-joined parameters; a non-empty query yields the search parameters and an empty one yields the listing parameters in creation order |
| Bynder.SearchAndListDiffer | src/datastores/bynder.ts:31-49 | only the keyword search filters on `type=image`, so a search request never equals a listing request |
| Bynder.PageIsInUrl | src/datastores/bynder.ts:31 | requests for different pages differ |
| Bynder.FetchOutcome | src/datastores/bynder.ts:10-19 | a page of photos exactly for an ok response, and then the body itself; a not-ok response gives the `Network response was not ok` error |
| Bynder.Sample | src/datastores/bynder.ts:70-71 | one pair per query emission once a page is known, and never more pairs than query emissions |
| Bynder.LatestPage | src/components/BynderAssetSource.tsx:46 | a trace ending in a page emission leaves that page latest, and a trace with no page emission leaves the starting value |
| Bynder.LatestPageIsLastEmitted | src/components/BynderAssetSource.tsx:46 | the page subject holds the last page pushed into it, or its starting value when none was pushed |
| Bynder.SampleAppend | src/datastores/bynder.ts:70-71 | sampling a concatenated trace samples the second part against the page the first part left |
| Bynder.PagesAloneSampleNothing | src/datastores/bynder.ts:70-71 | page emissions alone trigger no request |
| Bynder.SampleMatchesReference | src/datastores/bynder.ts:70-71 | the pairing agrees with a reference reading that pairs each query emission with the page emitted last before it |
| Bynder.SamplePageThenQuery | src/components/BynderAssetSource.tsx:99-100 | emitting a page and then a query dispatches exactly that query for that page, and leaves that page as the latest |
| Picker.InitialIsValid | src/components/BynderAssetSource.tsx:35-41 | the initial state satisfies the state invariant and shows no photos |
| Picker.FlattenConcat | src/components/BynderAssetSource.tsx:134-136 | flattening concatenated page lists concatenates their photos |
| Picker.ResultsArrived | src/components/BynderAssetSource.tsx:55-59 | the page is appended after all earlier pages, the earlier photos stay an unchanged prefix, `hasMore` holds exactly for a full page of 42, and the invariant is kept |
| Picker.ChangeQuery | src/components/BynderAssetSource.tsx:96-101 | the new query, page 1, one empty page and cursor 0, `hasMore` unchanged, and page 1 emitted before the query |
| Picker.ClearQuery | src/components/BynderAssetSource.tsx:103-107 | the empty query, page 1, one empty page of results and cursor 0, with the invariant kept and page 1 emitted before `''`; it is the same transition as changing the query to `''` |
| Picker.LoadMore | src/components/BynderAssetSource.tsx:109-115 | the page grows by exactly one on every call, results, cursor and query unchanged, and the new page is emitted before the current query |
| Picker.KeyDown | src/components/BynderAssetSource.tsx:118-132 | only the cursor changes, by at most one; left and up move it back only above 0, right and down forward only below the last photo, other keys change nothing; a cursor on a photo stays on a photo |
| Picker.RepeatedNext | src/components/BynderAssetSource.tsx:124-131 | n presses of the down arrow move the cursor n forward, stopping at the last photo |
| Picker.RepeatedPrevious | src/components/BynderAssetSource.tsx:120-123 | n presses of the up arrow move the cursor n back, stopping at 0 |
| Picker.Photos | src/components/BynderAssetSource.tsx:134-136 | the photos are those of all earlier pages followed by those of the latest page |
| Picker.FindIndex | src/components/BynderAssetSource.tsx:139 | the first index whose photo has the id, or -1 exactly when none has it |
| Picker.UpdateCursor | src/components/BynderAssetSource.tsx:138-141 | pointer focus sets only the cursor, to the first index with the photo's id or -1 |
| Picker.IsActive | src/components/BynderAssetSource.tsx:146-148 | with a cursor of 0 or more, a photo is active exactly when the cursor is the first index holding its id; with a negative cursor, exactly when the cursor is -1 and no photo has its id |
| Picker.ActiveFocusChangesNothing | src/components/BynderAssetSource.tsx:138-148 | an active tile reporting focus leaves the state unchanged |
| Picker.FocusedPhotoIsActive | src/components/BynderAssetSource.tsx:138-148 | after focus is reported for a photo, that photo is active |
| Picker.ActiveIffAtCursor | src/components/BynderAssetSource.tsx:146-148 | with unique ids, a rendered photo is active exactly when it sits at the cursor |
| Picker.ActivePhotosShareId | src/components/BynderAssetSource.tsx:146-148 | two active photos have the same id |
| Picker.Select | src/components/BynderAssetSource.tsx:70-90 | one asset of kind url whose value is the transform URL, source `{bynder, id, transform URL}`, credit line `<uploader> by Bynder`, and title and description present exactly when non-empty |
| Picker.SelectDeterminedByFields | src/components/BynderAssetSource.tsx:70-90 | two selections give the same asset exactly when the photos agree on URL, id, name, description and uploader |
| Picker.VisiblePages | src/components/BynderAssetSource.tsx:204-207 | only non-empty pages are kept, each one of them is kept, and their photos come in the original order |
| Picker.VisiblePagesAppend | src/components/BynderAssetSource.tsx:204-207 | filtering a concatenation of page lists filters each part, so pages keep their order and grouping |
| Picker.VisiblePagesSingle | src/components/BynderAssetSource.tsx:204-207 | a single page is rendered as one album exactly when it is non-empty |
| Picker.TargetRowHeight | src/components/BynderAssetSource.tsx:216-220 | 150 exactly below width 300, 300 exactly from width 600 on, 200 in between |
| Picker.RowHeightMonotone | src/components/BynderAssetSource.tsx:216-220 | a wider container never gets lower rows |
| PhotoTile.UtmSourceUnchanged | src/components/Photo.tsx:19 | the tracking constant holds only letters and hyphens, so it encodes to itself |
| PhotoTile.CreditLineUrl | src/components/Photo.tsx:32-34 | the link is the transform URL followed by `?utm_source=sanity-plugin-asset-source-bynder&utm_medium=referral` |
| PhotoTile.Handle | src/components/Photo.tsx:23-59 | a key press is forwarded exactly once, first, and no other event forwards a key; Enter makes two calls, an inactive tile's effect none, every other event one; the tile selects exactly on a click or Enter (13); it reports focus exactly on mouse-down or when active; every call concerns the tile's own photo; a credit-line click only opens the source page |
| PhotoTile.ThumbnailSrc | src/components/Photo.tsx:61 | the image is the thumbnail under the configured name, and absent exactly when that key is missing |
| Plugin.TileThumbnail | src/components/BynderAssetSource.tsx:152 | a tile of a constructed plugin shows the thumbnail under the user's transformer name, or under `transformBaseUrl` when none was given, and no image when the photo lacks that entry |
| Session.Mount | src/components/BynderAssetSource.tsx:35-62 | mounting starts from the initial state with the invariant and an open subscription, and dispatches the empty query for page 1 |
| Session.MountRequest | src/datastores/bynder.ts:69-78 | the first request of a session is the listing of page 1 in creation order |
| Session.ApplyCallback | src/components/BynderAssetSource.tsx:150-158 | a tile callback changes at most the cursor, keeps the invariant and sends no request |
| Session.ApplyCallbacks | src/components/BynderAssetSource.tsx:150-158 | a tile's calls, in order, change at most the cursor, keep the invariant and send no request |
| Session.OnSearchTerm | src/components/BynderAssetSource.tsx:96-101 | a new or cleared term sets the term, one empty page of results, page 1 and cursor 0, keeps `hasMore` and everything else, and requests page 1 of that term exactly when the subscription is open |
| Session.OnLoadMore | src/components/BynderAssetSource.tsx:109-115 | load-more changes only the page, which goes up by one, so the results, their grouping into pages, `hasMore`, the term and the cursor are kept; it requests it exactly when the subscription is open |
| Session.OnSearchCleared | src/components/BynderAssetSource.tsx:103-107 | clearing the term has exactly the effect of changing it to the empty term |
| Session.OnResponse | src/components/BynderAssetSource.tsx:55-61 | an ok response on an open subscription is passed to the results handler, whatever term it answers; any other response closes the subscription and leaves the dialog state as it was; a closed subscription leaves the session unchanged |
| Session.Step | src/components/BynderAssetSource.tsx:48-115 | every event keeps the session invariant; the subscription closes exactly on a failed response, which leaves the dialog state as it was; an event sends a request exactly when it is a term change, clear or load-more on an open subscription, and that request is for the new term and page |
| Session.Run | src/components/BynderAssetSource.tsx:48-115 | a run of events keeps the invariant, and a closed session sends nothing and stays closed |
| Session.LoadMoreRun | src/components/BynderAssetSource.tsx:109-115 | k load-mores on an open session request the k following pages of the current term, in order |
| Session.SearchThenScroll | src/components/BynderAssetSource.tsx:96-115 | a new term followed by k load-mores requests pages 1 to k + 1 of that term, in order |
| Session.ErrorEndsRequests | src/datastores/bynder.ts:69-80 | after a failed response no later event sends a request |
| Session.ApplyCallbacksShort | src/components/BynderAssetSource.tsx:150-158 | one or two tile calls have the effect of the first followed by the second |
| Session.TileCursor | src/components/Photo.tsx:40-59 | a key press on a tile moves the cursor as the dialog's key handler does; mouse-down and an active tile move it onto the tile's photo; a click, a credit-line click and an inactive tile change nothing; nothing else of the session changes |
| Session.TileOutput | src/components/Photo.tsx:23-53 | a tile event selects its photo exactly on a click or Enter, and opens its source page exactly on a credit-line click |

## Left out

- Timing and lifecycle of the request stream are not modelled:
  `debounceTime(800)`, the `switchMap` supersession of a fetch in flight,
  `concat`, and unsubscribing on unmount. Every sampled (query, page) pair
  is dispatched, and a response may arrive between any two events.
- `fetch`, `response.json()` and the HTTP transport are not modelled. A
  response is an abstract ok flag with an already decoded list of photos,
  or a transport failure. The transport failure's message stands in for
  whatever the browser reports.
- `window.open`, and the target and features it is given, are not
  modelled. The credit-line click is the `OpenSourcePage` callback, and the
  URL it opens is `PhotoTile.CreditLineUrl`.
- React and Sanity UI rendering are not modelled: the dialog, the search
  input, the infinite scroller and when it calls `next`, the photo album
  layout, `key` strings, tile titles and styles, and `definePlugin`
  registration. The page filter and the row height are modelled.
  `src/components/Photo.styled.tsx` is CSS only and is not part of this
  model.
- The `AssetDocument` type of `src/types.ts` is not part of this model. It
  is declared but no modelled code builds or reads one. The `FileRef`
  alternative of an asset value is declared but never produced.
- A configuration field explicitly set to `undefined` is modelled as
  absent. In JavaScript it would override the default with `undefined`.
- JavaScript numbers (page, limit, key codes, photo sizes) are modelled as
  unbounded integers, and widths as reals.
- `encodeURIComponent` is a library function and is modelled from its
  ECMAScript definition. A lone surrogate, on which it throws, cannot occur
  in a Dafny string.
- Bynder.FetchDownloadUrl: stated only through `Picker.Select`, whose asset
  value is the photo's transform URL whatever the configuration.
- Plugin.BynderAssetSource: the field mapping of an asset source is stated
  through `Plugin.AssetSources`. The React component it wraps is not
  modelled.
