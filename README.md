# CRIMSON-WEB front-end logic, modelled in Dafny

CRIMSON-WEB is a map-based web client. Users search for places, collect them
into place groups and share those groups. This project models the logic of
its front end that does not depend on the browser's rendering:

- **Page strip** (`Pagination`): the page-number strip under a result list.
  Pages are grouped in blocks of ten. The block holding the current page is
  shown, and the first and last pages stay reachable behind `...`.
- **Request helpers** (`ApiClient`):
  - response and error formatting;
  - the loading-flag wrapper and the error-catching wrapper;
  - bounded retry with a growing pause;
  - a time-limited cache that keeps only successful results.
- **Token storage** (`TokenManager`):
  - cookie-backed storage, read back from the `document.cookie` string by
    the `; name=` convention of the `Cookie` header (section 5.4 of RFC 6265);
  - local-storage-backed storage;
  - the expiry test on a JWT's `exp` claim (section 4.1.4 of RFC 7519);
  - the choice between the two storages.
- **Shared HTTP client** (`ApiIndex`):
  - a request interceptor that attaches the stored token as a bearer
    credential (section 2.1 of RFC 6750);
  - a response interceptor that ends the session on a 401 and passes every
    error on;
  - wrappers that turn every outcome into a result record.
- **Create request** (`PlaceGroupsApi`): the create form's choices become the
  service's request record.
- **Data hooks** (`UsePlaces`, `UsePlaceGroups`, with the shared `Records`):
  list state that is replaced, prepended, merged by id, filtered by id or
  refetched. The hooks also keep error and loading bookkeeping.
- **Components**, as state machines over their React state:
  - the two group-creation forms (`FormData`, `CreateListForm`,
    `CreatePlaceGroupForm`);
  - the single-open row dropdown (`PlaceGroupSection`);
  - the sidebar's panel choice, search and paging (`Sidebar`);
  - the group page's place search with its map links (`GroupSearch`);
  - the group detail view with its category tabs (`GroupPlacesView`).

Some modules model the JavaScript built-ins the code relies on:

- `Js`: dynamic values, truthiness, `||`, property access, object spread and
  `Math.ceil` of a quotient.
- `Lists`: `filter` and conditional `map`.
- `Text`: `trim`, `indexOf`, `split` and `join`.
- `StringOrder`: the default string `sort`.
- `UriComponent`: `encodeURIComponent`.

The outside world never enters the model directly:

- Awaited requests are passed in as their outcome, either a returned value or
  a thrown error. Some are passed as functions from the request to that
  outcome.
- The clock is a number passed in.
- Local storage and the cookie jar are fields of classes.
- `JSON.parse(atob(...))` is a decoding function passed in.

Stateful code, such as React state, hooks and storage objects, is written as
classes whose methods change their fields. Computations are written as
functions. Each class method states its whole new state and is tied to
specification functions. Lemmas state the properties.

## Model

| member | source | states |
|---|---|---|
| Pagination.BlockCount | src/components/common/Pagination.tsx:17-20 | the number of blocks is the least n with 10·n ≥ totalPages, and 0 when totalPages ≤ 0 |
| Pagination.GetPageGroups | src/components/common/Pagination.tsx:17-28 | the loop builds exactly BlockCount blocks, and block i is [10i+1, min(10(i+1), totalPages)] |
| Pagination.BlocksPartition | src/components/common/Pagination.tsx:17-28 | the blocks partition 1..totalPages in order: the first starts at 1 and the last ends at totalPages; each holds 1 to 10 pages; each starts right after the previous one ends |
| Pagination.PageInOneBlock | src/components/common/Pagination.tsx:17-36 | page p lies in block (p−1)/10 and in no other block |
| Pagination.BlocksWithinRange | src/components/common/Pagination.tsx:21-24 | every page of every block lies in 1..totalPages |
| Pagination.FindGroup | src/components/common/Pagination.tsx:32-34 | `find` returns the first block holding the page, or reports that no block holds it |
| Pagination.GetCurrentGroup | src/components/common/Pagination.tsx:31-36 | with no blocks there is no current block; a page in range gets its own block; any other page falls back to block 0 |
| Pagination.Run | src/components/common/Pagination.tsx:60-62 | the window loop's pages: lo, lo+1, … up to hi−1 |
| Pagination.RunExtend | src/components/common/Pagination.tsx:60-62 | one more loop step appends the next page to the run |
| Pagination.BuildStrip | src/components/common/Pagination.tsx:51-72 | the step-by-step construction (lead, window loop, tail) equals the specification Layout |
| Pagination.GetPageNumbers | src/components/common/Pagination.tsx:39-73 | the method returns exactly PageNumbers(currentPage, totalPages); its window is the one WindowInside describes |
| Pagination.WindowInside | src/components/common/Pagination.tsx:43-49 | the window lies in 1..totalPages and spans at most 10 pages; it ends where the current block ends; it holds the current page whenever that page exists |
| Pagination.LayoutShape | src/components/common/Pagination.tsx:52-70 | where each strip entry sits: page 1 and `...` before the window, the window's pages in order, then `...` and the last page |
| Pagination.LayoutOrdered | src/components/common/Pagination.tsx:52-70 | the strip starts with page 1 and ends with the last page; it shows only existing pages, strictly increasing, with at most four entries beyond the window |
| Pagination.LayoutIncreasing | src/components/common/Pagination.tsx:52-70 | later page buttons carry strictly larger numbers |
| Pagination.LayoutGapsMarked | src/components/common/Pagination.tsx:52-70 | neighbouring buttons are consecutive pages, and every `...` stands between two buttons and hides at least one page |
| Pagination.LayoutNoSilentGap | src/components/common/Pagination.tsx:52-70 | two neighbouring page buttons are consecutive pages |
| Pagination.LayoutEllipses | src/components/common/Pagination.tsx:52-68 | `...` appears only where pages are skipped: before the window only past page 2, and after it only before totalPages−1 |
| Pagination.LayoutShowsWindow | src/components/common/Pagination.tsx:60-62 | every page of the window has its button |
| Pagination.LayoutWellFormed | src/components/common/Pagination.tsx:52-70 | all of the strip's promises together, for any window of at most ten pages inside 1..totalPages |
| Pagination.PageNumbersWellFormed | src/components/common/Pagination.tsx:39-75 | the strip is empty for totalPages ≤ 0; otherwise it runs from page 1 to the last page, increasing and gap-free except at `...`, has at most 14 entries and shows the current page |
| Pagination.NavButtonsAsWritten | src/components/common/Pagination.tsx:83-101 | as written: first is disabled iff currentPage = 1 and prev iff currentPage ≤ 1; next and last use the test for the first page |
| Pagination.NextButtonWrongAtBothEnds | src/components/common/Pagination.tsx:100-101 | on page 1 of 5 "next" is disabled though page 2 exists; on page 5 of 5 it is enabled though no page 6 exists; the corrected buttons differ on both |
| Pagination.NavButtonsIntended | src/components/common/Pagination.tsx:83-101 | corrected: next and last are disabled exactly when no later page exists; first and prev as written |
| Pagination.Render | src/components/common/Pagination.tsx:75-104 | nothing is rendered iff totalPages ≤ 1; otherwise the corrected buttons and the page strip |
| ApiClient.FormatApiResponse | src/utils/apiClient.ts:20-27 | a success record with exactly the keys success, data, status and message; data and status are copied; the message is the body's truthy message, else "Success"; a null or undefined response throws a TypeError |
| ApiClient.FormatApiError | src/utils/apiClient.ts:30-37 | a failure record with exactly the keys success, error, status and details; the fallback chains are the body's message, then the error's message, then "An error occurred"; status, then 500; body, then null; the text and status are always truthy |
| ApiClient.FormatApiErrorKeepsServerMessage | src/utils/apiClient.ts:30-37 | an HTTP failure whose body has a message is reported with exactly that status and message, with the body as its details |
| ApiClient.FormattedRecordsDiffer | src/utils/apiClient.ts:20-37 | a formatted response always reads as a success and a formatted error never does |
| ApiClient.LoadingState.constructor | src/utils/apiClient.ts:40-41 | the loading flag starts lowered, with nothing done yet |
| ApiClient.WithLoading | src/utils/apiClient.ts:40-51 | loading goes up, the call runs, and loading goes down whether the call returned or threw; the outcome passes through unchanged |
| ApiClient.WithErrorHandling | src/utils/apiClient.ts:76-87 | a returned result passes through; a thrown error becomes exactly FormatApiError of it, a failure record; the wrapper throws only when what was thrown is null or undefined |
| ApiClient.WithRetry | src/utils/apiClient.ts:90-114 | it makes at most max(maxRetries, 0) calls; every call before the last threw; it returns the first returned result; when all calls throw it rethrows the last error, or undefined when no call was made; the pauses are delay·(i+1) after each failed call except the last |
| ApiClient.Fresh | src/utils/apiClient.ts:125-133 | a cached value is served exactly when an entry exists and now − timestamp < ttl, and it is that entry's data |
| ApiClient.Store | src/utils/apiClient.ts:139-142 | a success is stored under its key with its data and the time of the call; the keys grow by that key on success and stay as they were on failure |
| ApiClient.StoredResultIsServed | src/utils/apiClient.ts:129-142 | after a successful call, the same arguments are answered from the cache with the same data until ttl has passed |
| ApiClient.FailureKeepsEntries | src/utils/apiClient.ts:140-142 | a result that is not a success changes no entry, so an older success for the same key stays |
| ApiClient.StoreTouchesOneKey | src/utils/apiClient.ts:140-142 | storing never removes a key and changes no other key's entry |
| ApiClient.Cache.constructor | src/utils/apiClient.ts:117-123 | a new wrapper has its prefix, its ttl and an empty map |
| ApiClient.Cache.Key | src/utils/apiClient.ts:125 | the key is the prefix, then `_`, then the serialised arguments |
| ApiClient.Cache.Call | src/utils/apiClient.ts:117-146 | a fresh hit answers `{success, data, fromCache}` without calling; otherwise the call is made; a throw passes through with the entries unchanged; a null result throws a TypeError; any other result is returned and stored only on success |
| ApiIndex.StoredToken | src/api/index.ts:18-19 | a token exists iff local storage holds a non-empty `token` |
| ApiIndex.BearerCredential | src/api/index.ts:20 | a credential iff the `Authorization` header starts with `Bearer `, and the header is that prefix followed by the credential |
| ApiIndex.Authorize | src/api/index.ts:16-27 | with a stored token the request's bearer credential is that token; without one the request is unchanged; nothing besides the Authorization header ever changes |
| ApiIndex.AuthorizeIdempotent | src/api/index.ts:16-27 | running the request interceptor twice gives what running it once gives |
| ApiIndex.Normalize | src/api/index.ts:52-102 | success iff the request resolved; on success the body is the data; on failure the server's truthy body is the error, otherwise the error's message, and data is undefined |
| ApiIndex.FailureHasReason | src/api/index.ts:52-102 | a failure record carries a truthy error whenever the error has a message |
| ApiIndex.Browser.constructor | src/api/index.ts:16-21 | the browser state holds the given storage and location |
| ApiIndex.Browser.InterceptRequest | src/api/index.ts:16-27 | the interceptor's step-by-step update equals Authorize on the current storage |
| ApiIndex.Browser.InterceptResponse | src/api/index.ts:31-33 | a successful response passes through unchanged |
| ApiIndex.Browser.InterceptError | src/api/index.ts:35-41 | every error is rejected again unchanged; a 401 removes `token` and moves to `/login`; any other error changes neither storage nor location |
| ApiIndex.Browser.Request | src/api/index.ts:52-102 | a wrapper call returns Normalize of the transport's outcome for the authorised request and never rejects; it tears the session down exactly on a 401 |
| ApiIndex.NoCredentialAfterTeardown | src/api/index.ts:18-21 | after a 401 has removed the token, requests go out unchanged |
| PlaceGroupsApi.StatusOf | src/api/placeGroups.ts:40-42 | PUBLIC iff isPublic, otherwise PRIVATE |
| PlaceGroupsApi.CategoryOf | src/api/placeGroups.ts:46-56 | '데이트' maps to DATE and '가족' to FAMILY; every other string maps to CATEGORY_UNKOWN; all three as if-and-only-if |
| PlaceGroupsApi.CreatePlaceGroupRequest | src/api/placeGroups.ts:32-66 | the icon is always '📍'; name, memo and link are copied; status and category come from the mappings above |
| PlaceGroupsApi.CategoryOfLabel | src/api/placeGroups.ts:46-52 | each named category's label maps back to it |
| PlaceGroupsApi.RequestDeterminesInputs | src/api/placeGroups.ts:32-66 | equal requests come from equal names, visibilities, memos and links, and from category choices with the same mapping |
| TokenManager.Pattern | src/utils/tokenManager.ts:50 | the split pattern is `; `, the name, then `=` |
| TokenManager.GetCookie | src/utils/tokenManager.ts:48-55 | a found value is never empty and never contains `;` |
| TokenManager.NoSeparatorInPieces | src/utils/tokenManager.ts:52 | no piece of a split on `;` contains `;` |
| TokenManager.GetCookieSoleOccurrence | src/utils/tokenManager.ts:48-55 | when `; name=` occurs exactly once, the result is the text after it up to the next `;`, or null when that text is empty |
| TokenManager.GetCookieAbsent | src/utils/tokenManager.ts:51-54 | with no occurrence of `; name=`, the result is null |
| TokenManager.GetCookieAmbiguous | src/utils/tokenManager.ts:51-54 | with two non-overlapping occurrences, the split has more than two pieces and the result is null |
| TokenManager.Lookup | src/utils/tokenManager.ts:48-55 | the jar's value for a name is absent exactly when no cookie has that name |
| TokenManager.GetCookieOfJar | src/utils/tokenManager.ts:48-55 | reading back a well-formed jar's serialisation finds each cookie's non-empty value, also beside cookies whose names end in the same text, and finds nothing for a name the jar lacks |
| TokenManager.GetCookieOfJarPresent | src/utils/tokenManager.ts:48-55 | the cookie at index k reads back as its value, or null when the value is empty |
| TokenManager.OnlyOwnSegmentMatches | src/utils/tokenManager.ts:49-51 | in a well-formed jar, `; name=` occurs only where the named cookie's segment starts |
| TokenManager.OccurrenceIsSegmentStart | src/utils/tokenManager.ts:49-51 | every occurrence of `; name=` starts the segment of a cookie called name |
| TokenManager.OwnValueSpan | src/utils/tokenManager.ts:49-52 | the cookie's value runs from just after its sole pattern to the next `;` or the end |
| TokenManager.StoredValue | src/utils/tokenManager.ts:60 | the stored value is the text before the first `;`, so it is the value itself when that has no `;` |
| TokenManager.Put | src/utils/tokenManager.ts:57-61 | writing a cookie adds at most one entry: a cookie of the same name is replaced |
| TokenManager.Remove | src/utils/tokenManager.ts:63-65 | deleting never adds an entry |
| TokenManager.LookupPut | src/utils/tokenManager.ts:57-61 | after a write, its name reads the new value and every other name reads as before |
| TokenManager.LookupRemove | src/utils/tokenManager.ts:63-65 | after a delete, its name reads nothing and every other name reads as before |
| TokenManager.PutWellFormed | src/utils/tokenManager.ts:57-61 | writing keeps names distinct and values free of `;` |
| TokenManager.RemoveWellFormed | src/utils/tokenManager.ts:63-65 | deleting keeps the jar well formed |
| TokenManager.RemoveUndoesPut | src/utils/tokenManager.ts:57-65 | deleting a cookie right after writing it leaves the jar as deleting alone would |
| TokenManager.RemoveCommutes | src/utils/tokenManager.ts:33-36 | the two deletes of clearTokens could run in either order |
| TokenManager.RemovePutOther | src/utils/tokenManager.ts:25-36 | a delete of one name and a write of another commute |
| TokenManager.ClearUndoesSet | src/utils/tokenManager.ts:25-36 | clearing right after setting both tokens leaves the jar as clearing alone would |
| TokenManager.CookieTokenStorage.constructor | src/utils/tokenManager.ts:16 | the storage starts over a well-formed jar |
| TokenManager.CookieTokenStorage.SetCookie | src/utils/tokenManager.ts:57-61 | the jar becomes Put of the cut value with the given lifetime, and stays well formed |
| TokenManager.CookieTokenStorage.DeleteCookie | src/utils/tokenManager.ts:63-65 | the jar becomes Remove of the name, and stays well formed |
| TokenManager.CookieTokenStorage.GetAccessToken | src/utils/tokenManager.ts:17-19 | over a well-formed jar, the value of the `accessToken` cookie, or null when it is absent or empty |
| TokenManager.CookieTokenStorage.GetRefreshToken | src/utils/tokenManager.ts:21-23 | over a well-formed jar, the value of the `refreshToken` cookie, or null when it is absent or empty |
| TokenManager.CookieTokenStorage.SetTokens | src/utils/tokenManager.ts:17-31 | the access token is written with a quarter-day lifetime and the refresh token with seven days; each getter then reads back its token, cut at `;` and null when empty; every other cookie reads as before |
| TokenManager.CookieTokenStorage.ClearTokens | src/utils/tokenManager.ts:17-36 | both getters then return null, and every other cookie reads as before |
| TokenManager.LocalStorageTokenStorage.constructor | src/utils/tokenManager.ts:69-71 | the storage starts over the given items |
| TokenManager.LocalStorageTokenStorage.GetAccessToken | src/utils/tokenManager.ts:73-75 | the stored `accessToken` item, or null when there is none |
| TokenManager.LocalStorageTokenStorage.GetRefreshToken | src/utils/tokenManager.ts:77-79 | the stored `refreshToken` item, or null when there is none |
| TokenManager.LocalStorageTokenStorage.SetTokens | src/utils/tokenManager.ts:73-84 | both keys are set, and both getters read back exactly the given tokens |
| TokenManager.LocalStorageTokenStorage.ClearTokens | src/utils/tokenManager.ts:73-89 | both keys are removed, both getters return null, and no other key is touched |
| TokenManager.IsTokenExpired | src/utils/tokenManager.ts:38-46 | a payload segment that cannot be decoded, or decodes to null, counts as expired; otherwise the token is expired iff `exp < floor(now/1000)` under JavaScript's `<` |
| TokenManager.LessThan | src/utils/tokenManager.ts:42 | `exp < currentTime` can hold only for a number, null or a boolean, and for a number only when it is smaller |
| TokenManager.ExpiryAtSecondBoundary | src/utils/tokenManager.ts:41-42 | a numeric exp is expired exactly from the start of second exp+1, so not during second exp itself |
| TokenManager.ExpiryIsMonotone | src/utils/tokenManager.ts:38-46 | once expired, a token stays expired as the clock advances |
| TokenManager.MissingExpNeverExpires | src/utils/tokenManager.ts:38-46 | a payload without exp is never expired, and an undecodable one always is |
| TokenManager.CreateTokenStorage | src/utils/tokenManager.ts:103-105 | cookie storage iff useCookies |
| TokenManager.DefaultTokenStorage | src/utils/tokenManager.ts:108-114 | cookie storage iff a document with a cookie string exists |
| Records.ListOf | src/hooks/usePlaces.ts:20 | the data when present, else the empty list |
| Records.RemoveById | src/hooks/usePlaces.ts:113 | every remaining record has another id and was in the list; every record with another id remains |
| Records.RemoveByIdKeepsOrder | src/hooks/usePlaces.ts:113 | the removal distributes over concatenation, so the survivors keep their order |
| Records.RemoveByIdIdempotent | src/hooks/usePlaceGroups.ts:89 | removing twice removes nothing more |
| Records.RemoveUndoesPrepend | src/hooks/usePlaces.ts:63-113 | deleting a just-created record whose id was new gives the previous list back |
| Records.UpdateById | src/hooks/usePlaces.ts:87-89 | the length is kept; records with another id are unchanged; records with the id become `{...record, ...changes}` |
| Records.UpdatedFields | src/hooks/usePlaces.ts:88 | an updated record takes every field of the changes and keeps its other fields, including its id unless the changes carry one |
| Records.WithFieldTwice | src/hooks/usePlaces.ts:137-165 | setting a field other than id twice leaves the second value, and the id is kept |
| Records.OverwriteTwice | src/hooks/usePlaces.ts:137-165 | a key written twice holds only the second value |
| Records.SetFieldTwice | src/hooks/usePlaces.ts:128-177 | adding and then removing a favourite is the same as removing it |
| Records.ErrorAfter | src/hooks/usePlaces.ts:13-28 | after a request the error is null on success; on failure it is the result's truthy error or the operation's default message; on an exception it is the exception's message; when the exception is null or undefined, reading its message throws and the error stays null |
| Records.FailureLeavesError | src/hooks/usePlaces.ts:21-23 | an unsuccessful result always leaves a truthy error |
| Records.Reply | src/hooks/usePlaces.ts:39-50 | the operation rejects with a TypeError iff the exception is null or undefined; otherwise success iff the request succeeded, with the data on success, and otherwise the result's error or the exception's message |
| Records.Ack | src/hooks/usePlaces.ts:111-124 | as Reply, including the rejection on a null or undefined exception, but never carries data |
| Records.Settled | src/hooks/usePlaces.ts:24-28 | a list query rejects with a TypeError exactly when the exception is null or undefined, and settles normally otherwise |
| Records.ReplyAgreesWithError | src/hooks/usePlaces.ts:42-47 | the error reported to the caller is the error the hook keeps, for an exception and for a failure with a truthy error; a rejection leaves the hook's error null |
| UsePlaces.PlacesState.constructor | src/hooks/usePlaces.ts:6-9 | an empty list, not loading, no error, and the initial parameters |
| UsePlaces.PlacesState.Query | src/hooks/usePlaces.ts:12-29 | the request gets the stored parameters overridden by the call's; on success the list is replaced by the data or emptied; on failure the list is kept; the error is ErrorAfter; the query rejects as Settled says; loading ends false |
| UsePlaces.PlacesState.SearchPlaces | src/hooks/usePlaces.ts:12-29 | as Query, with the search's default message |
| UsePlaces.PlacesState.GetPlacesByCategory | src/hooks/usePlaces.ts:180-197 | as Query, with the category default message |
| UsePlaces.PlacesState.GetPopularPlaces | src/hooks/usePlaces.ts:200-217 | as Query, with the popular default message |
| UsePlaces.PlacesState.GetPlace | src/hooks/usePlaces.ts:32-51 | the list is untouched; the reply and the error follow the outcome |
| UsePlaces.PlacesState.CreatePlace | src/hooks/usePlaces.ts:54-75 | on success the new place is put in front of an otherwise unchanged list; on failure the list is kept |
| UsePlaces.PlacesState.UpdatePlace | src/hooks/usePlaces.ts:78-101 | on success every place with the id is merged with the returned data (UpdateById); on failure the list is kept |
| UsePlaces.PlacesState.DeletePlace | src/hooks/usePlaces.ts:104-125 | on success every place with the id leaves the list (RemoveById); on failure the list is kept |
| UsePlaces.PlacesState.SetFavorite | src/hooks/usePlaces.ts:128-177 | on success isFavorite is set on the places with the id only |
| UsePlaces.PlacesState.AddToFavorites | src/hooks/usePlaces.ts:128-151 | on success isFavorite becomes true on the places with the id |
| UsePlaces.PlacesState.RemoveFromFavorites | src/hooks/usePlaces.ts:154-177 | on success isFavorite becomes false on the places with the id |
| UsePlaces.PlacesState.SetParams | src/hooks/usePlaces.ts:9 | only the stored parameters change |
| UsePlaceGroups.PlaceGroupsState.constructor | src/hooks/usePlaceGroups.ts:6-9 | an empty list, not loading, no error, and the initial parameters |
| UsePlaceGroups.PlaceGroupsState.FetchPlaceGroups | src/hooks/usePlaceGroups.ts:12-29 | the stored parameters are overridden by the call's; on success the list is replaced by the data or emptied; on failure the list is kept; the error is ErrorAfter; the fetch rejects as Settled says; loading ends false |
| UsePlaceGroups.PlaceGroupsState.ChangeAndRefetch | src/hooks/usePlaceGroups.ts:32-77 | on success the list is not edited locally but refetched, and the refetch decides list and error; a refetch that rejects is caught as a TypeError whose message becomes the reply's and the hook's error, the list kept; on failure the list is kept and the reply is Reply |
| UsePlaceGroups.PlaceGroupsState.CreatePlaceGroup | src/hooks/usePlaceGroups.ts:32-53 | as ChangeAndRefetch, with the create default message |
| UsePlaceGroups.PlaceGroupsState.UpdatePlaceGroup | src/hooks/usePlaceGroups.ts:56-77 | as ChangeAndRefetch, with the update default message |
| UsePlaceGroups.PlaceGroupsState.DuplicatePlaceGroup | src/hooks/usePlaceGroups.ts:104-125 | as ChangeAndRefetch, with the duplicate default message |
| UsePlaceGroups.PlaceGroupsState.RemoveGroup | src/hooks/usePlaceGroups.ts:80-171 | on success every group with the id leaves the list; on failure the list is kept |
| UsePlaceGroups.PlaceGroupsState.DeletePlaceGroup | src/hooks/usePlaceGroups.ts:80-101 | as RemoveGroup, with the delete default message |
| UsePlaceGroups.PlaceGroupsState.LeavePlaceGroup | src/hooks/usePlaceGroups.ts:150-171 | as RemoveGroup, with the leave default message |
| UsePlaceGroups.PlaceGroupsState.SharePlaceGroup | src/hooks/usePlaceGroups.ts:128-147 | the list never changes; only the reply and the error follow the outcome |
| UsePlaceGroups.PlaceGroupsState.SetParams | src/hooks/usePlaceGroups.ts:9 | only the stored parameters change |
| FormData.InputChange | src/components/sidebar/dynamic/create/CreatePlaceGroupForm.tsx:43-48 | the written field reads back the value, and every other field reads as before |
| FormData.InputChangeOfRead | src/components/CreateListForm.jsx:21-26 | writing back a field's own value changes nothing |
| FormData.IconSelect | src/components/CreateListForm.jsx:28-36 | '+' changes nothing; any other icon becomes both the selected icon and the form's icon |
| FormData.IconSelectAgrees | src/components/sidebar/dynamic/create/CreatePlaceGroupForm.tsx:50-55 | after a selection, the picker and the form show the same icon |
| FormData.WithoutMember | src/components/CreateListForm.jsx:51-56 | every remaining member has another id and was there; every member with another id remains |
| FormData.RemoveMember | src/components/sidebar/dynamic/create/CreatePlaceGroupForm.tsx:68-70 | only the member list changes, to WithoutMember |
| FormData.WithoutMemberKeepsOrder | src/components/CreateListForm.jsx:51-56 | removal distributes over concatenation, so the survivors keep their order |
| FormData.RemoveAbsentMember | src/components/CreateListForm.jsx:51-56 | removing an id nobody has changes nothing |
| FormData.RemoveUndoesAppend | src/components/CreateListForm.jsx:38-56 | removing the id of the member just appended removes that member |
| CreateListForm.AddMember | src/components/CreateListForm.jsx:38-49 | a blank id changes nothing; otherwise one member with the id exactly as typed and the default permission goes last, the typed id is cleared, and nothing else changes |
| CreateListForm.AddAllowsDuplicates | src/components/CreateListForm.jsx:38-49 | adding the same id twice appends two members with that id |
| CreateListForm.RemoveAfterAdd | src/components/CreateListForm.jsx:38-56 | removing the id just added gives the earlier members without that id |
| CreateListForm.WithPermission | src/components/CreateListForm.jsx:58-65 | the length and the ids are kept; members with the id take the permission; the others are unchanged |
| CreateListForm.PermissionChange | src/components/CreateListForm.jsx:58-65 | only the member list changes, to WithPermission |
| CreateListForm.RemoveForgetsPermission | src/components/CreateListForm.jsx:51-65 | removing after a permission edit is the same as removing |
| CreateListForm.PermissionChangeTwice | src/components/CreateListForm.jsx:58-65 | two edits of one member's permission keep the second |
| CreatePlaceGroupForm.AddMember | src/components/sidebar/dynamic/create/CreatePlaceGroupForm.tsx:57-66 | a blank id changes nothing; otherwise one member with the trimmed id and the default permission goes last, the typed id is cleared, and nothing else changes |
| CreatePlaceGroupForm.AddedIdIsTrimmed | src/components/sidebar/dynamic/create/CreatePlaceGroupForm.tsx:58-61 | the added id is non-empty, neither starts nor ends with whitespace, and is its own trim |
| CreatePlaceGroupForm.AddToInitial | src/components/sidebar/dynamic/create/CreatePlaceGroupForm.tsx:27-66 | from the opening form (qhdud4957 as editor, editor as default), adding a non-blank id gives exactly those two editors, the new one under its trimmed id, and clears the typed id |
| PlaceGroupSection.Toggled | src/components/sidebar/dynamic/list/PlaceGroupSection.tsx:35-37 | toggling the open row closes the menu, and toggling any other row opens that row (also src/components/sidebar/dynamic/list/PlaceGroupSection.jsx:8-10) |
| PlaceGroupSection.ToggleTwiceCloses | src/components/sidebar/dynamic/list/PlaceGroupSection.jsx:8-10 | toggling a row twice from closed ends closed |
| PlaceGroupSection.ToggleOpensOnlyThatRow | src/components/sidebar/dynamic/list/PlaceGroupSection.tsx:35-37 | after a toggle the row is open iff it was closed, and no other row is open |
| PlaceGroupSection.AtMostOneOpen | src/components/sidebar/dynamic/list/PlaceGroupSection.tsx:138 | two open rows are the same row, because isOpen compares with the one stored id |
| PlaceGroupSection.DropdownState.constructor | src/components/sidebar/dynamic/list/PlaceGroupSection.tsx:33 | the menu starts closed |
| PlaceGroupSection.DropdownState.Toggle | src/components/sidebar/dynamic/list/PlaceGroupSection.tsx:35-37 | the open id becomes Toggled of the old one |
| PlaceGroupSection.DropdownState.Close | src/components/sidebar/dynamic/list/PlaceGroupSection.jsx:12-14 | no row is open afterwards |
| Sidebar.PanelOf | src/components/sidebar/Sidebar.tsx:152-175 | the panel precedence is create form, then group detail, then search results, then group list, each stated as if-and-only-if |
| Sidebar.TotalPages | src/components/sidebar/Sidebar.tsx:178 | one page without a count or with a zero count; otherwise the least page count whose pages of 15 hold the count |
| Sidebar.TotalPagesCoverCount | src/components/sidebar/Sidebar.tsx:178 | with a positive count there is at least one page, every result fits, and the last page is not empty |
| Sidebar.SidebarState.constructor | src/components/sidebar/Sidebar.tsx:47-55 | the initial state: no panel flag set, page 1, no results, no metadata, an empty query |
| Sidebar.SidebarState.Report | src/components/sidebar/Sidebar.tsx:86-88 | the results listener, when given, hears the list; nothing else changes |
| Sidebar.SidebarState.HandleSearch | src/components/sidebar/Sidebar.tsx:57-107 | the query is stored as typed; a blank query empties the results and goes to page 1 without a request; otherwise the results panel opens and the trimmed query is sent; data in the answer sets results, metadata and page; no data or an exception empties the results and goes to page 1; the listener hears the list shown |
| Sidebar.SidebarState.ClearSearch | src/components/sidebar/Sidebar.tsx:125-136 | the query and results are emptied, the results panel closes, page 1, and the listener hears an empty list |
| Sidebar.SidebarState.PageChange | src/components/sidebar/Sidebar.tsx:57-146 | the whole state HandleSearch leaves for the stored query and the page: results, metadata, panel flag and reported lists; the page set first sticks only when data came back |
| Sidebar.SidebarState.QueryChange | src/components/sidebar/Sidebar.tsx:138-140 | only the query changes |
| Sidebar.SidebarState.OpenGroup | src/components/sidebar/Sidebar.tsx:110-113 | the group is selected and its detail shows unless the create form is open; no other field changes |
| Sidebar.SidebarState.BackFromGroup | src/components/sidebar/Sidebar.tsx:120-123 | the selection is cleared and the detail panel no longer shows; no other field changes |
| Sidebar.SidebarState.OpenCreateForm | src/components/sidebar/Sidebar.tsx:172 | the create form shows, over any other panel; no other field changes |
| Sidebar.SidebarState.BackToList | src/components/sidebar/Sidebar.tsx:116-118 | the create form no longer shows; no other field changes |
| KakaoPlaces.PlacesOf | src/components/sidebar/Sidebar.tsx:79 | the places when both data and places are present, else empty |
| KakaoPlaces.WithoutPlace | src/components/sidebar/dynamic/list/PlaceGroupDetail.tsx:111 | every remaining result has another id and was there; every result with another id remains |
| KakaoPlaces.WithoutPlaceKeepsOrder | src/components/sidebar/dynamic/list/PlaceGroupDetail.tsx:111 | removal distributes over concatenation, so the other results keep their order |
| GroupSearch.NaverMapUrl | src/components/sidebar/dynamic/list/PlaceGroupDetail.tsx:23-29 | the link starts with the Naver search prefix and ends with the longitude; NaverMapUrlParts reads its parts back |
| GroupSearch.NaverMapUrlParts | src/components/sidebar/dynamic/list/PlaceGroupDetail.tsx:23-29 | after the fixed prefix the link splits at its only `@` into the encoded name and `y,x`, whatever the name holds |
| GroupSearch.GroupSearchState.constructor | src/components/sidebar/dynamic/list/PlaceGroupDetail.tsx:14-20 | empty query and results, not searching, page 1 of 1 |
| GroupSearch.GroupSearchState.HandleSearch | src/components/sidebar/dynamic/list/PlaceGroupDetail.tsx:36-74 | a blank query resets results and paging without a request; otherwise the trimmed query is sent; success gives the results, that page and ceil(results/20) pages; failure or an exception resets; a null or undefined exception throws at the message read and keeps results and paging; the searching flag ends lowered |
| GroupSearch.GroupSearchState.PageChange | src/components/sidebar/dynamic/list/PlaceGroupDetail.tsx:36-100 | a page outside 1..totalPages changes nothing; a valid page leaves the whole state HandleSearch leaves for the stored query and that page |
| GroupSearch.GroupSearchState.AddPlaceToGroup | src/components/sidebar/dynamic/list/PlaceGroupDetail.tsx:103-123 | the added place leaves the results, and nothing else changes |
| GroupSearch.GroupSearchState.QueryChange | src/components/sidebar/dynamic/list/PlaceGroupDetail.tsx:77-80 | only the query changes |
| GroupSearch.PageCountFromOnePage | src/components/sidebar/dynamic/list/PlaceGroupDetail.tsx:59 | the page count comes from one page's list: at most one page, and none for an empty list |
| GroupPlacesView.CategoryNames | src/components/sidebar/dynamic/list/place-group/PlaceGroupDetail.tsx:28-29 | the category name of each place, in order |
| GroupPlacesView.Unique | src/components/sidebar/dynamic/list/place-group/PlaceGroupDetail.tsx:30 | distinct entries, holding exactly the non-empty names of the input |
| GroupPlacesView.Categories | src/components/sidebar/dynamic/list/place-group/PlaceGroupDetail.tsx:27-33 | the list always starts with '전체' |
| GroupPlacesView.CategoriesListed | src/components/sidebar/dynamic/list/place-group/PlaceGroupDetail.tsx:27-33 | after '전체' come exactly the distinct non-empty category names of the places, in strictly increasing order |
| GroupPlacesView.FilteredPlaces | src/components/sidebar/dynamic/list/place-group/PlaceGroupDetail.tsx:36-42 | '전체' shows every place; any other tab shows exactly the places of that category |
| GroupPlacesView.FilterKeepsOrder | src/components/sidebar/dynamic/list/place-group/PlaceGroupDetail.tsx:41 | the filter distributes over concatenation, so the places keep their order |
| GroupPlacesView.EveryTabShowsSomething | src/components/sidebar/dynamic/list/place-group/PlaceGroupDetail.tsx:27-42 | every listed category shows at least one place |
| GroupPlacesView.GroupPlacesView.constructor | src/components/sidebar/dynamic/list/place-group/PlaceGroupDetail.tsx:18-24 | no places, not loading, '전체' selected, no focus and no detail |
| GroupPlacesView.GroupPlacesView.SelectCategory | src/components/sidebar/dynamic/list/place-group/PlaceGroupDetail.tsx:45-47 | only the selected tab changes |
| GroupPlacesView.GroupPlacesView.ClickPlace | src/components/sidebar/dynamic/list/place-group/PlaceGroupDetail.tsx:50-57 | the item is focused and selected, and the detail shows |
| GroupPlacesView.GroupPlacesView.CloseDetail | src/components/sidebar/dynamic/list/place-group/PlaceGroupDetail.tsx:60-64 | the detail closes and the selection clears, but the focus stays |
| GroupPlacesView.GroupPlacesView.Back | src/components/sidebar/dynamic/list/place-group/PlaceGroupDetail.tsx:67-80 | the focus, selection and detail are all reset |
| GroupPlacesView.GroupPlacesView.LoadGroupPlaces | src/components/sidebar/dynamic/list/place-group/PlaceGroupDetail.tsx:108-130 | the list becomes the returned places when data came back, else empty, also on an exception; loading ends false |
| StringOrder.Sort | src/components/sidebar/dynamic/list/place-group/PlaceGroupDetail.tsx:31 | the sort returns a permutation of its input |
| StringOrder.SortSorted | src/components/sidebar/dynamic/list/place-group/PlaceGroupDetail.tsx:31 | the result is in order, and distinct when the input was |
| StringOrder.Insert | src/components/sidebar/dynamic/list/place-group/PlaceGroupDetail.tsx:31 | inserting adds exactly the one element |
| StringOrder.InsertSorted | src/components/sidebar/dynamic/list/place-group/PlaceGroupDetail.tsx:31 | inserting into a sorted list keeps it sorted |
| StringOrder.InsertDistinct | src/components/sidebar/dynamic/list/place-group/PlaceGroupDetail.tsx:31 | inserting a new element keeps a list distinct |
| StringOrder.LessEqTotal | src/components/sidebar/dynamic/list/place-group/PlaceGroupDetail.tsx:31 | any two strings are comparable |
| StringOrder.LessEqAntisymmetric | src/components/sidebar/dynamic/list/place-group/PlaceGroupDetail.tsx:31 | strings ordered both ways are equal |
| StringOrder.LessEqTransitive | src/components/sidebar/dynamic/list/place-group/PlaceGroupDetail.tsx:31 | the order is transitive |
| StringOrder.LessEqReflexive | src/components/sidebar/dynamic/list/place-group/PlaceGroupDetail.tsx:31 | the order is reflexive |
| StringOrder.SortedEverywhere | src/components/sidebar/dynamic/list/place-group/PlaceGroupDetail.tsx:31 | in a sorted list every entry is at most every later one |
| Text.Trim | src/components/sidebar/dynamic/create/CreatePlaceGroupForm.tsx:58-60 | the slice of the string with only whitespace before and after it; empty exactly for a blank string; otherwise it neither starts nor ends with whitespace |
| Text.TrimStart | src/components/sidebar/dynamic/create/CreatePlaceGroupForm.tsx:60 | a suffix whose removed prefix is all whitespace and which does not start with whitespace |
| Text.TrimEnd | src/components/sidebar/dynamic/create/CreatePlaceGroupForm.tsx:60 | a prefix whose removed suffix is all whitespace and which does not end with whitespace |
| Text.TrimIdempotent | src/components/sidebar/dynamic/create/CreatePlaceGroupForm.tsx:60 | trimming twice is trimming once |
| Text.IndexOf | src/utils/tokenManager.ts:50 | the first occurrence of the separator, or none at all |
| Text.ShiftOccurrence | src/utils/tokenManager.ts:50 | occurrences in a string's tail are its own occurrences one place later |
| Text.Split | src/utils/tokenManager.ts:50-52 | a split has at least one piece; SplitJoin, SplitPiecesFree and the lemmas below give its pieces |
| Text.SplitJoin | src/utils/tokenManager.ts:50 | joining the pieces of a split with the separator gives the string back |
| Text.SplitPiecesFree | src/utils/tokenManager.ts:50 | no piece of a split contains the separator |
| Text.SplitAtSoleOccurrence | src/utils/tokenManager.ts:50-51 | a single occurrence splits the string into what is before it and what is after it |
| Text.SplitWithoutOccurrence | src/utils/tokenManager.ts:50-54 | with no occurrence, the split is the whole string |
| Text.SplitAroundSoleChar | src/components/sidebar/dynamic/list/PlaceGroupDetail.tsx:23-29 | two pieces free of a character, joined by it, split back into the two pieces |
| Text.FirstPieceBefore | src/utils/tokenManager.ts:52 | the first piece of a split on one character is the text before its first occurrence |
| Text.SplitTwoOccurrences | src/utils/tokenManager.ts:50-51 | two non-overlapping occurrences give at least three pieces |
| UriComponent.Utf8 | src/components/sidebar/dynamic/list/PlaceGroupDetail.tsx:24 | one to four bytes; a single byte iff the code point is below 0x80; continuation bytes in 0x80..0xBF |
| UriComponent.Utf8RoundTrip | src/components/sidebar/dynamic/list/PlaceGroupDetail.tsx:24 | decoding the bytes gives the character back |
| UriComponent.Escape | src/components/sidebar/dynamic/list/PlaceGroupDetail.tsx:24 | `%` followed by two hex digits |
| UriComponent.EscapeAll | src/components/sidebar/dynamic/list/PlaceGroupDetail.tsx:24 | three characters per byte, each `%` or a hex digit |
| UriComponent.EscapeRoundTrip | src/components/sidebar/dynamic/list/PlaceGroupDetail.tsx:24 | the two hex digits of an escape read back as its byte |
| UriComponent.UnescapeEscapeAll | src/components/sidebar/dynamic/list/PlaceGroupDetail.tsx:24 | reading the escapes back gives the bytes |
| UriComponent.EncodeChar | src/components/sidebar/dynamic/list/PlaceGroupDetail.tsx:24 | unreserved characters stay as they are; others become the escapes of their UTF-8 bytes |
| UriComponent.EncodeCharDecodes | src/components/sidebar/dynamic/list/PlaceGroupDetail.tsx:24 | the escapes of a character read back as its UTF-8 bytes, and those as the character |
| UriComponent.EncodeCharSafe | src/components/sidebar/dynamic/list/PlaceGroupDetail.tsx:24 | every character the encoding of one character writes is unreserved or `%` |
| UriComponent.Encode | src/components/sidebar/dynamic/list/PlaceGroupDetail.tsx:24 | the encoding is at least as long as the input, and every character in it is unreserved or `%` |
| UriComponent.EncodeAppend | src/components/sidebar/dynamic/list/PlaceGroupDetail.tsx:24 | encoding works character by character |
| UriComponent.EncodeUnreserved | src/components/sidebar/dynamic/list/PlaceGroupDetail.tsx:24 | a string of unreserved characters is its own encoding |
| UriComponent.EncodedHasNo | src/components/sidebar/dynamic/list/PlaceGroupDetail.tsx:24-28 | an encoded name never contains `@`, `,`, `/` or any other unsafe character |
| Js.CeilDiv | src/components/sidebar/Sidebar.tsx:178 | `Math.ceil(a / b)` is the least r with b·r ≥ a |
| Js.Truthy | src/hooks/usePlaces.ts:22 | null and undefined are falsy, objects and arrays truthy, and a string truthy iff it is non-empty |
| Js.Or | src/hooks/usePlaces.ts:22 | JavaScript's `or` is a when a is truthy, else b |
| Js.Get | src/utils/apiClient.ts:25 | a property read gives the field when the object has it, else undefined |
| Js.Spread | src/hooks/usePlaces.ts:88 | spreading an object gives its fields; spreading a primitive, null or undefined gives none; strings and arrays are under Left out |
| Js.Merge | src/hooks/usePlaces.ts:88 | `{...a, ...b}` has every field of b, and a's value for every key b lacks |
| Lists.Filter | src/hooks/usePlaces.ts:113 | the kept elements pass the test and come from the list; every passing element is kept |
| Lists.FilterAppend | src/hooks/usePlaces.ts:113 | the filter distributes over concatenation |
| Lists.FilterKeepsAll | src/hooks/usePlaces.ts:113 | a filter every element passes changes nothing |
| Lists.FilterIdempotent | src/hooks/usePlaces.ts:113 | filtering twice is filtering once |
| Lists.MapWhere | src/hooks/usePlaces.ts:87-89 | the length is kept; selected elements are rewritten and the others are untouched |

## Left out

- **Transport.** The axios transport, its timeout, and the registration of the interceptors are not modelled. The transport is a function from request to outcome.
- **Refresh.** The code has no token-refresh coordinator: no single-flight refresh, no queue of waiting requests, no retry marker. The model follows the code, where a 401 ends the session.
- **`auth.ts`.** The unused `POST /auth/refresh` wrapper in `src/api/auth.ts` is not part of this model.
- **`api.*` wrappers.** The five wrappers differ only in the verb. `ApiIndex.Browser.Request` is their common shape. The per-verb argument passing of axios is not modelled.
- **JWT decoding.** `JSON.parse(atob(...))` is a decoding function passed to `TokenManager.IsTokenExpired`. Base64 is not modelled, and neither is the fact that `atob` rejects base64url text. A token without a payload segment passes the text "undefined", which `atob` rejects (nine characters are no valid base64 length); a faithful decoding function therefore answers none there, and the token counts as expired.
- TokenManager.LessThan: JavaScript's `<` is modelled for numbers, `null`, booleans and `undefined`. Strings, arrays and objects are treated as NaN, so a payload whose `exp` is a numeric string is never expired here; JavaScript would convert that string to a number.
- **Cookie attributes.** Of `expires`, `path`, `SameSite` and `Secure`, only the lifetime is kept. Date arithmetic and the clock's effect on stored cookies (expiry by time) are not modelled.
- TokenManager.CookieTokenStorage.SetTokens: the written cookie carries `Secure=false` on plain http. Section 5.2.5 of RFC 6265 ignores the attribute's value, so the cookie is still Secure, and a browser refuses a Secure cookie from an insecure origin. The model assumes the write is accepted, so its read-back holds only over https.
- **Access-token lifetime.** `AccessTokenLifetimeMs` is 0.25 days, that is six hours, as the code computes; the comment beside it speaks of 15 minutes.
- **Cookie jar.** Names are distinct and free of `;` and `=`, which is the well-formedness the round-trip lemmas assume. Same-name cookies on different paths are not modelled. TokenManager.ValidName admits an empty name, which a browser treats differently.
- TokenManager.StoredValue: keeps spaces and tabs around the value, which section 5.2 of RFC 6265 has the browser strip, so `accessToken "abc "` reads back with its trailing space here.
- TokenManager.CookieTokenStorage.SetTokens: a token containing `;` reads back cut at the `;`, as the browser stores it. The contract states this cut value, not the token as given.
- Js.Spread: spreading a string or an array copies its index properties in JavaScript (`{...'ab'}` has keys `0` and `1`). The model gives no fields for them; the code spreads records and query parameters, which are objects.
- **Numbers.** Floating point is not modelled: `Num` holds integers, and `Math.ceil` and `Math.floor` are written for integer quotients.
- StringOrder.LessEq: compares Unicode scalar values. JavaScript's default `sort` compares UTF-16 code units, which differs only for characters outside the Basic Multilingual Plane.
- UriComponent.Encode: lone surrogates, for which `encodeURIComponent` throws, cannot occur in Dafny's `char`.
- ApiClient.WithLoading: the intermediate `loading = true` state is visible only in the recorded trace, because there is no concurrency.
- GroupPlacesView.GroupPlacesView.LoadGroupPlaces: truthy `data` that lacks `places` leaves the list `undefined` in the source. The model types the request's data as an optional list of places and does not have that case.
- **TypeError message.** The text of the TypeError that reading a property of null or undefined throws differs between engines. `Js.TypeErrorMessage` stands for it.
- **Messages and logging.** `showErrorMessage`, `showSuccessMessage`, `handleApiError`, `console` logging and `alert` are side effects with no state and are left out.
- **Map callbacks.** The callbacks into the map (`onPlaceFocus`, `onGroupPlacesChange`, `onResetMap`, `onFocusAllMarkers`, `onBack`) are left out. The exception is the sidebar's results listener, which is recorded.
- **Views.** The view components, the map and SDK code, `PlaceGroupMapping` and the build configuration are not part of this model.
- FormData.InputChange: the field and its value are one typed value. JavaScript's `handleInputChange` in `CreateListForm.jsx` would accept a value of any type.
- **Success tests.** `Sidebar.SidebarState.HandleSearch` tests for `data` where `GroupSearch.GroupSearchState.HandleSearch` tests for `success`. Both are modelled as written.
- **Page count.** The group page computes its page count from one page's list (`PageCountFromOnePage`). This is modelled as written.
- Pagination.Render: uses the corrected buttons (`NavButtonsIntended`). The as-written buttons are kept beside it; see Findings.

## Findings

| source | as written | input that shows it | evidently intended | confidence | as-written member | corrected member |
|---|---|---|---|---|---|---|
| src/components/common/Pagination.tsx:100-101 | "next" and "last" are disabled when `currentPage === 1` | currentPage = 1 of 5: next is disabled though page 2 exists; currentPage = 5 of 5: next is enabled though no page 6 exists | disabled when `currentPage >= totalPages` | not executed | Pagination.NavButtonsAsWritten (shown by Pagination.NextButtonWrongAtBothEnds) | Pagination.NavButtonsIntended |
