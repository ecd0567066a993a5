# B2B medical platform web client — a verified model of its rules

This project models the rule-bearing core of the platform's React client. It is
written in Dafny and proves what the client promises about that core:

- **HTTP client.** The client checks token expiry and builds the message of a failed
  response. It has two refresh paths: the proactive `refreshPromise` gate and the
  reactive `isRefreshing` gate with its queue. The `_retry` mark lets a request be
  resent at most once.
- **Auth context.** Roles are extracted from the JWT and tested by the role
  predicates. Login, logout and token updates write to `localStorage`.
- **Shared helpers.** These are the error and force-logout listener registries, the
  error toast list, image-file validation, logo file names, image URL rewriting and the
  API explorer's path normalisation.
- **Sales statistics.** The page filters orders, groups them by product, category and
  day, takes sums, and ranks the results.
- **Page rules.** These are:
  - the seller order search and Excel export rows;
  - the company user list, with its optimistic availability toggle and its step back
    when a page empties;
  - the user avatars;
  - the capped product image list and product creation;
  - the cart and product quantity controls;
  - the catalogue filters;
  - the category and company administration pages;
  - profile and password checks;
  - login validation;
  - the pagination component and the pager rules of the list pages.

Code that updates state in place is modelled as classes with `modifies` clauses:
`Api.Client`, `Storage.TokenStore`, `AuthContext.Session`, the two bus registries and
`ErrorToasts.ToastList`. Loops are modelled as methods with loop invariants, each
proved against a specification function:

- the role `push` closure;
- the hash loop of `getCategoryColor`;
- the map-filling `forEach` loops of the statistics;
- the nested row loop of the export;
- `findIndex`;
- the image upload loops.

Pure rules are modelled as functions and lemmas.

Inputs:
- Time (`Date.now()`, `new Date()`) is an integer.
- JWT decoding is an input function returning JSON claims.
- Uploads and REST answers are inputs. A failed request is `None`.

Modules:
- `Wrappers`, `JsText`, `Json`, `Seqs`, `Domain` and `Grouping` hold the shared
  vocabulary. This covers JavaScript truthiness, `trim`, ASCII case mapping, decimal
  text, `JSON.stringify`, `filter`, the records of `types.ts`, and insertion-ordered
  maps with a stable sort.
- Every other module follows one source file.

## Model

| member | source | states |
|---|---|---|
| Api.IsTokenExpired | frontend/src/lib/api.ts:6-15 | A payload that cannot be decoded, or that is `null`, means the token counts as expired. |
| Api.ExpiredIffWithinMargin | frontend/src/lib/api.ts:11 | The token is expired exactly when the number `exp` compares as (by JavaScript's `<=` coercion) is at most now plus 30 seconds, in seconds; an `exp` that compares as NaN never expires it. |
| Api.TextExpClaimCountsAsNumber | frontend/src/lib/api.ts:11 | An `exp` written as the text of an integer expires the token exactly like that integer. |
| Json.IntTextNumber | frontend/src/lib/api.ts:11 | Coercing the decimal text of any integer back to a number gives that integer. |
| Json.TextCoercions | frontend/src/lib/api.ts:11 | In a comparison with a number, an integer text counts as its integer, '' as 0, ' 1 ' as 1 and 'x' as NaN. |
| Json.ArrayCoercions | frontend/src/lib/api.ts:11 | An array counts as its joined text: `[]` and `[null]` as 0, `[n]` as n. |
| Json.ObjectIsNaN | frontend/src/lib/api.ts:11 | An object counts as NaN, so no comparison with it holds. |
| Api.NoExpClaimNeverExpires | frontend/src/lib/api.ts:11 | A payload without `exp` never counts as expired (`undefined <= n` is false). |
| Api.ExpiryIsMonotone | frontend/src/lib/api.ts:6-15 | Once a token counts as expired, it stays expired as time moves on. |
| Api.ExtractMessage | frontend/src/lib/api.ts:94-102 | The shown message is never empty. It is the backend message when that is non-empty, else `error.message`, else 'Request failed'. |
| Api.StringBodyWins | frontend/src/lib/api.ts:96 | A non-empty string body is the message, whatever else the error carries. |
| Api.MessageFieldWins | frontend/src/lib/api.ts:97 | A non-empty string `message` property is the message. |
| Api.ErrorsArrayIsShown | frontend/src/lib/api.ts:98 | A non-empty `errors` array is shown as its entries' texts joined by newlines, when no string `message` comes first and no entry's own `message` is an array (a `message` of `[]` is truthy but its text is empty, so the joined text could be empty and the chain would move on). |
| Api.StringErrorsAreQuoted | frontend/src/lib/api.ts:98 | String entries of `errors` are shown as their JSON text, quotes included: `["a","b"]` gives `"a"` and `"b"` on two lines. |
| Api.EntryTexts | frontend/src/lib/api.ts:98 | Each `errors` entry becomes its truthy `message`, else its JSON text, one text per entry, in order. |
| Api.ValueTexts | frontend/src/lib/api.ts:99 | Each value of an `errors` object becomes its array joined by ', ', else `String(v)`, in order. |
| Api.WithBearer | frontend/src/lib/api.ts:44-45 | The config gets the header `Authorization: Bearer <token>`; its retry mark and URL are kept. |
| Api.EventUrl | frontend/src/lib/api.ts:92 | A URL is reported exactly when the config has a non-empty base URL or URL. |
| Api.ErrorEventOf | frontend/src/lib/api.ts:90-103 | The emitted event has a non-empty message and the response status. |
| Api.RefreshOutcomes | frontend/src/lib/api.ts:55-81 | Exactly one force-logout is emitted unless the endpoint answered, and then the result is null. An answer is stored under `accessToken` as its text, announced and returned as it came. A missing refresh token leaves storage as it was. A failed endpoint removes both tokens. |
| Api.NonStringBodiesKeptAsTheyCame | frontend/src/lib/api.ts:67-73 | A null body is stored as 'null' and resolves the refresh to null with no force-logout. An object body is stored as '[object Object]' and resolves the refresh to the object. |
| Api.Settled | frontend/src/lib/api.ts:113-120 | A queued request is resent exactly when the refresh result is truthy. It then carries `Bearer ` plus the result's text as its header and keeps its URL and retry mark. Otherwise it is rejected with its own error. |
| Api.SentAfterRefresh | frontend/src/lib/api.ts:39-46 | After a proactive refresh, a request carries `Bearer ` plus the result's text when the result is truthy, and is sent unchanged otherwise. |
| Api.Client.constructor | frontend/src/lib/api.ts:51-53 | Both gates start open, with no events and no endpoint calls. |
| Api.Client.StartRefresh | frontend/src/lib/api.ts:56-60 | Without a refresh token, force-logout is emitted and storage is untouched. Otherwise the endpoint is called once. |
| Api.Client.FinishRefresh | frontend/src/lib/api.ts:61-80 | An answer is stored as its text (`String(body)`), announced and returned as the body itself. Failure removes both tokens, emits force-logout and returns null. |
| Api.Client.InterceptRequest | frontend/src/lib/api.ts:25-48 | An unexpired stored token is attached as a bearer header, and no token sends the request unchanged. An expired token parks the request on `refreshPromise`, starting a refresh only when none is in flight. |
| Api.Client.SettleProactiveRefresh | frontend/src/lib/api.ts:33-41 | Every parked request is sent in order with the same result, and the gate is reset. |
| Api.Client.InterceptResponseError | frontend/src/lib/api.ts:85-137 | Exactly one error event is emitted first. A 401 on an unmarked request is marked, then queued while `isRefreshing` or else starts the reactive refresh. Anything else is rejected with the original error. |
| Api.Client.SettleReactiveRefresh | frontend/src/lib/api.ts:125-135 | Every queued request gets the same result in queue order. The queue is emptied, `isRefreshing` is cleared, and the first request is resent or rejected by the same rule. |
| Api.ResentAtMostOnce | frontend/src/lib/api.ts:107-108 | A resent request carries the retry mark, so a second 401 on it no longer triggers a refresh. |
| Api.GatesAreIndependent | frontend/src/lib/api.ts:33-37 | An expired-token request and a concurrent 401 each call the refresh endpoint: single-flight holds per gate only (the reactive gate is at 110-129). |
| Storage.TokenStore.GetItem | frontend/src/lib/api.ts:26 | `getItem` is `null` exactly for an absent key, and otherwise the stored value. |
| Storage.TokenStore.SetItem | frontend/src/lib/api.ts:68 | `setItem` changes exactly one key. |
| Storage.TokenStore.RemoveItem | frontend/src/lib/api.ts:75-76 | `removeItem` removes exactly one key. |
| AuthContext.SplitRoles | frontend/src/context/AuthContext.tsx:39 | No piece of `split(/[ ,]+/)` contains a space or a comma. |
| AuthContext.NonEmptyPieces | frontend/src/context/AuthContext.tsx:39 | Exactly the non-empty pieces are pushed. |
| AuthContext.UpperAll | frontend/src/context/AuthContext.tsx:47 | Each role is uppercased, in order. |
| AuthContext.Dedupe | frontend/src/context/AuthContext.tsx:47 | `Array.from(new Set(..))` has no duplicates and keeps exactly the same members. |
| AuthContext.DedupeKeepsFirstOccurrenceOrder | frontend/src/context/AuthContext.tsx:47 | The kept strings come in the order of their first occurrences, as a `Set` iterates. |
| AuthContext.Push | frontend/src/context/AuthContext.tsx:36-41 | The recursive `push` closure appends exactly what `Collect` specifies: falsy values are skipped, arrays and objects are entered, strings are split. |
| AuthContext.ExtractRolesFromJwt | frontend/src/context/AuthContext.tsx:30-50 | The method's result equals the specification `RolesOf`: the roles, authorities, scope and scopes claims in that order, uppercased and deduplicated. |
| AuthContext.RolesWellFormed | frontend/src/context/AuthContext.tsx:30-50 | Extracted roles are distinct, non-empty, upper-case and free of spaces and commas. A missing or undecodable token gives no roles. |
| AuthContext.SpaceSuffixNeverMatches | frontend/src/context/AuthContext.tsx:123-125 | On extracted roles, `isAdmin`, `isDirector` and `isSeller` hold exactly for the name, `ROLE_` plus the name, or a `:NAME` suffix; the `' NAME'` branch never fires. |
| AuthContext.BuyerAndSellerExclusive | frontend/src/context/AuthContext.tsx:126-127 | `isBuyer` and `isSellerCompany` ignore case and are never both true. |
| AuthContext.Session.constructor | frontend/src/context/AuthContext.tsx:63-69 | Non-empty stored tokens are taken over on mount, as strings. |
| AuthContext.Session.Login | frontend/src/context/AuthContext.tsx:102-108 | The tokens as read from the body are taken unchecked: storage gets `String(v)` of each ("undefined" for a missing one), the state holds the values, and the session navigates to '/'. It is authenticated exactly when the access token is truthy. |
| AuthContext.Session.Logout | frontend/src/context/AuthContext.tsx:110-116 | Both tokens are removed from storage and state, the session goes to '/login', and it is no longer authenticated. |
| AuthContext.Session.UpdateAccessToken | frontend/src/context/AuthContext.tsx:118-121 | Only the access token is written: its text to storage, the value to the state. |
| AuthContext.Session.OnTokenRefreshed | frontend/src/context/AuthContext.tsx:162-172 | A truthy refreshed token replaces the access token, stored as its text and held as it came; a falsy one changes nothing. Afterwards the session is authenticated exactly when the token was truthy or it already was. |
| AuthContext.ContextEmail | frontend/src/context/AuthContext.tsx:71-86 | The context's e-mail is the token's `sub` claim when that is truthy, and null otherwise (no token, no decodable payload, no truthy `sub`). |
| AuthContext.Session.OnForceLogout | frontend/src/context/AuthContext.tsx:152-158 | A force-logout clears both stored tokens and ends the session. |
| Listeners.Add | frontend/src/lib/errorBus.ts:11 | `Set.add` keeps the listeners duplicate-free and adds exactly `l`. |
| Listeners.Remove | frontend/src/lib/errorBus.ts:12 | `Set.delete` removes exactly `l` and no other. |
| Listeners.AddIdempotent | frontend/src/lib/authBus.ts:3-6 | Subscribing twice is one registration. |
| Listeners.RemoveUndoesAdd | frontend/src/lib/authBus.ts:6-7 | The unsubscribe closure of a fresh subscription restores the registry. |
| Listeners.RemoveAbsent | frontend/src/lib/errorBus.ts:12 | Deleting a listener that is not registered changes nothing. |
| Listeners.RemoveAppend | frontend/src/lib/errorBus.ts:12 | Deleting from a concatenation deletes from each part: registration order is otherwise kept. |
| Listeners.RemoveKeepsOrder | frontend/src/lib/errorBus.ts:12 | Removing one listener keeps the relative order of the others. |
| ErrorBus.Registry.constructor | frontend/src/lib/errorBus.ts:8 | The registry starts with no listeners. |
| ErrorBus.Registry.OnError | frontend/src/lib/errorBus.ts:10-11 | `onError` adds the listener to the registry. |
| ErrorBus.Registry.Unsubscribe | frontend/src/lib/errorBus.ts:12 | The closure removes that listener and reports whether it was there. |
| ErrorBus.Registry.EmitError | frontend/src/lib/errorBus.ts:15-19 | Every listener is called once, in order, with the same event, including after one that throws. The registry is unchanged. |
| AuthBus.Registry.constructor | frontend/src/lib/authBus.ts:3 | The registry starts with no listeners. |
| AuthBus.Registry.OnForceLogout | frontend/src/lib/authBus.ts:5-6 | `onForceLogout` adds the listener to the registry. |
| AuthBus.Registry.Unsubscribe | frontend/src/lib/authBus.ts:7 | The closure removes that listener and reports whether it was there. |
| AuthBus.Registry.EmitForceLogout | frontend/src/lib/authBus.ts:10-14 | Every listener is called once, in order, and throws are swallowed. The registry is unchanged. |
| ErrorToasts.ToastIdCounterInjective | frontend/src/components/ErrorToasts.tsx:18 | Two ids `${stamp}-${n}` are equal only when their counters are equal, whatever the timestamps. |
| ErrorToasts.RemoveById | frontend/src/components/ErrorToasts.tsx:27 | Exactly the toasts with that id are dropped. |
| ErrorToasts.RemoveByIdIsFilter | frontend/src/components/ErrorToasts.tsx:27 | Removal is exactly the array filter on `t.id !== id`, so the remaining toasts keep their order. |
| ErrorToasts.RemoveByIdKeepsDistinct | frontend/src/components/ErrorToasts.tsx:27 | Removal keeps ids pairwise distinct. |
| ErrorToasts.RemoveUndoesAppend | frontend/src/components/ErrorToasts.tsx:15-27 | Closing a toast just added gives back the earlier list unchanged. |
| ErrorToasts.ToastList.constructor | frontend/src/components/ErrorToasts.tsx:11-12 | The list starts empty, with `idSeq` at 0. |
| ErrorToasts.ToastList.OnError | frontend/src/components/ErrorToasts.tsx:15-20 | `idSeq` goes up by one and exactly one toast is appended with the event's fields, keeping the ids distinct. |
| ErrorToasts.ToastList.Remove | frontend/src/components/ErrorToasts.tsx:27 | The list becomes `RemoveById` of the old list and `idSeq` is unchanged. |
| ImageUpload.ValidateImageFile | frontend/src/lib/imageUpload.ts:21-33 | A file is accepted exactly for the five image types at no more than 5 MB. The type is checked before the size. |
| ImageUpload.AfterLastDot | frontend/src/lib/imageUpload.ts:84 | `split('.').pop()` is a suffix without a '.' that is either the whole name or preceded by a '.', i.e. the text after the last '.'; a dot-free name is returned whole. |
| ImageUpload.LogoExtension | frontend/src/lib/imageUpload.ts:84 | The extension is `Lower` of the text after the last '.' when that is non-empty, and 'jpg' when it is empty; it is never empty and has no '.'. |
| ImageUpload.LastDotWins | frontend/src/lib/imageUpload.ts:84 | Only the last '.' counts: 'logo.v2.PNG' gets 'png', and 'logo.' gets 'jpg'. |
| ImageUpload.SanitizedIsSlug | frontend/src/lib/imageUpload.ts:85-89 | The sanitised name has only a-z, 0-9 and '_', never two '_' in a row, and no '_' at either end. |
| ImageUpload.GenerateLogoFileName | frontend/src/lib/imageUpload.ts:82-92 | The name starts with 'company_logo_' + sanitised name + '_' + timestamp + '.', ends with '.' + extension, and is exactly as long as those parts together. |
| ImageUpload.OptimizeImageUrl | frontend/src/lib/imageUpload.ts:95-112 | '' maps to '', and a URL containing 'cloudinary.com' is unchanged. |
| ImageUpload.DriveLinkRewritten | frontend/src/lib/imageUpload.ts:104-110 | A Drive file link becomes the direct link with the same id, which occurs in the original. |
| ImageUpload.DriveIdFromIsLeftmost | frontend/src/lib/imageUpload.ts:104-106 | Searching from a position finds an id exactly when the Drive pattern matches at or after it, and the id is the one after the leftmost such match. |
| ImageUpload.DriveIdIsLeftmostMatch | frontend/src/lib/imageUpload.ts:104-106 | `url.match(driveRegex)` finds an id exactly when the pattern (the prefix, then an id character) matches somewhere, and the id follows the leftmost match. |
| ImageUpload.NoDriveMatchUnchanged | frontend/src/lib/imageUpload.ts:104-111 | A URL that the Drive pattern matches nowhere is returned unchanged. |
| ImageUpload.OptimizeIdempotent | frontend/src/lib/imageUpload.ts:95-112 | Rewriting a rewritten URL changes nothing. |
| ApiExplorer.NormalisedPath | frontend/src/pages/ApiExplorer.tsx:17 | The path always starts with '/api'. A path already starting with it is unchanged. Otherwise '/api' is prefixed, adding '/' only when missing. |
| ApiExplorer.RequestPathDropsPrefix | frontend/src/pages/ApiExplorer.tsx:17-18 | The requested path is the normalised path without its leading '/api'. |
| ApiExplorer.UnprefixedPathRequested | frontend/src/pages/ApiExplorer.tsx:17-18 | A path without '/api' is requested as itself, with a '/' added when it lacks one. |
| ApiExplorer.PrefixedPathRequested | frontend/src/pages/ApiExplorer.tsx:17-18 | A path starting with '/api' is requested with exactly those four characters cut off. |
| ApiExplorer.SegmentBothWays | frontend/src/pages/ApiExplorer.tsx:17-18 | A plain segment (such as 'users') is requested as the same path, '/' plus the segment, whether it is typed with a leading slash or without. |
| ApiExplorer.ApiFooLosesSlash | frontend/src/pages/ApiExplorer.tsx:17-18 | '/apifoo' requests 'foo', with no leading slash. |
| CategoryColor.HashOf | frontend/src/pages/SalesStatistics.tsx:219-222 | The hash loop computes `Hash(name)`, with the shift on 32 bits and the rest on unbounded numbers. |
| CategoryColor.ColorFor | frontend/src/pages/SalesStatistics.tsx:212-224 | The colour is determined by the name and is an entry of the palette. The same loop is `getCategoryColor` in Products.tsx:130-141 (same palette) and Categories.tsx:84-95 (pastel palette). |
| CategoryColor.HashBound | frontend/src/pages/SalesStatistics.tsx:219-222 | The hash grows at most linearly with the name's length. |
| CategoryColor.PaletteShapes | frontend/src/pages/Categories.tsx:89-93 | Both palettes have 15 entries, but the pastel one repeats '#85C1E9'. |
| Grouping.TallyInOrder | frontend/src/pages/SalesStatistics.tsx:143-150 | The `forEach` loop filling an insertion-ordered `Map` computes `Tally`. |
| Grouping.Bump | frontend/src/pages/SalesStatistics.tsx:145-149 | One `map.set(key, existing + contribution)` keeps an existing key in its place and puts a new key last, keeping keys distinct. |
| Grouping.TallyConserves | frontend/src/pages/SalesStatistics.tsx:143-150 | Grouping keeps the total quantity and the total revenue. |
| Grouping.TallyKeys | frontend/src/pages/SalesStatistics.tsx:143-150 | The buckets have distinct keys, exactly the keys contributed. |
| Grouping.TallyPerKey | frontend/src/pages/SalesStatistics.tsx:145-149 | Each bucket holds the sum of its key's contributions. |
| Grouping.Sort | frontend/src/pages/SalesStatistics.tsx:154 | The sort gives a permutation ordered by the rank. |
| Grouping.SortIsStable | frontend/src/pages/SalesStatistics.tsx:154 | The sort is stable: the buckets of each rank come out in their input order. |
| Grouping.InsertKeepsRankOrder | frontend/src/pages/SalesStatistics.tsx:154 | Inserting into a sorted list puts the new bucket after every bucket of its rank. |
| Grouping.SortSum | frontend/src/pages/SalesStatistics.tsx:168-170 | Sorting keeps the totals. |
| Grouping.SortKeys | frontend/src/pages/SalesStatistics.tsx:152-155 | Sorting keeps the keys and their distinctness. |
| SalesStatistics.KeepIffCountedItem | frontend/src/pages/SalesStatistics.tsx:101-117 | Both branches of the order filter mean one thing: in the period and holding an item of the company, in the selected category if any. |
| SalesStatistics.LoadOrders | frontend/src/pages/SalesStatistics.tsx:80-119 | Nothing is loaded without a token or a company. Otherwise an order is kept exactly when it was fetched and passes the filter. |
| SalesStatistics.LoadOrdersKeepsOrder | frontend/src/pages/SalesStatistics.tsx:101-117 | Kept orders stay in fetch order: loading two runs of orders keeps the first run's orders ahead of the second's. |
| SalesStatistics.LoadOrdersAppendsKept | frontend/src/pages/SalesStatistics.tsx:101-117 | One more fetched order is appended exactly when it passes the filter. |
| SalesStatistics.ByProduct | frontend/src/pages/SalesStatistics.tsx:144-149 | Each seller item contributes its product name, quantity and subtotal to the product map. |
| SalesStatistics.ByCategory | frontend/src/pages/SalesStatistics.tsx:159-165 | Each seller item contributes its category name, quantity and subtotal to the category map. |
| SalesStatistics.ByDay | frontend/src/pages/SalesStatistics.tsx:174-191 | Each order contributes one entry to the daily map. |
| SalesStatistics.Take | frontend/src/pages/SalesStatistics.tsx:155 | `slice(0, 10)` keeps at most ten entries, a prefix of the ranking. |
| SalesStatistics.CalculateStatistics | frontend/src/pages/SalesStatistics.tsx:128-210 | The three map-filling loops and the sorts compute `Statistics(orders)`. |
| SalesStatistics.CompletedAndPendingBound | frontend/src/pages/SalesStatistics.tsx:139-140 | Completed plus pending orders is at most `totalOrders`. |
| SalesStatistics.ContributionTotals | frontend/src/pages/SalesStatistics.tsx:130-138 | The per-item contributions add up to `totalRevenue` and to the total quantity. |
| SalesStatistics.CategoryStatsConserve | frontend/src/pages/SalesStatistics.tsx:158-170 | `categoryStats` revenues sum to `totalRevenue`, and its quantities to the seller items' quantity. |
| SalesStatistics.DailySalesConserve | frontend/src/pages/SalesStatistics.tsx:173-195 | `dailySales` order counts sum to `totalOrders`, and its revenues to `totalRevenue`. |
| SalesStatistics.TopProductsShape | frontend/src/pages/SalesStatistics.tsx:143-155 | `topProducts` has at most 10 entries with distinct names, in non-increasing revenue. Each entry totals its product, and none of the dropped products earns more than a listed one. |
| SalesStatistics.DayRankIsCalendarOrder | frontend/src/pages/SalesStatistics.tsx:196-199 | For valid days, the integer rank `month * 32 + day` orders exactly as the comparator: month first, then day. |
| SalesStatistics.DailySalesInCalendarOrder | frontend/src/pages/SalesStatistics.tsx:194-200 | `dailySales` is strictly increasing by (month, day). |
| SalesStatistics.YearIsIgnored | frontend/src/pages/SalesStatistics.tsx:175-199 | The day key carries no year, so 2 January sorts before 28 December of the year before. |
| SellerOrders.Visible | frontend/src/pages/SellerOrders.tsx:90-92 | An empty search keeps every order; otherwise only orders whose e-mail contains the search, ignoring case, are kept. |
| SellerOrders.VisibleMembers | frontend/src/pages/SellerOrders.tsx:90-92 | An order is kept exactly when it is on the page and matches. |
| SellerOrders.SearchIgnoresCase | frontend/src/pages/SellerOrders.tsx:91 | Searching the uppercased text finds the same orders. |
| SellerOrders.TableRows | frontend/src/pages/SellerOrders.tsx:245-272 | The table shows exactly the export's filtered orders. |
| SellerOrders.SummaryRows | frontend/src/pages/SellerOrders.tsx:100-107 | There is one summary row per filtered order, in order, with the item count. |
| SellerOrders.BuildItemRows | frontend/src/pages/SellerOrders.tsx:110-124 | The nested `forEach` pushes compute `ItemRows`. |
| SellerOrders.ExportToExcel | frontend/src/pages/SellerOrders.tsx:84-137 | No workbook is written without data or with no matching order. Otherwise the workbook holds the summary rows and the item rows. |
| SellerOrders.EmptyStateIffNoExport | frontend/src/pages/SellerOrders.tsx:158 | The empty state shows exactly when export writes nothing, and a disabled button implies the empty state. |
| SellerOrders.ItemRowsLength | frontend/src/pages/SellerOrders.tsx:110-124 | The items sheet has as many rows as there are items. |
| SellerOrders.ItemRowsLocate | frontend/src/pages/SellerOrders.tsx:110-124 | Item `j` of order `k` is the row after all items of the earlier orders. |
| SellerOrders.OpenStatusDialog | frontend/src/pages/SellerOrders.tsx:57-61 | The dialog opens on the order, with its current status preselected. |
| SellerOrders.StatusUpdate | frontend/src/pages/SellerOrders.tsx:63-81 | The update asks for the selected order and the picked status. |
| SellerOrders.UpdateNeedsAChange | frontend/src/pages/SellerOrders.tsx:374 | A freshly opened dialog cannot update. An enabled update always changes the status. |
| CompanyUsers.AvatarOf | frontend/src/pages/CompanyDetails.tsx:72-87 | The initials are the uppercased first letter of the name, then the first letter of the surname, else of the e-mail, else '?'. The colour is `PastelPalette[id % 15]` with JavaScript `%`, missing for negative ids not divisible by 15. The same function is in MyCompany.tsx:81-96. |
| CompanyUsers.JsRem | frontend/src/pages/CompanyDetails.tsx:80 | JavaScript's `%` truncates: the sign follows the dividend. |
| CompanyUsers.AvatarColoursRepeat | frontend/src/pages/CompanyDetails.tsx:80 | Ids 9 and 13 get the same colour, because the palette repeats one entry. |
| CompanyUsers.NegativeIdHasNoColour | frontend/src/pages/CompanyDetails.tsx:80 | Id -1 indexes the palette at -1 and gets no colour. |
| CompanyDetails.FirstIndex | frontend/src/pages/CompanyDetails.tsx:220 | `findIndex` gives the first position with the id, or -1 when there is none. |
| CompanyDetails.FindIndex | frontend/src/pages/CompanyDetails.tsx:220 | The search loop computes `FirstIndex`. |
| CompanyDetails.ToggleUserAvailability | frontend/src/pages/CompanyDetails.tsx:212-231 | The page's content becomes `Toggled` with the negated availability, and nothing happens without a page. |
| CompanyDetails.ToggleAbsentUnchanged | frontend/src/pages/CompanyDetails.tsx:220-221 | A user not on the page leaves it unchanged. |
| CompanyDetails.ToggleOffFilterRemovesFirst | frontend/src/pages/CompanyDetails.tsx:222-224 | When the new state leaves the filter, exactly the first entry with the id is removed and the rest keep their order. |
| CompanyDetails.ToggleInFilterUpdatesOnly | frontend/src/pages/CompanyDetails.tsx:225-226 | Otherwise only that entry's availability changes. |
| CompanyDetails.ToggleKeepsPageFiltered | frontend/src/pages/CompanyDetails.tsx:217-226 | A page matching the filter still matches it after a toggle. |
| CompanyDetails.AfterToggle | frontend/src/pages/CompanyDetails.tsx:233-244 | An emptied page with page > 0 steps back one page, never below 0. |
| CompanyDetails.LastUserLeavingStepsBack | frontend/src/pages/CompanyDetails.tsx:233-244 | Toggling the only user of a later page out of the filter steps back. |
| CompanyDetails.OpenEditUser | frontend/src/pages/CompanyDetails.tsx:184-193 | The form copies the user, with the first ten characters of the birth date. The director flag is set exactly for the DIRECTOR role in any case. |
| CompanyDetails.UpdateUserRequests | frontend/src/pages/CompanyDetails.tsx:195-210 | The PUT goes first. The promotion follows only when the PUT succeeded, the flag is set and the user was not a director. |
| CompanyDetails.UntouchedFlagNeverPromotes | frontend/src/pages/CompanyDetails.tsx:199-202 | Saving with the flag as opened never sends a promotion. |
| QueryParams.SearchParam | frontend/src/pages/CompanyDetails.tsx:137 | The trimmed search is sent only when non-blank. |
| QueryParams.UserQueryOf | frontend/src/pages/CompanyDetails.tsx:135-137 | The user query always carries page, size, company and availability, plus `fullName` exactly for a non-blank search, and then its value is the trimmed search. |
| TokenUser.FirstTruthy | frontend/src/pages/MyCompany.tsx:131 | `a \|\| b \|\| c` gives the first truthy value, and none when all are falsy. |
| TokenUser.EmailClaim | frontend/src/pages/MyCompany.tsx:127-136 | The e-mail is `sub`, else `email`, else `username`; there is none without decodable claims. The same function is in Profile.tsx:59-69. |
| TokenUser.SubComesFirst | frontend/src/pages/Profile.tsx:64 | A truthy `sub` wins over `email` and `username`. |
| MyCompany.LoadCompany | frontend/src/pages/MyCompany.tsx:139-157 | Without an e-mail the load fails with 'User email not found in token' and makes no request. Otherwise it requests the company of that e-mail. |
| MyCompany.NoTokenNoCompany | frontend/src/pages/MyCompany.tsx:143-146 | No token, or an empty one, means no company request. |
| MyCompany.LoadUsers | frontend/src/pages/MyCompany.tsx:159-175 | Nothing is loaded without a company. The query carries page, size, company and availability, plus `fullName` exactly for a non-blank search, its value being `search.trim()`. |
| MyCompany.RemoveLogo | frontend/src/pages/MyCompany.tsx:262-266 | `logo_url` becomes null and every other edit field is kept. |
| MyCompany.RemoveLogoIdempotent | frontend/src/pages/MyCompany.tsx:262-266 | Removing twice is removing once. |
| MyCompany.SwitchIsCaseSensitive | frontend/src/pages/MyCompany.tsx:730-746 | A disabled availability switch always comes with the director badge. The converse fails: the switch compares the role exactly and the badge ignores case, so a 'director' gets the badge and an enabled switch. |
| Pagination.Indicator | frontend/src/components/Pagination.tsx:62-64 | The indicator shows the current page plus one, of `max(1, totalPages)`: the count is at least 1 and at least `totalPages`, and is one of the two. |
| Pagination.TargetsInRange | frontend/src/components/Pagination.tsx:22-71 | From a page in range, the component renders. Previous is disabled exactly on page 0 and next exactly on the last page, and every enabled button leads to a page in range. |
| Pagination.PagerAgreesWithComponent | frontend/src/pages/Categories.tsx:21-22 | `canPrev` (page > 0) and `canNext` (page + 1 < totalPages) agree with the component's rules. The same rules are in MyProducts.tsx:43-44 and AdminCompanies.tsx:71-72. |
| Pagination.UsersIndicator | frontend/src/pages/MyCompany.tsx:779 | The users pager shows '0 of 0' before a page loads. |
| Pagination.UsersPrevPage | frontend/src/pages/MyCompany.tsx:776 | Stepping back never goes below 0. |
| Pagination.ShownPagerHasAWayOut | frontend/src/pages/Categories.tsx:227-250 | A shown categories pager (more than one page) always has an enabled button. |
| ProductImages.FirstInvalid | frontend/src/pages/MyProducts.tsx:108-114 | This is the error of the first invalid file, and there is none exactly when all files are valid. |
| ProductImages.AddImages | frontend/src/pages/MyProducts.tsx:100-125 | A batch is all or nothing. Past five images it is refused with 'Максимум 5 изображений'; otherwise the first invalid file refuses it. An accepted batch is appended in order, and the list never exceeds five. The same handler is in AddProduct.tsx:69-96. |
| ProductImages.BatchRefusedOnlyForInvalidFile | frontend/src/pages/MyProducts.tsx:108-114 | A refused batch shows the validator's type or size message, never the fallback. |
| ProductImages.RemoveImage | frontend/src/pages/MyProducts.tsx:127-130 | Element `index` leaves both the files and the previews, and the rest keep their order. The same handler is in AddProduct.tsx:98-101. |
| ProductImages.RemoveUndoesAdd | frontend/src/pages/MyProducts.tsx:127-130 | Removing the image just added restores the list. |
| ProductImages.SafeProductName | frontend/src/pages/MyProducts.tsx:142 | Every character other than an ASCII letter or digit becomes '_'. |
| ProductImages.ProductFileNamesDistinct | frontend/src/pages/MyProducts.tsx:142 | Two files of one submission never share a name, whatever the clock reads. |
| ProductImages.UploadImages | frontend/src/pages/MyProducts.tsx:140-145 | Files are uploaded in order under their generated names, and the URLs keep that order. The first failure stops the loop. |
| ProductImages.SkuOf | frontend/src/pages/MyProducts.tsx:152 | The typed SKU is used, else 'SKU-' plus the timestamp. |
| ProductImages.ProductDtoOf | frontend/src/pages/MyProducts.tsx:147-156 | The create body carries the company, the form, the SKU and the uploaded URLs. |
| MyProducts.LoadProducts | frontend/src/pages/MyProducts.tsx:79-98 | Nothing is loaded without a company id. Otherwise the query carries company, page, size and availability, plus `name` exactly for a non-blank search, its value being `searchName.trim()`. |
| MyProducts.DoCreate | frontend/src/pages/MyProducts.tsx:132-176 | The company is checked before any upload. A created product has the company, the SKU and one URL per image, in order. A failed upload creates nothing. With a company and every upload succeeding, the product is created. |
| MyProducts.ToggleStatus | frontend/src/pages/MyProducts.tsx:196-203 | The request asks for the negation of `isActive`. |
| MyProducts.ToggleStatusTwice | frontend/src/pages/MyProducts.tsx:196-203 | Switching twice asks for the state the product started in. |
| AddProduct.InputChange | frontend/src/pages/AddProduct.tsx:64-67 | Only the named field changes. |
| AddProduct.LastEditWins | frontend/src/pages/AddProduct.tsx:64-67 | Two edits of one field keep the last value. |
| AddProduct.LoadCategories | frontend/src/pages/AddProduct.tsx:37-47 | The fetched page is discarded and a failure sets the error. |
| AddProduct.CategoriesStayEmpty | frontend/src/pages/AddProduct.tsx:37-47 | The category list stays empty. |
| AddProduct.HandleSubmit | frontend/src/pages/AddProduct.tsx:103-143 | Uploads come first. With all uploads done and no company, nothing is created and the company error is set. A created product carries every URL in order. |
| CartPage.PaymentMethodName | frontend/src/pages/Cart.tsx:97-107 | The six known codes get their labels; any other code is shown as it is. |
| CartPage.PaymentLabelsDistinct | frontend/src/pages/Cart.tsx:98-105 | Different known codes get different labels, and no label is itself a code. |
| CartPage.CheckoutNeedsOpenableDialog | frontend/src/pages/Cart.tsx:75-81 | Checkout proceeds only where the dialog could open; an empty cart never checks out. |
| CartPage.MinusRequest | frontend/src/pages/Cart.tsx:184-189 | Minus is disabled at quantity 1 or less and otherwise asks for one less, never below 1. |
| CartPage.PlusRequest | frontend/src/pages/Cart.tsx:204-209 | Plus is disabled at the stock and otherwise asks for one more, never above the stock. |
| CartPage.TypedRequest | frontend/src/pages/Cart.tsx:197-199 | A typed quantity is sent as at least 1 and is never lowered otherwise. The product page's field (ProductDetails.tsx:190) follows the same rule. |
| CartPage.ButtonsStayInStock | frontend/src/pages/Cart.tsx:184-209 | From a line within 1..stock, the buttons only ask for quantities within 1..stock. |
| CartPage.TypingIgnoresStock | frontend/src/pages/Cart.tsx:197-199 | A typed quantity is not bounded by the stock. |
| CartPage.UpdateQuantity | frontend/src/pages/Cart.tsx:42-51 | The request is sent only with a token and a loaded cart. |
| ProductDetails.Minus | frontend/src/pages/ProductDetails.tsx:181 | Minus gives `max(1, q - 1)`. |
| ProductDetails.Plus | frontend/src/pages/ProductDetails.tsx:197 | Plus gives `min(stock, q + 1)`. |
| ProductDetails.ButtonsKeepRange | frontend/src/pages/ProductDetails.tsx:174-201 | With the picker shown, the buttons keep a quantity within 1..stock. |
| ProductDetails.PlusPullsBackToStock | frontend/src/pages/ProductDetails.tsx:190-197 | A typed quantity over the stock is pulled back to the stock by '+'. |
| ProductDetails.StockGatesTheButton | frontend/src/pages/ProductDetails.tsx:174-210 | Out of stock, the picker is hidden and the button disabled; otherwise only a running request disables it. |
| ProductDetails.AddToCart | frontend/src/pages/ProductDetails.tsx:62-71 | Nothing is sent without a product or a token; otherwise the product id and quantity are sent. |
| ProductDetails.SupplierInfo | frontend/src/pages/ProductDetails.tsx:43-50 | The supplier becomes the first company returned, only for a non-zero company id and a non-empty answer. |
| Products.CompanyLookupOf | frontend/src/pages/Products.tsx:64-71 | The lookup asks for page 0 of 100, with the trimmed search only when non-blank. |
| Products.CompaniesPayload | frontend/src/pages/Products.tsx:76 | The payload is `content`, else the body, else `[]`. |
| Products.AvailableCompanies | frontend/src/pages/Products.tsx:73-91 | A non-array payload lists nothing. A `null` element throws and empties the list. Otherwise the companies not marked unavailable are kept, in order. |
| Products.AvailableCompaniesMembers | frontend/src/pages/Products.tsx:80-82 | A company is listed exactly when it is in the payload and its availability is not `false`. A missing flag keeps it. |
| Products.PageWithoutContentListsNothing | frontend/src/pages/Products.tsx:76-82 | A page object without `content` is not an array, so it lists nothing. |
| Products.ProductQueryOf | frontend/src/pages/Products.tsx:97-106 | An empty name is not sent and other names are sent untrimmed. Availability is always true and the other filters pass through. |
| Products.ClearFilters | frontend/src/pages/Products.tsx:121-128 | Every filter is reset and the page goes to 0; the size stays. |
| Products.ClearedQueryIsUnfiltered | frontend/src/pages/Products.tsx:121-128 | After a reset the query is unfiltered, and a second reset changes nothing. |
| Products.SpacesAreSearchedFor | frontend/src/pages/Products.tsx:98 | A blank search of one space is sent as typed, unlike the trimmed searches elsewhere. |
| Categories.CategoryQueryOf | frontend/src/pages/Categories.tsx:28-29 | The query always carries page, size and availability, plus the trimmed name only when non-blank. |
| Categories.ToggleAvailability | frontend/src/pages/Categories.tsx:45 | The request asks for the negation of `isActive`. |
| Categories.ToggleAvailabilityTwice | frontend/src/pages/Categories.tsx:45 | Switching twice asks for the first state again. |
| Categories.OpenEdit | frontend/src/pages/Categories.tsx:75-81 | The edit form copies the name, and a missing description becomes ''. |
| Categories.DoUpdate | frontend/src/pages/Categories.tsx:63-73 | Nothing is sent without a category being edited. |
| Categories.UntouchedEditSendsCategory | frontend/src/pages/Categories.tsx:63-81 | Saving the dialog untouched sends the category's own values. |
| AdminCompanies.CompanyQueryOf | frontend/src/pages/AdminCompanies.tsx:78-80 | The query always carries page, size and availability, plus the trimmed name when non-blank and the type once chosen. |
| AdminCompanies.ToggleAvailability | frontend/src/pages/AdminCompanies.tsx:97 | The request asks for the negation of `availability`. |
| AdminCompanies.TypeLabel | frontend/src/pages/AdminCompanies.tsx:300 | ADMIN, BUYER and SELLER in any case get their labels; other types are shown raw. |
| AdminCompanies.TypeBadge | frontend/src/pages/AdminCompanies.tsx:301 | Only ADMIN and BUYER get their own badges; everything else gets the seller badge. |
| AdminCompanies.UnknownTypeLooksLikeSeller | frontend/src/pages/AdminCompanies.tsx:300-301 | 'CUSTOMER' is shown raw under the seller badge. |
| AdminCompanies.LabelIgnoresCase | frontend/src/pages/AdminCompanies.tsx:300 | 'seller' is labelled like 'SELLER'. |
| AdminCompanies.OpenEditor | frontend/src/pages/AdminCompanies.tsx:345 | The editor copies the company, with '' for a missing logo. |
| AdminCompanies.DoUpdate | frontend/src/pages/AdminCompanies.tsx:141-165 | The logo is replaced by the optimised uploaded URL only for a newly selected file; otherwise the form is sent as edited. A failed upload sends nothing. |
| AdminCompanies.UploadedLogoIsDisplayReady | frontend/src/pages/AdminCompanies.tsx:148-153 | A newly uploaded logo is already in display form. |
| AdminCompanies.UntouchedEditorSendsEmptyLogo | frontend/src/pages/AdminCompanies.tsx:345 | Saving a logo-less company without choosing a file sends '' as its logo. |
| Profile.Or | frontend/src/pages/Profile.tsx:94-100 | `v \|\| fallback`. |
| Profile.LoadProfile | frontend/src/pages/Profile.tsx:75-136 | Without an e-mail no profile is set. A failed request or a null body falls back to id 0 with the token's e-mail. Otherwise the id is the response's; each truthy name, surname, birth date and e-mail is kept; falsy name, surname and birth date become ''; and a falsy e-mail becomes the token's. |
| Profile.ProfileUpdate | frontend/src/pages/Profile.tsx:138-157 | A falsy id refuses the update before any request, with the generic message. Otherwise the profile is PUT to its id. |
| Profile.FallbackNeverSaved | frontend/src/pages/Profile.tsx:116-144 | A fallback profile can never be saved. |
| Profile.PasswordChange | frontend/src/pages/Profile.tsx:159-192 | Different new passwords are refused before any request. The e-mail is the profile's when truthy, else the context's; the change fails exactly when neither is truthy, and the request carries the form. |
| Profile.AfterPasswordSaved | frontend/src/pages/Profile.tsx:180-184 | All three password fields are cleared. |
| Profile.LoadedProfileCanChangePassword | frontend/src/pages/Profile.tsx:173-185 | Once a profile is loaded, matching passwords always reach the request, with the profile's e-mail, whatever e-mail the auth context holds. |
| Profile.UnloadedProfileUsesTokenSubject | frontend/src/pages/Profile.tsx:173-174 | Without a loaded profile the change goes to the auth context's e-mail: it reaches the request exactly when the token's `sub` is truthy, and uses that `sub`. |
| Login.Submit | frontend/src/pages/Login.tsx:19-36 | A submit clears the error and marks the form submitted. The request is made exactly when neither field is blank after trimming, and it carries the untrimmed fields. |
| Login.RefusedSubmitFlagsABlankField | frontend/src/pages/Login.tsx:16-27 | Nothing is flagged before a submit, and a refused submit flags a blank field. |
| Login.PaddedEmailSentAsTyped | frontend/src/pages/Login.tsx:31-35 | ' a' is sent with its space. |
| Login.TokensOf | frontend/src/pages/Login.tsx:36 | Reading the tokens fails exactly for a null body; any other body yields its `accessToken` and `refreshToken` properties. |
| Login.Settle | frontend/src/pages/Login.tsx:30-39 | `login` is called exactly when the request answered with a non-null body, with that body's two tokens. A rejected request shows the message chain with the fallback 'Ошибка входа'. |
| Login.NullBodyNeverLogsIn | frontend/src/pages/Login.tsx:36-38 | A null body never reaches `login`: the form shows the thrown error's message, or the fallback when that is empty. |
| Login.MissingTokenStoredAsUndefined | frontend/src/pages/Login.tsx:36 | A body without `accessToken` still reaches `login`: the session is not authenticated, but the stored text is "undefined", a non-empty token that a reload takes over. |
| Json.ErrorMessage | frontend/src/pages/Login.tsx:38 | The shown error is the server's message, else the error's, else the page's fallback. The same chain is used by Categories, AdminCompanies and the other pages. |

## Left out

- Rendering, routing, React hooks and effects, and debounce timers are left out; only the rules they apply are modelled.
- Network transport, axios configuration, `productService` and Cloudinary are left out; their answers are inputs (`None` is a failure).
- Promise scheduling in `api.ts` is left out. Each `await` is a start step and a settle step, and no interleaving beyond them is modelled.
- JWT decoding (base64, JSON, signatures) is left out. It is an input function from token to JSON claims.
- Api.ExtractMessage: the `catch {}` around extraction (api.ts:104) cannot be reached on JSON values. `undefined`, functions and BigInt cannot occur, so extraction never throws in the model.
- Numbers are integers, so `parseFloat`, `parseInt`, fractions and floating-point sums of money are not modelled. Texts that do not spell an integer coerce to NaN (`Json.TextNumber`).
- Api.IsTokenExpired: an `exp` text written with a fraction, an exponent, hexadecimal digits or `Infinity` is read as NaN (never expired), where JavaScript reads it as a number.
- Api.ValueTexts: `Object.values` lists integer-like keys first, in ascending order, then the other keys in insertion order. The model lists all keys in insertion order, so the order of an `errors` object's lines differs when it has integer-like keys.
- AuthContext.ExtractRolesFromJwt: `Object.values(v).forEach(push)` (AuthContext.tsx:40) visits integer-like keys first, in ascending order; `AuthContext.Push` and `RolesOf` walk an object claim's fields in insertion order, so for such an object the deduplicated roles can come out in another order (the same set of roles).
- Api.ExtractMessage: an object with integer-like keys is stringified in insertion order, not with those keys first. `Json.Lookup` returns the first of duplicate keys, where `JSON.parse` keeps the last; parsed bodies with duplicate keys are not modelled.
- `toLocaleDateString` day keys are an input function to (day, month). `formatDate`, `formatCurrency` and the PDF and Excel file writers are not modelled.
- Character codes are code points, not UTF-16 units, and case mapping is ASCII only.
- Object keys that collide with prototype properties (`__proto__`) are not modelled.
- The order in which `FileReader` previews arrive is not modelled; only the file list is.
- `handleRemoveItem`, `handleClearCart` (browser `confirm`), order creation and the alerts of Cart.tsx are not modelled.
- The filter of active categories in SalesStatistics.tsx (line 72) is not modelled; only its orders and figures are.
- `Json.ErrorMessage` takes the error's `message` and the response's `message` as inputs. How a thrown `Error` or an axios error carries them is not modelled.
- The company and user creation dialogs and the logo previews of AdminCompanies.tsx and MyCompany.tsx are not modelled, apart from `removeLogo` and the update logo rule.

## Source behaviour worth noting

- Only a failed call to the refresh endpoint removes both tokens (api.ts:74-76). With no refresh token stored, `refreshAccessToken` emits force-logout and leaves storage alone (api.ts:57-60) (`Api.RefreshOutcomes`).
- A string element of an `errors` array has no `message`, so it is shown as its JSON text, quotes included (api.ts:98) (`Api.StringErrorsAreQuoted`).
- A refresh body that is not a string is kept as it came: it is stored as `String(body)` and returned unchanged (api.ts:67-68) (`Api.NonStringBodiesKeptAsTheyCame`).
- A token payload without `exp` is not expired in the code, because `undefined <= n` is false (`Api.NoExpClaimNeverExpires`).
- A login answer without `accessToken` is passed to `login` unchecked (Login.tsx:36). Storage then holds the text "undefined", which a reload takes over as a signed-in token (AuthContext.tsx:63-69) (`Login.MissingTokenStoredAsUndefined`).
