# hatchery's Last.fm client, modelled in Dafny

hatchery downloads a Last.fm user's scrobble history, loved tracks and
friends list. This project models the core of that download, the `LastFM`
client in `src/api.rs`. It has three parts:

- **Request signing** (`get_signature`, `build_query`). The parameter
  pairs are sorted by key with the standard library's stable sort. Each key
  is written immediately followed by its value, the shared API secret is
  appended, and the MD5 hex digest of that string is sent as `api_sig`.
  `build_query` appends `method`, `api_key`, `api_sig` and `format=json` to
  the caller's pairs, in that order.
- **The paginated, retrying fetch.** The source writes it three times:
  `recent_tracks`, `loved_tracks` and `friends`. The copies differ only in
  the API method, the page size (200, 200, 50) and the page type. It asks
  for page 1, 2, … and stops once the page number passes the largest
  `totalPages` reported so far. A failed request or an undecodable page is
  retried for the same page. Three failures in a row abort with
  `RequestError` and drop everything fetched so far.
- **Session acquisition** (`authenticate`). It posts a signed
  `auth.getMobileSession` request and sets `session_key` from the JSON
  reply's `session.key`. When that key is missing it fails with
  `AuthError`.

The files:

- `records.dfy` (module `Records`) holds the response records as plain
  datatypes, and the client's errors.
- `signing.dfy` (module `Signing`) holds the key order and the stable sort
  by key (`SortByKey`). It also holds the pre-image and signature, the
  signed query and the server's check of a signature, with lemmas for each.
- `pagination.dfy` (module `Pagination`) holds the declarative meaning of
  the fetch loop. The server is a script of replies, one per request.
  `Pages`, `Flatten`, `KnownTotal` and `TrailingFailures` give what the
  loop knows after the first `n` replies. `IsRun(replies, n, r)` says that
  the loop consumes exactly `n` replies and returns `r`.
- `client.dfy` (module `Client`) holds the class `LastFM` with its mutable
  `sessionKey`. Its methods are `GetSignature` (the `push_str` loop),
  `BuildQuery`, `Authenticate` and `PageRequest` (the signed query `get`
  sends for one page). `FetchPages` is the single generic `while` loop. It
  is proved to produce an `IsRun` result and to call `get` with the API
  method, the user, the page size and the page the replies so far lead
  to. `RecentTracks`, `LovedTracks` and `Friends` are the three
  instances, each with its own method name and page size.

MD5 with its hexadecimal formatting is the function value `hexDigest`,
given to the constructor. Nothing is assumed about it: every signature
property is stated about the string that is hashed.

## Model

| member | source | states |
|---|---|---|
| Signing.BelowIrreflexive | src/api.rs:234 | no key sorts strictly before itself |
| Signing.BelowTransitive | src/api.rs:234 | the key order is transitive |
| Signing.BelowTotal | src/api.rs:234 | of two different keys, one sorts strictly before the other (the order is total, like Rust's `String` order) |
| Signing.InsertByKey | src/api.rs:234 | inserting a pair keeps every pair and adds exactly that one (multiset) |
| Signing.InsertSorted | src/api.rs:234 | inserting into a key-sorted sequence leaves it key-sorted |
| Signing.SortByKey | src/api.rs:234 | `sort_by_key` on the key; its contract is carried by `SortByKeyPermutes`, `SortByKeySorted` and `SortKeepsEqualKeyOrder` (a stable sort) |
| Signing.SortByKeyPermutes | src/api.rs:234 | `sort_by_key` is a permutation of its input |
| Signing.SortByKeySorted | src/api.rs:234 | `sort_by_key` orders the pairs ascending by key |
| Signing.InsertKeepsEqualKeyOrder | src/api.rs:234 | inserting a pair puts it after every pair already there with the same key |
| Signing.SortKeepsEqualKeyOrder | src/api.rs:234 | the sort is stable: for every key, the pairs with that key keep their input order |
| Signing.SortedUnique | src/api.rs:234 | two key-sorted permutations of each other are equal when equal keys carry equal values |
| Signing.SortIgnoresOrder | src/api.rs:234 | reordering the input pairs does not change the sorted result when equal keys carry equal values (in particular when all keys are distinct) |
| Signing.ConcatAt | src/api.rs:236-239 | in the pre-image each pair's key is immediately followed by its value, between the pairs before and after it, with no separator |
| Signing.SignatureIgnoresOrder | src/api.rs:233-244 | the pre-image and the signature are the same for any reordering of the pairs, when equal keys carry equal values |
| Signing.SameKeyPairKeepsOrder | src/api.rs:234 | two pairs with one key come out of the sort as they went in |
| Signing.DuplicateKeysKeepOrder | src/api.rs:233-240 | with a duplicated key, the two pairs enter the pre-image in input order, so swapping them swaps their contributions; with different values the signature can then depend on their order |
| Signing.SignedQueryLayout | src/api.rs:247-252 | the signed query is the caller's pairs unchanged, then exactly `method`, `api_key`, `api_sig`, `format=json`; the signature covers the caller's pairs, `method` and `api_key` |
| Signing.SignedQueryVerifies | src/api.rs:247-252 | a server that drops `api_sig` and `format`, signs the rest and compares accepts the query, provided the caller's pairs use neither name |
| Pagination.RequestedPagesAdvance | src/api.rs:318-331 | the requested page never goes back and rises by at most one per reply; after a failure the same page is requested again, after a page the next one |
| Pagination.FailuresKeepProgress | src/api.rs:354-358 | a run of failed attempts keeps the page, the accumulated records and the known total, and adds one failure per attempt |
| Pagination.KnownTotal | src/api.rs:333-346 | the known total is 0 before any page and never below the `totalPages` the latest page reported; `KnownTotalNeverShrinks` and `KnownTotalIsLargestReported` give the rest |
| Pagination.KnownTotalNeverShrinks | src/api.rs:333-346 | the known total page count never decreases |
| Pagination.KnownTotalIsLargestReported | src/api.rs:333-346 | the known total is 0 before any page, and afterwards the largest `totalPages` any page has reported |
| Pagination.TrailingFailuresShape | src/api.rs:329-330 | the failure count is the number of failed attempts since the last successful page; earlier failures never count |
| Pagination.KnowledgeIsPrefixOnly | src/api.rs:308-363 | what the loop knows after `n` replies, and whether it stops there, depends on those replies only |
| Pagination.UnfinishedBelowTotal | src/api.rs:348-351 | while the loop has not finished, it has fetched no page or fewer pages than the known total |
| Pagination.AbortIsThreeFailuresInARow | src/api.rs:354-361 | an aborted fetch returns `RequestError` with no records, after exactly three failed attempts in a row for one page, preceded by a page if anything precedes them |
| Pagination.OkHasEveryPage | src/api.rs:326-351 | a successful fetch ends on a page and returns the records of all successful pages in order, having fetched every page up to the known total (at least one) |
| Pagination.RunIgnoresLaterReplies | src/api.rs:348-360 | after the loop stops, further replies change neither the result nor the number of requests |
| Pagination.RunIsDeterministic | src/api.rs:308-363 | the replies determine the number of requests and the result |
| Pagination.AllPagesCounted | src/api.rs:326-346 | on a run of successful pages whose first reports `total` and none more, each page counts once, the known total is `total` and no failure is pending |
| Pagination.ReportedTotalIsFetched | src/api.rs:333-351 | a server that never fails and first reports `total` pages (never more later) is read for exactly `total` pages, and smaller later totals are ignored |
| Pagination.SinglePageSuffices | src/api.rs:304-351 | a first page reporting 0 or 1 total pages ends the fetch with that page's records |
| Pagination.FailuresInARowAbort | src/api.rs:329-361 | wherever the loop is, three failed attempts in a row abort it with `RequestError`: it stops once the failures since the last page reach three, which takes all three when the attempt before was a page or there was none |
| Pagination.ThreeFailuresAbort | src/api.rs:354-361 | three failures on the first page abort after three requests |
| Pagination.TwoFailuresThenSuccess | src/api.rs:326-358 | two failures then a single-page reply succeed with that page's records after three requests |
| Client.DecimalString | src/api.rs:323 | `page.to_string()` is a non-empty string of decimal digits with no leading zero unless the page is 0 |
| Client.DecimalRoundTrip | src/api.rs:323 | the `page` parameter is all decimal digits and reads back as the page number |
| Client.PageParams | src/api.rs:320-324 | the call-specific parameters of a page request; its contract is carried by `PageParamsNamePage` |
| Client.PageParamsNamePage | src/api.rs:320-324 | a page request's parameters are exactly the user, the page size, and a `page` value that reads back as the page asked for |
| Client.Replies | src/api.rs:318-333 | one reply per attempt; a failed request or an undecodable page is a failed attempt |
| Client.RecentTracksPage | src/api.rs:326-333 | a decoded history page as a reply; its contract is carried by `RecentTracksDecoded` |
| Client.RecentTracksDecoded | src/api.rs:326-333 | an attempt is a page exactly when the response decoded, and the page carries the response's tracks and its `total_pages` |
| Client.LovedTracksPage | src/api.rs:390-398 | a decoded loved-tracks page as a reply; its contract is carried by `LovedTracksDecoded` |
| Client.LovedTracksDecoded | src/api.rs:390-398 | an attempt is a page exactly when the response decoded, and the page carries the response's loved tracks and its `total_pages` |
| Client.FriendsPage | src/api.rs:455-462 | a decoded friends page as a reply; its contract is carried by `FriendsDecoded` |
| Client.FriendsDecoded | src/api.rs:455-462 | an attempt is a page exactly when the response decoded, and the page carries the response's friends and its `total_pages` |
| Client.LastFM.constructor | src/api.rs:223-231 | the endpoint is `http://ws.audioscrobbler.com/2.0`, the key and secret are as given, and there is no session key |
| Client.LastFM.GetSignature | src/api.rs:233-245 | the `push_str` loop yields the hex digest of the key-sorted pairs, each key followed by its value, with the secret appended |
| Client.LastFM.BuildQuery | src/api.rs:247-253 | the pushes yield the signed query whose layout `SignedQueryLayout` states |
| Client.LastFM.Authenticate | src/api.rs:283-300 | sends the signed `auth.getMobileSession` form with username and password; on a JSON reply it sets the session key to `session.key` and succeeds exactly when that is present, and otherwise fails with `AuthError`; a failed post or a body that is not JSON leaves the session key alone and fails |
| Client.LastFM.PageRequest | src/api.rs:318-324 | a page request is the signed query of `user`, `limit`, `page` for the API method, and its `page` value reads back as the page asked for |
| Client.LastFM.FetchPages | src/api.rs:302-364 | the loop consumes replies exactly as `IsRun` says, and its i-th call of `get` is for the given API method with the user, the page size and the page that the first i replies lead to |
| Client.LastFM.RecentTracks | src/api.rs:302-364 | every call is `user.getRecentTracks` for the user with limit 200 and the page the replies so far lead to, and the result is the `IsRun` result over the decoded responses |
| Client.LastFM.LovedTracks | src/api.rs:366-429 | every call is `user.getLovedTracks` for the user with limit 200 and the page the replies so far lead to, and the result is the `IsRun` result over the decoded responses |
| Client.LastFM.Friends | src/api.rs:431-493 | every call is `user.getFriends` for the user with limit 50 and the page the replies so far lead to, and the result is the `IsRun` result over the decoded responses |

## Notes on the code

- The three fetch loops are one routine, `FetchPages`, called with the
  method name, the page size and the page decoder of each.
- No "now playing" record is filtered out: every record of every
  successful page is returned.
- A record that fails to decode fails its whole page, which counts as a
  failed attempt.
- The signature is independent of input order when no key occurs twice
  with different values (`SignatureIgnoresOrder`). With a duplicated key,
  the stable sort keeps the pairs in input order in the pre-image
  (`DuplicateKeysKeepOrder`), so in general the signature depends on their
  order.

## Left out

- HTTP (`get`, `post`, `reqwest`). A request's outcome is a parameter: the
  script of replies for the fetches, or an `AuthReply` for `authenticate`.
- JSON decoding and the serde adapters. A response page is either decoded
  or `None`, and decoded records are given values.
- MD5 and its hexadecimal formatting are the opaque function value
  `hexDigest`.
- Logging (`log::info!`, `warn!`, `error!`) and `chrono` time handling are
  not modelled.
- `Client.LastFM.FetchPages` takes a finite script of replies. When the
  script ends while the loop would go on, it returns the model's own
  result `Unanswered`; the source would keep requesting.
- `Client.LastFM.FetchPages` returns each call of `get` as the method name
  and the unsigned parameters, as the loop passes them. The signed query
  that `get` builds from a page call is `PageRequest`, stated separately.
- `Client.LastFM.Authenticate`: any error from the post or from JSON
  decoding becomes `TransportError`. The source propagates the library's
  own error through `?`.
- Integer widths: `page`, `total_pages` and `failures` are unbounded
  naturals. `page += 1` and `failures += 1` cannot overflow in the model.
- `sort_by_key` is the standard library's stable merge sort. It is modelled
  by a stable insertion sort with the same result: key-sorted, a
  permutation, and equal keys in input order.
- Rust compares `String` keys by UTF-8 bytes. The model compares them by
  code point, which gives the same order.
- `src/main.rs`, `src/sql.rs`, `src/serialize.rs` and `src/fetch.rs` are
  not part of this model. They are command-line glue, database and file
  output, and a superseded draft of the fetch.
