# Spotify web controller: a Dafny model of its core

This project models the logic of a browser front end for the Spotify Web API.
It covers:

- **The session** (`src/utils/spotify.js`), which is OAuth 2.0 authorization
  code with PKCE over `localStorage`. It models:
  - the code verifier and its S256 challenge (sections 4.1 and 4.2 of RFC 7636);
  - the code exchange and the token refresh (sections 4.1.3 and 6 of RFC 6749);
  - the stored-token expiry test;
  - the request wrapper that refreshes once and retries once on a 401;
  - logout.
- **Share links** (`src/utils/queueEncoding.js`). A queue of track ids is joined
  with commas, passed through `btoa` and made URL-safe (section 5 of RFC 4648).
  `atob` follows the WHATWG forgiving-base64 decode.
- **The queue builder** (`src/components/QueueBuilder.jsx`): add, remove, move,
  clear, and the link statistics.
- **The live queue strip** (`src/components/LiveQueue.jsx`): seven slots built
  from the recent, current and upcoming tracks; the audio-features memo; the
  search box; the drag payload.
- **The playlist panel filter** (`src/components/PlaylistPanel.jsx`), with its
  drag payload.
- **The search page** (`src/components/Search.jsx`): the `m:ss` duration label,
  the blank-query guard, the album year, and the top-tracks guard.

Each source file is one module:

| Module | What it holds |
|---|---|
| `Auth`, `QueueEncoding`, `QueueBuilder`, `LiveQueue`, `PlaylistPanel`, `Search` | One module per source file above. |
| `Common` | `Option` and `Result`. `Result` carries the JavaScript exception a call throws. |
| `Strings` | The `String.prototype` operations the code uses. |
| `Decimal` | `String(n)` and `parseInt`. |
| `Base64` | `btoa`, `atob`, and the URL-safe rewriting. |
| `Sequences` | `filter` and `reverse`. |
| `Tracks` | The track object of the Web API. |

State the source changes step by step becomes imperative Dafny:

- `Auth.Session` is a class over the `localStorage` map.
- `QueueBuilder.QueueEditor` is a class whose `queue` field is a sequence.
- `LiveQueue.LiveQueueView` is a class whose `recent` field is an array that
  `.reverse()` flips in place.
- `Auth.GenerateRandomString` and `LiveQueue.PadSlots` keep the source's loops.

Each such method is proved equal to a pure step function, for example
`Auth.Exchange`, `Auth.SpotifyRequest`, `QueueBuilder.Added` or
`LiveQueue.Window`. The lemmas state what the source promises about those
functions.

Inputs the code cannot compute become parameters:

| Source | Parameter |
|---|---|
| `Date.now()` | `now` |
| `Math.random()` | `random`, an index below 62 |
| SHA-256 | `sha256`, an uninterpreted function |
| token endpoint replies | `tokenServer(k)` answers refresh number `k` of a request |
| Web API replies | `apiServer(k)` answers call number `k` of a request |
| search, top-tracks and audio-features replies | a value of their own |

## Model

| member | source | states |
|---|---|---|
| Auth.GenerateRandomString | src/utils/spotify.js:19-26 | The result has exactly the requested length, and character `i` is the alphabet character at the `i`-th random draw. |
| Auth.PossibleCharsUnreserved | src/utils/spotify.js:21 | The alphabet has 62 characters, all of them unreserved characters of RFC 3986. |
| Auth.GeneratedVerifierIsValid | src/utils/spotify.js:45 | Whatever the random draws, a generated 128-character string is a valid RFC 7636 code verifier. |
| Auth.Utf8OfAscii | src/utils/spotify.js:37-38 | On ASCII text, `TextEncoder` yields the code points themselves. |
| Auth.Base64UrlEncode | src/utils/spotify.js:30-35 | Only URL-safe base64 characters appear: no `+`, `/` or `=`. |
| Auth.Base64UrlDecodes | src/utils/spotify.js:30-35 | Restoring the alphabet and the padding decodes back to the input bytes. |
| Auth.CodeChallenge | src/utils/spotify.js:29-41 | The challenge contains no `+`, `/` or `=`. |
| Auth.ChallengeCarriesDigest | src/utils/spotify.js:29-41 | The challenge decodes to the SHA-256 digest of the verifier's ASCII bytes, as the server recomputes it. |
| Auth.HeadersMerge | src/utils/spotify.js:171-178 | `Authorization: Bearer <token>` and JSON `Content-Type` are the defaults. A caller header of the same name wins, `Authorization` included. No other key is added. |
| Auth.Headers | src/utils/spotify.js:171-178 | The headers are the caller's names plus `Authorization` and `Content-Type`, and every caller header keeps its value. |
| Auth.StoredAccessToken | src/utils/spotify.js:104-119 | A returned token is the stored one, and both it and the expiry are stored and non-empty. When both are stored but nothing is returned, the expiry reads as a number that `now` exceeds. |
| Auth.StoredTokenNeedsBoth | src/utils/spotify.js:105-111 | No token is returned without a non-empty stored token and expiry. A returned value is always the stored token. |
| Auth.StoredTokenExpiry | src/utils/spotify.js:113-118 | With a readable expiry, the token is returned iff `now <= expires_at`. So at the expiry instant it is still returned. |
| Auth.UnreadableExpiryNeverExpires | src/utils/spotify.js:113 | An expiry `parseInt` reads as `NaN` never expires the token, because `now > NaN` is false. |
| Auth.Exchange | src/utils/spotify.js:66-101 | Nothing is posted iff no verifier is stored. A failure leaves the store unchanged. A success removes the verifier and stores the access token, refresh token and expiry. |
| Auth.ExchangeFailures | src/utils/spotify.js:66-89 | Any failed exchange leaves the store unchanged. Without a verifier: 'No code verifier found', nothing posted. On a non-ok reply: 'Failed to get access token'. Otherwise the posted form carries the client id, the code, the redirect URI and the stored verifier. |
| Auth.ExchangeWrites | src/utils/spotify.js:93-99 | A success writes `access_token`, `refresh_token` and `expires_at = now + expires_in*1000`, removes `code_verifier` and keeps every other key. Missing members are written as "undefined" and "NaN". |
| Auth.TokenValidAfterExchange | src/utils/spotify.js:96 | Right after an exchange granting `e` seconds, the stored token is valid until `now + e*1000` inclusive and not after. |
| Auth.Refresh | src/utils/spotify.js:122-157 | Nothing is posted iff no refresh token is stored. A failure leaves the store unchanged. A success stores the access token it returns and keeps a non-empty refresh token. |
| Auth.RefreshFailures | src/utils/spotify.js:122-143 | Any failed refresh leaves the store unchanged. Without a refresh token: 'No refresh token found', nothing posted. On a non-ok reply: 'Failed to refresh access token'. It succeeds iff a refresh token is stored and the reply is ok. |
| Auth.RefreshWrites | src/utils/spotify.js:147-154 | A success overwrites the access token and the expiry. The refresh token is replaced only by a non-empty new one. Every other key, the verifier included, is kept. |
| Auth.TokenValidAfterRefresh | src/utils/spotify.js:149 | Right after a refresh granting `e` seconds, the stored token is valid until `now + e*1000` inclusive and not after. |
| Auth.SpotifyRequest | src/utils/spotify.js:160-199 | At most two API calls and two refreshes. No call at all means 'Authentication required'. A second call comes only after a refresh. |
| Auth.CallWithToken | src/utils/spotify.js:170-198 | One or two calls, the first carrying the token in hand. A second call always comes with one more refresh. |
| Auth.SpotifyRequestSteps | src/utils/spotify.js:160-168 | A stored token goes straight to the call. Without one, a refresh comes first: if it fails, the run ends with 'Authentication required', no call and one refresh; otherwise the call carries the refreshed token. |
| Auth.CallWithTokenFacts | src/utils/spotify.js:171-198 | With a token in hand there are one or two API calls. The first carries that token. A second call happens only after a 401 and a successful refresh. It carries the token that refresh returned, which is also the token the store now holds. Failures are 'Authentication required' unless the first call got no response. |
| Auth.RequestBounds | src/utils/spotify.js:160-199 | At most two refreshes and two API calls, the second of each only after a 401. No refresh happens iff a valid token was stored and no 401 came back. With a valid stored token, the first call carries it. Otherwise the first call carries the token the up-front refresh returned. A retry carries the access token the store holds at the end, which is the one the second refresh wrote. |
| Auth.FirstResponseReturned | src/utils/spotify.js:180-198 | A first response other than 401 is returned untouched after exactly one call. With a valid stored token, the store is also unchanged and no refresh happens. |
| Auth.UnauthorizedRetriedOnce | src/utils/spotify.js:180-196 | After a 401 the request refreshes once and retries once. The retry's answer, 401 included, is returned as it is. The retry carries the token the refresh after the 401 returned, and the store is the one that refresh left. |
| Auth.RequestFailures | src/utils/spotify.js:163-196 | Every failure is 'Authentication required', except that a first call with no response passes its rejection through. No call is made iff no valid token was stored and the refresh failed. |
| Auth.LogoutProperties | src/utils/spotify.js:202-207 | Logout removes exactly the four session keys, keeps the rest, and is idempotent. Afterwards no token is returned, and both refresh and exchange fail before posting. |
| Auth.Session.constructor | src/utils/spotify.js:3-5 | The redirect URI is the localhost callback on `localhost` and the deployed callback elsewhere. |
| Auth.Session.Authenticate | src/utils/spotify.js:44-62 | Stores a fresh 128-character verifier under `code_verifier` and changes nothing else. Returns the authorization request with the client id, redirect URI, scopes, `S256` and the verifier's challenge. |
| Auth.Session.GetAccessToken | src/utils/spotify.js:66-102 | The result and the new store are those of `Auth.Exchange` on the old store. |
| Auth.Session.RefreshAccessToken | src/utils/spotify.js:122-157 | The result and the new store are those of `Auth.Refresh` on the old store. |
| Auth.Session.MakeSpotifyRequest | src/utils/spotify.js:160-199 | The result, the new store, the calls made and the refresh count are those of `Auth.SpotifyRequest`. |
| Auth.Session.CallWithTokenInHand | src/utils/spotify.js:170-198 | With a token in hand, the result, the new store, the calls made and the refresh count are those of `Auth.CallWithToken`. |
| Auth.Session.Logout | src/utils/spotify.js:202-207 | The new store is the old one without the four session keys. |
| Auth.PkceBinding | src/utils/spotify.js:67-83 | The verifier stored by `authenticateSpotify` is the one the later exchange posts. Its S256 challenge is the one that was sent. |
| Base64.Encode | src/utils/queueEncoding.js:34 | Standard base64: a length that is a multiple of four, made of alphabet characters and `=`. |
| Base64.Btoa | src/utils/queueEncoding.js:34 | `btoa` succeeds iff every character is at most U+00FF. |
| Base64.Atob | src/utils/queueEncoding.js:54 | What `atob` returns is Latin-1 text. |
| Base64.AtobEncode | src/utils/queueEncoding.js:54 | `atob` inverts the encoding of any byte string. |
| Base64.AtobBtoa | src/utils/queueEncoding.js:34-54 | `atob(btoa(s)) == s` for every Latin-1 string. |
| Base64.UrlSafeNoPad | src/utils/queueEncoding.js:35-37 | No `+` or `/` remains, and no `=` ends the result. |
| Base64.RestorePadding | src/utils/queueEncoding.js:51 | Padding brings the length to a multiple of four and only appends. |
| Base64.RestoreUrlSafe | src/utils/queueEncoding.js:46-51 | Undoing the URL-safe rewriting of an encoding restores the standard encoding exactly. |
| Base64.UrlSafeRoundTrip | src/utils/queueEncoding.js:34-54 | URL-safe encoding, then restoring and decoding, gives the bytes back. |
| Base64.UrlSafeAlphabet | src/utils/queueEncoding.js:34-37 | A URL-safe encoding consists of URL-safe characters only. |
| Base64.UrlSafeBtoaRoundTrip | src/utils/queueEncoding.js:34-54 | The queue-link encoding of any Latin-1 text decodes back to it. |
| QueueEncoding.ExtractTrackId | src/utils/queueEncoding.js:4-10 | Input without the `spotify:track:` prefix comes back unchanged. An id taken from a prefixed URI contains no `:`. |
| QueueEncoding.ExtractTrackIdShape | src/utils/queueEncoding.js:4-10 | Without the `spotify:track:` prefix, the input is its own id. With it, the id is the text after the prefix up to the next `:` or the end. |
| QueueEncoding.BuildTrackUri | src/utils/queueEncoding.js:13-18 | The result always starts with `spotify:track:`. |
| QueueEncoding.BuildTrackUriIdempotent | src/utils/queueEncoding.js:13-18 | Building a URI twice changes nothing. |
| QueueEncoding.BuildExtractUri | src/utils/queueEncoding.js:4-18 | A URI with a `:`-free id extracts to that id and rebuilds to itself. |
| QueueEncoding.ExtractBuildId | src/utils/queueEncoding.js:4-18 | A `:`-free id survives building and extraction. |
| QueueEncoding.TrackIds | src/utils/queueEncoding.js:23-28 | There is one id per track: the id of the string, or of `uri \|\| id`. There are none when some track has neither. |
| QueueEncoding.EncodeQueue | src/utils/queueEncoding.js:21-40 | The output is URL-safe. Encoding succeeds iff every track has a key and the joined ids are Latin-1. Otherwise it throws the `TypeError` or the `btoa` error. |
| QueueEncoding.NonEmpty | src/utils/queueEncoding.js:57 | No empty id is kept. |
| QueueEncoding.DecodeQueue | src/utils/queueEncoding.js:43-65 | Decoding fails, with 'Invalid queue data', iff `atob` rejects the restored text. Every decoded entry is a `spotify:track:` URI. |
| QueueEncoding.IdsRecovered | src/utils/queueEncoding.js:57 | Splitting the comma-joined text and dropping empty pieces gives back non-empty, comma-free ids in order. |
| QueueEncoding.DecodeJoinedIds | src/utils/queueEncoding.js:31-58 | The URL-safe encoding of joined shareable ids decodes to their URIs. |
| QueueEncoding.DecodeEncodeQueue | src/utils/queueEncoding.js:21-65 | Round trip: a queue of shareable ids encodes, and decodes to their URIs in order. |
| QueueEncoding.BaseUrl | src/utils/queueEncoding.js:70 | The base is origin plus pathname, minus at most one trailing `/`. |
| QueueEncoding.GenerateShareUrl | src/utils/queueEncoding.js:68-72 | A link is produced iff the queue encodes, and it is the base URL, then `#share?q=`, then the encoded queue. Otherwise the encoding's error propagates. |
| QueueEncoding.ParseShareUrl | src/utils/queueEncoding.js:75-90 | An unparsable URL, or a hash without `share?q=`, gives `null`. Otherwise the result is what the text after the marker decodes to, and a decoding failure is swallowed into `null`. |
| QueueEncoding.GetQueueFromUrl | src/utils/queueEncoding.js:98-109 | No marker, or nothing after it, gives `null`. Otherwise the result is what the text after the marker decodes to. A decoding failure is thrown as 'Invalid queue data', not swallowed. |
| QueueEncoding.CalculateUrlLength | src/utils/queueEncoding.js:112-121 | The lengths are those of the encoding and of the link. `isWithinLimit` holds iff the link is under 2000 characters. `trackCount` is the queue length. |
| QueueEncoding.MarkerNotInEncoding | src/utils/queueEncoding.js:80-81 | An encoded queue never contains `share?q=`. |
| QueueEncoding.MarkerAfterHash | src/utils/queueEncoding.js:81 | In a share fragment the marker is first found right after the `#`. |
| QueueEncoding.SecondPieceOfShareFragment | src/utils/queueEncoding.js:81 | `split('share?q=')[1]` of a share fragment is exactly the encoded queue. |
| QueueEncoding.ParseShareFragment | src/utils/queueEncoding.js:75-90 | A share fragment parses to what its payload decodes to. |
| QueueEncoding.ParseGeneratedShareUrl | src/utils/queueEncoding.js:68-90 | A generated link parses back to the shared URIs, in order, when the base has no `#`. |
| QueueEncoding.ReadGeneratedShareUrl | src/utils/queueEncoding.js:68-109 | A generated link of a non-empty queue of shareable ids is read back by `getQueueFromUrl` as the shared URIs, in order, when the base has no `#`. |
| QueueEncoding.DecodeEmpty | src/utils/queueEncoding.js:57 | An empty payload decodes to the empty queue. |
| QueueEncoding.EmptyPayload | src/utils/queueEncoding.js:80-109 | On an empty payload the two readers disagree: `parseShareUrl` gives `[]` and `getQueueFromUrl` gives `null`. |
| Strings.SplitJoin | src/utils/queueEncoding.js:31-57 | `split(sep)` inverts `join(sep)` on separator-free parts. |
| Strings.BlankIffAllWhitespace | src/components/LiveQueue.jsx:39 | `!s.trim()` holds iff every character is JavaScript whitespace. |
| Decimal.ParseIntToString | src/utils/spotify.js:113 | `parseInt(String(n)) == n`, so an expiry stored as text reads back exactly. |
| Sequences.FilterIsSubsequence | src/components/PlaylistPanel.jsx:17-19 | `filter` keeps the order of what it keeps. |
| Sequences.Reversed | src/components/LiveQueue.jsx:269 | The reversal has the same length, with element `i` taken from position `n-1-i`. |
| Sequences.ReverseInPlace | src/components/LiveQueue.jsx:269 | `Array.prototype.reverse` leaves the array holding the reversal of its old contents. |
| Tracks.ArtistNamesEmpty | src/components/LiveQueue.jsx:143 | The `', '`-joined artist line is empty iff there is no artist, or only one without a name. |
| QueueBuilder.NewEntry | src/components/QueueBuilder.jsx:37-43 | Building the entry fails, as a `TypeError`, iff `artists`, `album` or `album.images` is missing. Otherwise it carries the track's id, uri and name. |
| QueueBuilder.Added | src/components/QueueBuilder.jsx:32-47 | A success extends the queue by at most one entry and keeps the old entries in front. A failure only happens for a track not yet queued. |
| QueueBuilder.AddedShape | src/components/QueueBuilder.jsx:32-47 | An already queued id changes nothing. Otherwise exactly one entry with the track's id, uri and name is appended. It fails iff the track lacks `artists`, `album` or `album.images`. |
| QueueBuilder.AddedKeepsDistinct | src/components/QueueBuilder.jsx:33-45 | Adding keeps the ids distinct, and afterwards the id is queued. |
| QueueBuilder.Removed | src/components/QueueBuilder.jsx:50-54 | No entry left has the id, and the queue never grows. |
| QueueBuilder.RemovedShape | src/components/QueueBuilder.jsx:50-54 | After removal no entry has the id. Every other entry stays, in order. Distinct ids stay distinct. |
| QueueBuilder.SpliceIndex | src/components/QueueBuilder.jsx:59-60 | `splice` reads a start in range as itself and a negative one from the end. The result lies within the length. |
| QueueBuilder.Moved | src/components/QueueBuilder.jsx:57-62 | The length is kept, and the entry taken from `fromIndex` lands at `toIndex`. |
| QueueBuilder.MovedAt | src/components/QueueBuilder.jsx:57-62 | Each position of the moved queue holds the entry from the computed source position. |
| QueueBuilder.MovedShape | src/components/QueueBuilder.jsx:57-62 | Moving keeps the length and the multiset of entries, and puts the moved entry at the target. Distinct ids stay distinct. |
| QueueBuilder.MovedDistinct | src/components/QueueBuilder.jsx:57-62 | Moving never duplicates an id. |
| QueueBuilder.EditsKeepDistinct | src/components/QueueBuilder.jsx:32-62 | Add, remove and move each preserve distinct ids. |
| QueueBuilder.QueueEditor.constructor | src/components/QueueBuilder.jsx:7-13 | The editor starts with an empty queue, no statistics, no link and the dialog closed. |
| QueueBuilder.QueueEditor.UpdateUrlStats | src/components/QueueBuilder.jsx:65-68 | Stores the statistics of the given queue. If encoding throws, the old statistics stay and the error is returned. |
| QueueBuilder.QueueEditor.AddToQueue | src/components/QueueBuilder.jsx:32-47 | The queue becomes `Added` of the old one, and the statistics are recomputed for it. |
| QueueBuilder.QueueEditor.RemoveFromQueue | src/components/QueueBuilder.jsx:50-54 | The queue becomes `Removed` of the old one, and the statistics are recomputed. |
| QueueBuilder.QueueEditor.MoveTrack | src/components/QueueBuilder.jsx:57-62 | The queue becomes `Moved` of the old one. The statistics are not recomputed. |
| QueueBuilder.QueueEditor.ClearAll | src/components/QueueBuilder.jsx:224-227 | Empties the queue and clears the statistics. |
| QueueBuilder.QueueEditor.GenerateShare | src/components/QueueBuilder.jsx:71-75 | Stores the share link of the queue and opens the dialog. If encoding throws, nothing changes. |
| LiveQueue.PadSlots | src/components/LiveQueue.jsx:275-277 | Pads with `null` to at least seven entries, keeping the given ones in front. |
| LiveQueue.Window | src/components/LiveQueue.jsx:268-349 | Exactly seven slots, and the first ones show the recent list as given, in order. |
| LiveQueue.Kind | src/components/LiveQueue.jsx:350-356 | A slot is 'recent' iff it lies before the recent count, and 'current' iff it sits at the count while a track plays. |
| LiveQueue.WindowLayout | src/components/LiveQueue.jsx:268-356 | Exactly seven slots. First the recent tracks, oldest first; then the current track, or an empty slot; then the upcoming tracks; then empty slots. A slot is 'recent' iff its index is below the recent count, and 'current' iff it is at the count and holds a track. |
| LiveQueue.FeaturesLookup | src/components/LiveQueue.jsx:120-133 | A hit answers from the cache without fetching. A successful miss stores and returns the fetched value. A failure returns `null` and stores nothing. Existing entries never change. |
| LiveQueue.LookupMemoises | src/components/LiveQueue.jsx:120-133 | After a successful lookup, the next one of the same id returns the same value from the cache. After a failure, it fetches again. |
| LiveQueue.DragPayload | src/components/LiveQueue.jsx:139-147 | The artist line is never empty and the type is 'song'. Id, uri, name and features are carried over. A non-empty image is the track's first image URL. |
| LiveQueue.DragPayloadDefaults | src/components/LiveQueue.jsx:139-147 | The artist line is 'Unknown Artist' iff the artists are missing, empty, or one nameless artist; otherwise it is the joined names. The image is `''` without a first image URL. The type is 'song'. |
| LiveQueue.LiveQueueView.constructor | src/components/LiveQueue.jsx:6-21 | An empty search state and an empty cache. |
| LiveQueue.LiveQueueView.RenderSlots | src/components/LiveQueue.jsx:268-277 | As written, `recent` is reversed in place, and the slots are the window over the reversed array. |
| LiveQueue.LiveQueueView.RenderSlotsFromCopy | src/components/LiveQueue.jsx:268-277 | Reading a reversed copy leaves `recent` untouched, and the slots are the window over its reversal. |
| LiveQueue.LiveQueueView.GetTrackAudioFeatures | src/components/LiveQueue.jsx:120-133 | The result and the new cache are those of `FeaturesLookup`. Nothing else changes. |
| LiveQueue.LiveQueueView.DragStart | src/components/LiveQueue.jsx:136-147 | The payload carries the features the lookup returns, and the cache is updated as the lookup says. |
| LiveQueue.LiveQueueView.SearchTracks | src/components/LiveQueue.jsx:38-57 | A request is sent iff the query is not blank. A blank query empties and hides the results. A success shows the items. A failure empties them and leaves the visibility as it was. `searching` ends false. |
| LiveQueue.LiveQueueView.HandleSearchInput | src/components/LiveQueue.jsx:60-61 | Records the typed text and changes nothing else. |
| LiveQueue.LiveQueueView.ClearSearch | src/components/LiveQueue.jsx:75-82 | Resets the query, the results and the visibility. |
| LiveQueue.SecondRenderFlips | src/components/LiveQueue.jsx:269 | Two renders of the same recent list `[a, ..., z]` with `a != z` show different first slots: `z`, then `a`. |
| LiveQueue.CopyRenderStable | src/components/LiveQueue.jsx:268-272 | Reading from a copy, slot `i` always shows recent track `n-1-i`, so the newest recent track is last. |
| PlaylistPanel.FilterPlaylists | src/components/PlaylistPanel.jsx:17-20 | The filtered list is no longer than the playlists, and every playlist in it matches the filter. |
| PlaylistPanel.FilterPlaylistsFacts | src/components/PlaylistPanel.jsx:17-20 | The filtered list is a subsequence of the playlists. A playlist is in it iff it is listed and its lowercased name contains the lowercased filter. |
| PlaylistPanel.EmptyFilterKeepsAll | src/components/PlaylistPanel.jsx:17-18 | An empty filter keeps every playlist. |
| PlaylistPanel.LowerAsciiIdempotent | src/components/PlaylistPanel.jsx:18 | Lowercasing twice equals lowercasing once. |
| PlaylistPanel.FilterIgnoresCase | src/components/PlaylistPanel.jsx:18 | A filter and its lowercase form list the same playlists. |
| PlaylistPanel.DragPayload | src/components/PlaylistPanel.jsx:92-98 | `image` is the first image's URL, or `null` without one. `trackCount` is the total, or 0 without `tracks`. `description` is the description, or `''`. |
| PlaylistPanel.EmptyMessage | src/components/PlaylistPanel.jsx:85-87 | A message shows iff the filtered list is empty. It is 'No playlists found' iff a filter is typed. |
| PlaylistPanel.EmptyMessageCases | src/components/PlaylistPanel.jsx:85-87 | 'No playlists available' shows iff there are no playlists and no filter. 'No playlists found' shows iff a filter is typed and nothing matches it. |
| Search.FormatDuration | src/components/Search.jsx:90-94 | The label has at least four characters, with the `:` third from the end. |
| Search.SecondsField | src/components/Search.jsx:92 | The seconds field of the remainder after whole minutes is at most 60; the field can reach 60 because the rounding does not carry into the minutes. |
| Search.SecondsFieldRounds | src/components/Search.jsx:92 | The seconds field is the remainder after whole minutes rounded half up to the second: it lies within half a second of that remainder. |
| Search.ClockReadBack | src/components/Search.jsx:93 | An `m:ss` label splits at its one `:` into digit strings that read back as the minutes and seconds. The seconds field is always two digits. |
| Search.FormatDurationReadBack | src/components/Search.jsx:90-94 | The label reads back as `floor(ms/60000)` minutes and the rounded seconds, with two seconds digits. |
| Search.SixtySecondsShown | src/components/Search.jsx:90-94 | The seconds field is "60" iff `ms % 60000 >= 59500`. |
| Search.UncarriedMinute | src/components/Search.jsx:90-94 | `formatDuration(59500) == "0:60"` and `formatDuration(119999) == "1:60"`. |
| Search.FormatDurationCarried | src/components/Search.jsx:90-94 | The corrected label has the same `m:ss` shape: at least four characters, with the `:` third from the end. |
| Search.CarriedReadBack | src/components/Search.jsx:90-94 | The corrected label never shows 60 seconds, and its minutes and seconds make up the duration rounded half up to the second. |
| Search.CarriedAgreesBelowHalf | src/components/Search.jsx:90-94 | Below 59.5 s into a minute, the corrected label equals the original. |
| Search.HandleSearch | src/components/Search.jsx:15-42 | A request is sent iff the query is not blank. A blank query changes nothing. Loading ends false. An ok reply replaces the results and clears the error. A non-ok reply or a rejection keeps the results and shows 'Search failed' or the rejection. |
| Search.WhitespaceQueryIgnored | src/components/Search.jsx:17 | A query of whitespace only sends nothing and changes nothing, and any other query is sent. |
| Search.ReleaseYear | src/components/Search.jsx:167 | The year is the prefix of the date up to the first `-`, or the whole date if there is none. |
| Search.ReleaseYearOf | src/components/Search.jsx:167 | The year of `year-rest` is `year`. |
| Search.PlayArtistTopTracks | src/components/Search.jsx:70-88 | A play request is sent iff the reply is ok and has tracks. It lists their URIs in order. |

## Left out

- Network I/O is not modelled. This covers `fetch`, response JSON parsing, URL and `URLSearchParams` encoding, and the `window.location.href` redirect. Replies are parameters, and the authorization request is a record.
- SHA-256 is an uninterpreted function parameter, `Math.random` an index oracle below 62, and `Date.now()` a parameter.
- One `now` serves a whole operation. `makeSpotifyRequest` reads the clock again inside the refresh it calls; the model uses the same instant for both reads.
- Concurrency is not modelled. This covers interleaved `makeSpotifyRequest` calls that refresh at the same time, and polling (`setInterval`, the visibility listener).
- Auth.Headers: header names are compared as exact map keys. `fetch` treats them case-insensitively.
- Auth.ExpiryText: `Number` arithmetic on `expires_in` is modelled on integers. A fractional `expires_in` and numbers at or above 10^21, which `String` prints in exponent notation, are outside the model.
- `toLowerCase` is modelled on ASCII letters only.
- `getCompleteQueue` and `getAudioFeatures` are imported by `src/components/LiveQueue.jsx`, but `src/utils/spotify.js` does not define them. They are not part of this model, and their results are inputs.
- The search debounce timer (`setTimeout` and `clearTimeout`) is not modelled. `HandleSearchInput` records the text; the delayed search is `SearchTracks`.
- `searchTracks` in `src/components/QueueBuilder.jsx` is not modelled. It is a REST call followed by `setState` and is not part of the modelled core.
- QueueBuilder.Moved: requires that `fromIndex` selects an entry. With an index out of range, `splice` removes nothing and then inserts `undefined`. Nothing in the UI calls `moveTrack`.
- QueueBuilder.QueueEditor.MoveTrack: requires that `fromIndex` selects an entry, for the same reason.
- PlaylistPanel.Playlist: a playlist without `name` cannot be represented. The filter would throw on it.
- PlaylistPanel.DragPayload: an `images[0]` with an `undefined` URL is not told apart from `null`. `JSON.stringify` drops the first and keeps the second.
- Search.ReleaseYear: a missing `release_date`, on which `split` throws, is not modelled.
- React rendering is not modelled. This covers JSX, `dataTransfer`, `JSON.stringify`, the clipboard and Web Share calls, the image choice for icons, `toLocaleString` follower counts, and the loading and error screens.
- `playTrack`, `playAlbum` and `fetchPlaylists` are not modelled; each is one REST call.
- `isShareUrl` is folded into `GetQueueFromUrl`.
- `QueueEncoding.Fragment` models `new URL(url).hash` only for URLs this module builds.

## Findings

| source | as written | input that shows it | evidently intended | confidence | as-written member | corrected member |
|---|---|---|---|---|---|---|
| src/components/LiveQueue.jsx:268-272 | `queueData.recent.reverse()` reverses the component's state array in place on every render. | Take `recent = [a, b]` with `a != b`. The first render shows `b, a`. Any later render of the same state shows `a, b`, for example one caused by typing in the search box. | Reverse a copy, so every render shows the recent tracks oldest first. | medium, not executed | LiveQueue.SecondRenderFlips | LiveQueue.LiveQueueView.RenderSlotsFromCopy |
| src/components/Search.jsx:90-94 | The seconds are rounded after the whole minutes are split off, with no carry. | `formatDuration(59500)` gives "0:60", and `formatDuration(119999)` gives "1:60". | "1:00" and "2:00": round the whole duration to seconds, then split it. | high, not executed | Search.UncarriedMinute | Search.FormatDurationCarried |
