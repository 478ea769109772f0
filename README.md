# Top-hits playlist generator: a Dafny model of its request pipeline

The generator is a small Flask application. It sends the user to Spotify to
grant access, exchanges the returned code for an access token, reads the
artists the user follows, collects each artist's top tracks, creates a
private playlist and adds the tracks to it in posts of at most 100. This
project models that pipeline, which is the callback handler
`generate_playlist` and the helpers it calls, with every HTTP call
replaced by an oracle that gives the reply's status and parsed body.

Modules, one per component:

- `Common`: identifiers, Python truthiness, and the outcome of a piece of
  code, `Exec`. An outcome is a value, a `KeyError` raised by indexing a
  JSON body, or `OutOfFuel`, meaning a loop is still running.
- `Authorizer`: the authorization URL and the token exchange.
- `Identity`: the current user's id, with its error text returned in the
  same slot.
- `FollowList`: the paginated follow-list loop, as a method proved against
  a spec function.
- `TopHits`: the nested per-artist loop, as a method proved against a spec
  function.
- `PlaylistCreator`: playlist creation, the default name and the name
  fallback.
- `Populator`: the buffer-and-flush loop, as a method proved against
  `Batches` and `FailureMessages`.
- `Orchestration`: `generate_playlist`. It returns the session summary as
  a record, together with a `Trace` of the requests made, one field per
  endpoint, in call order.

Oracles: `following` and `addItems` give the reply to the `k`-th request to
their endpoint. `topTracks` gives the reply for an artist. The token, user
and creation endpoints are called at most once, so each takes a single
reply. A JSON object is reduced to the one field the code reads. So
follow-list items become artist ids and tracks become URIs.

Behaviour that the code has and a tidier description of the system would
not:

- The six locals written `None,` with a trailing comma start as the tuple
  `(None,)`, which is truthy and of length 1. A run without a code
  therefore reports a valid token, one artist and one song. An authorized
  run with no followed artists reports one song.
- `get_artists` stops only when a page reports `total <= 0`. The service's
  `total` is the grand total, so a non-empty follow list keeps it looping
  for ever. `FollowList.PositiveTotalsNeverReturn` proves this for every
  fuel bound.
- `get_top_hits` never looks at the status. A reply without `tracks`
  raises `KeyError`, and the handler ends before writing any summary.

## Model

| member | source | states |
|---|---|---|
| `Populator.AddTopHitsToPlaylist` | top_hits_spotify_playlist.py:215-239 | the posts made are exactly `Batches(topHits)` and concatenate back to `topHits`; the errors are the messages of the non-201 replies to those posts, in post order |
| `Populator.BatchesFlatten` | top_hits_spotify_playlist.py:223-237 | concatenating the posted batches in order gives the input: no URI is lost, duplicated or reordered |
| `Populator.BatchesSizes` | top_hits_spotify_playlist.py:225-228 | every batch holds 1 to 100 URIs, and every batch but the last holds exactly 100 |
| `Populator.BatchesCount` | top_hits_spotify_playlist.py:220-239 | the number of posts is ceil(n / 100), so an empty list makes no post |
| `Populator.BatchAt` | top_hits_spotify_playlist.py:223-237 | batch j is the slice of the input from 100·j to the next multiple of 100 or the end |
| `Populator.FailureMessagesAppend` | top_hits_spotify_playlist.py:233-237 | the messages of a run of replies are those of its first part followed by those of the rest, so a failure does not stop later posts being reported |
| `Populator.FailingPositionsExact` | top_hits_spotify_playlist.py:233-234 | the failing positions are exactly the replies whose status is not 201, in increasing order |
| `Populator.FailureMessagesOfFailures` | top_hits_spotify_playlist.py:233-234 | there is one message per failing reply, and message k is the `error.message` of the k-th failing reply |
| `TopHits.GetTopHits` | top_hits_spotify_playlist.py:196-212 | the nested loops return what `TopHits` gives; the artists requested are the input list up to and including the first reply without `tracks` |
| `TopHits.TopHitsConcatenates` | top_hits_spotify_playlist.py:202-212 | when every reply has tracks, the result is the concatenation of the artists' track lists in artist order; its length is the sum of their lengths |
| `TopHits.TopHitsUniformCount` | top_hits_spotify_playlist.py:202-212 | N artists with M tracks each give N·M URIs |
| `TopHits.TopHitsRaisesIffMissing` | top_hits_spotify_playlist.py:205-210 | the code raises `KeyError('tracks')` exactly when some artist's reply lacks `tracks`, and otherwise returns |
| `TopHits.TopHitsIgnoresStatus` | top_hits_spotify_playlist.py:202-212 | the status is never consulted: replies that agree on `tracks` give the same result and the same requests, whatever their statuses |
| `FollowList.GetArtists` | top_hits_spotify_playlist.py:163-193 | the result is `FollowedArtists`. A non-200 first page gives `[]`. A first page with `total <= 0` gives its items. Each later request carries the cursor of the latest 200 page, so a failed page is requested again |
| `FollowList.FollowLoop` | top_hits_spotify_playlist.py:179-188 | the loop never raises, and the items it holds are a prefix of what it returns: it only ever appends |
| `FollowList.FollowLoopExit` | top_hits_spotify_playlist.py:179-188 | a loop that returns has met a first 200 page with `total <= 0`, and it returns the items of every 200 page up to that one |
| `FollowList.FollowedArtistsExit` | top_hits_spotify_playlist.py:171-193 | after a first page with a positive total, `get_artists` returns only once some later 200 page reports `total <= 0`; it then returns the items of all 200 pages up to that one, in order |
| `FollowList.FollowLoopReturns` | top_hits_spotify_playlist.py:179-188 | conversely, once a 200 page with `total <= 0` arrives within the fuel, the loop returns the items of every 200 page up to that one |
| `FollowList.FollowedArtistsReturns` | top_hits_spotify_playlist.py:171-193 | after a first page with a positive total, `get_artists` returns as soon as a later 200 page reports `total <= 0`, with the items of all 200 pages up to that one |
| `FollowList.FollowLoopNeverExits` | top_hits_spotify_playlist.py:179-188 | if every 200 page reports a positive total, the loop is still running after any number of iterations |
| `FollowList.PositiveTotalsNeverReturn` | top_hits_spotify_playlist.py:171-188 | a service that reports a positive grand total on every page keeps `get_artists` from returning, whatever the fuel |
| `Authorizer.GetAuthUrl` | top_hits_spotify_playlist.py:90-97 | the URL's length is that of its fixed head and tail plus the client id |
| `Authorizer.AuthUrlRoundTrip` | top_hits_spotify_playlist.py:90-97 | the URL starts at the authorize endpoint, and the client id read back from between its fixed head and tail is the configured one (unset prints as "None") |
| `Authorizer.GetAccessToken` | top_hits_spotify_playlist.py:100-115 | a token is returned exactly on a 200 reply, and it is the reply's `access_token` |
| `Identity.GetUserId` | top_hits_spotify_playlist.py:125-144 | a 200 reply gives its id. Any other reply gives " error message: " followed by `error.message` if the raw body contains "error", else followed by the raw body |
| `Identity.UserIdIsAmbiguous` | top_hits_spotify_playlist.py:134-144 | a failed lookup and a successful one can return the same string, so the result alone cannot tell them apart |
| `PlaylistCreator.CreateTopHitsPlaylist` | top_hits_spotify_playlist.py:147-160 | a playlist id is returned exactly on a 201 reply, and it is the reply's `id` |
| `PlaylistCreator.DecimalString` | top_hits_spotify_playlist.py:12 | the text of the year as the f-string gives it: at least one decimal digit, the digits spell the number, and there is no leading zero |
| `PlaylistCreator.DefaultPlaylistName` | top_hits_spotify_playlist.py:12 | the default name is "My Artist's Top Hits " followed by decimal digits that spell the year, with no leading zero, so it is never empty |
| `PlaylistCreator.PlaylistName` | top_hits_spotify_playlist.py:49 | the session's name when it is present and non-empty, else the default; the name is non-empty whenever the default is |
| `Orchestration.GeneratePlaylist` | top_hits_spotify_playlist.py:33-71 | without a code, nothing is requested and the summary reads valid token, 1 artist, 1 song, no errors. A failed exchange makes only the token request. Once authorized, the follow-list requests are the first page and then the page after the cursor of the latest 200 page. Top tracks are requested only for a non-empty artist list, in artist order, up to the first reply without tracks. With no followed artists, no playlist is made and 1 song is reported. The playlist is created, with the looked-up user id and the chosen name, exactly when the run is authorized, the artist list is non-empty and every artist's reply has tracks. Tracks are added exactly when, in addition, there are hits and a non-empty playlist id; the posts are then the 100-URI batches of the hits. The counts are real once the playlist is created. Errors are reported only when tracks were added. A reply without tracks raises before any summary is written |

## Left out

- Flask routing, template rendering, redirects and the landing and results handlers (lines 18-28, 74-87): presentation glue. The session is read only for the chosen playlist name, which is a parameter. The writes at lines 63-69 are the returned `Summary`.
- HTTP requests, headers, JSON decoding and the base64 encoding of the client credentials (`encode_string`, lines 118-122): these are network I/O and a library call. Each reply is an oracle value. The requests are recorded in a `Trace` by what they carry (code, cursor, artist, owner and name, playlist and URIs), without headers.
- Environment variables, the Flask secret key and `date.today()` (lines 8-15): process configuration and the clock. The client id and the year are parameters.
- `FollowList.GetArtists`: the loop runs at most `fuel` times, and `OutOfFuel` stands for a Python loop that is still running. The model shows that the loop need not stop. It does not model the hang itself.
- Indexing errors other than the missing `tracks` key are not modelled: a body without `artists`, `access_token`, `id` or `error.message`. The model assumes those bodies have the fields the code reads.
- Python's JSON `null` for `total`, `items`, `id` or `access_token` is not modelled; these are typed as present values.
