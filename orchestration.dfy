/** The callback handler `generate_playlist`: code, then token, then
    artists, then top hits and playlist, then population, each step guarded
    by the truthiness of the previous result, and finally the summary the
    handler writes into the session.

    Six of its locals start as `None,` with a trailing comma, that is as the
    one-element tuple `(None,)`: truthy and of length 1. A step that does not
    run leaves its local at that tuple, and the summary is computed from it,
    so a run without an authorization code reports a valid token, one artist
    and one song. */
module Orchestration {
  import opened Common
  import Authorizer
  import Identity
  import FollowList
  import TopHits
  import PlaylistCreator
  import Populator

  /** A local of `generate_playlist` that starts as the tuple `(None,)`. */
  datatype Local<T> = NoneTuple | Assigned(value: T)

  /** Python truthiness of the access-token local. */
  predicate TokenTruthy(v: Local<Option<string>>)
  {
    v.NoneTuple? || TruthyOption(v.value)
  }

  /** Python `len` of a list local. */
  function Len<T>(v: Local<seq<T>>): nat
  {
    if v.NoneTuple? then 1 else |v.value|
  }

  /** The service's replies, one oracle per endpoint. `following` and
      `addItems` answer the `k`-th request to their endpoint (from 0);
      `topTracks` answers the request for an artist. */
  datatype Server = Server(
    token: Authorizer.TokenResponse,
    me: Identity.MeResponse,
    following: nat -> FollowList.FollowResponse,
    topTracks: ArtistId -> TopHits.TopTracksResponse,
    create: PlaylistCreator.CreatePlaylistResponse,
    addItems: nat -> Populator.AddItemsResponse)

  /** The requests a run of the handler makes, one field per endpoint, in
      the order the handler calls them: the code posted for a token, whether
      the current user was looked up, the follow-list pages, the artists
      whose top tracks were fetched, the user id and name the playlist was
      created with, the playlist the tracks were added to and the `uris` of
      each of those posts. */
  datatype Trace = Trace(
    tokenCode: Option<string>,
    userLookup: bool,
    followingPages: seq<FollowList.FollowRequest>,
    topTracksFor: seq<ArtistId>,
    createdWith: Option<CreateRequest>,
    populated: Option<string>,
    posted: seq<seq<TrackUri>>)

  /** The owner and name sent when creating the playlist. */
  datatype CreateRequest = CreateRequest(userId: string, name: string)

  /** A run that makes no request at all. */
  const NoRequests: Trace := Trace(None, false, [], [], None, None, [])

  /** The values `generate_playlist` stores in the session. */
  datatype Summary = Summary(
    isCallback: bool,
    userAllowedAuth: bool,
    validAccessToken: bool,
    playlistName: Local<string>,
    numOfArtists: nat,
    numOfSongsToAdd: nat,
    errorsEncountered: Option<seq<string>>)

  /** The code is present and non-empty, and it is exchanged for a non-empty token. */
  predicate Authorized(authCode: Option<string>, server: Server)
  {
    TruthyOption(authCode) && TruthyOption(Authorizer.GetAccessToken(server.token))
  }

  /** The artists `get_artists` returns, or `OutOfFuel`. */
  function Artists(server: Server, fuel: nat): Exec<seq<ArtistId>>
  {
    FollowList.FollowedArtists(server.following, fuel)
  }

  /** After the token check the run gets as far as creating the playlist: a
      non-empty artist list, and every artist's reply carries its tracks. */
  predicate CreateReached(server: Server, fuel: nat)
  {
    && Artists(server, fuel).Done? && |Artists(server, fuel).value| > 0
    && TopHits.TopHits(Artists(server, fuel).value, server.topTracks).Done?
  }

  /** The top hits of a run that reaches playlist creation. */
  function Hits(server: Server, fuel: nat): seq<TrackUri>
    requires CreateReached(server, fuel)
  {
    TopHits.TopHits(Artists(server, fuel).value, server.topTracks).value
  }

  /** Tracks are added to a created playlist when there are some and the
      creation gave a non-empty playlist id. */
  predicate PopulateGuard(hits: seq<TrackUri>, server: Server)
  {
    |hits| > 0 && TruthyOption(PlaylistCreator.CreateTopHitsPlaylist(server.create))
  }

  /** After the token check the run also populates the playlist. */
  predicate PopulateReached(server: Server, fuel: nat)
  {
    CreateReached(server, fuel) && PopulateGuard(Hits(server, fuel), server)
  }

  /** The whole run gets as far as creating the playlist. */
  predicate ReachesCreate(authCode: Option<string>, server: Server, fuel: nat)
  {
    Authorized(authCode, server) && CreateReached(server, fuel)
  }

  /** The whole run populates the playlist. */
  predicate ReachesPopulate(authCode: Option<string>, server: Server, fuel: nat)
  {
    Authorized(authCode, server) && PopulateReached(server, fuel)
  }

  /** The error messages the population collects for `hits`. */
  function PopulationErrors(hits: seq<TrackUri>, server: Server): seq<string>
  {
    Populator.FailureMessages(Populator.Responses(|Populator.Batches(hits)|, server.addItems))
  }

  /** `generate_playlist`. `authCode` is the callback's `code` argument,
      `sessionName` the name stored in the session, `defaultName` the default
      name, `server` the service's replies and `fuel` the bound on the
      follow-list loop. Returns the summary written to the session (or how
      the handler failed to reach it) and the requests made. */
  method GeneratePlaylist(authCode: Option<string>, sessionName: Option<string>, defaultName: string, server: Server, fuel: nat)
    returns (r: Exec<Summary>, trace: Trace)
    // no code: nothing is requested, and the untouched tuples give a valid token, one artist, one song
    ensures !TruthyOption(authCode) ==>
      && trace == NoRequests
      && r == Done(Summary(true, false, true, NoneTuple, 1, 1, None))
    // the exchange fails: only the token request is made
    ensures TruthyOption(authCode) && !Authorized(authCode, server) ==>
      && trace == NoRequests.(tokenCode := authCode)
      && r == Done(Summary(true, true, false, NoneTuple, 1, 1, None))
    // authorized: the user is looked up and the follow list fetched; the name is the user's choice or the default
    ensures Authorized(authCode, server) ==>
      && trace.tokenCode == authCode && trace.userLookup
      && |trace.followingPages| == FollowList.RequestCount(server.following, fuel)
      && trace.followingPages[0] == FollowList.FirstPage
      && (forall k :: 1 <= k < |trace.followingPages| ==>
            trace.followingPages[k] == FollowList.NextPage(FollowList.LatestCursor(server.following, k)))
      && (r.Done? ==> r.value.playlistName == Assigned(PlaylistCreator.PlaylistName(sessionName, defaultName)))
    ensures Authorized(authCode, server) && Artists(server, fuel).OutOfFuel? ==> r == OutOfFuel
    // the top tracks are requested for the followed artists, in order, up to the first reply without tracks
    ensures Authorized(authCode, server) && Artists(server, fuel).Done? && |Artists(server, fuel).value| > 0 ==>
      var artists := Artists(server, fuel).value;
      trace.topTracksFor == artists[..TopHits.RequestCount(artists, server.topTracks)]
    // the top tracks are requested only for a non-empty artist list
    ensures !(Authorized(authCode, server) && Artists(server, fuel).Done? && |Artists(server, fuel).value| > 0) ==>
      trace.topTracksFor == []
    // no followed artists: no playlist, and the untouched top-hits tuple counts one song
    ensures Authorized(authCode, server) && Artists(server, fuel) == Done([]) ==>
      r == Done(Summary(true, true, true, Assigned(PlaylistCreator.PlaylistName(sessionName, defaultName)), 0, 1, None))
    // an artist reply without tracks makes the handler raise before any summary is written
    ensures
      (&& Authorized(authCode, server)
       && Artists(server, fuel).Done? && |Artists(server, fuel).value| > 0
       && TopHits.TopHits(Artists(server, fuel).value, server.topTracks).KeyError?)
      ==> r == KeyError("tracks")
    // the guards of the playlist creation and of the population
    ensures trace.createdWith.Some? <==> ReachesCreate(authCode, server, fuel)
    ensures trace.createdWith.Some? ==>
      trace.createdWith.value == CreateRequest(Identity.GetUserId(server.me), PlaylistCreator.PlaylistName(sessionName, defaultName))
    ensures trace.populated.Some? <==> ReachesPopulate(authCode, server, fuel)
    ensures trace.populated.Some? ==> trace.populated == PlaylistCreator.CreateTopHitsPlaylist(server.create)
    // population posts the batches of the top hits; nothing is posted otherwise
    ensures trace.posted == if ReachesPopulate(authCode, server, fuel) then Populator.Batches(Hits(server, fuel)) else []
    // a run that creates the playlist reports the real counts, and the errors only if it populated
    ensures ReachesCreate(authCode, server, fuel) ==>
      r == Done(Summary(true, true, true,
        Assigned(PlaylistCreator.PlaylistName(sessionName, defaultName)),
        |Artists(server, fuel).value|,
        |Hits(server, fuel)|,
        if ReachesPopulate(authCode, server, fuel) then Some(PopulationErrors(Hits(server, fuel), server)) else None))
    ensures r.Done? ==> (r.value.errorsEncountered.Some? <==> ReachesPopulate(authCode, server, fuel))
  {
    trace := NoRequests;
    var accessToken: Local<Option<string>> := NoneTuple;
    var playlistName: Local<string> := NoneTuple;
    var userId: Local<string> := NoneTuple;
    var userArtists: Local<seq<ArtistId>> := NoneTuple;
    var artistsTopHits: Local<seq<TrackUri>> := NoneTuple;
    var topHitsPlaylistId: Local<Option<string>> := NoneTuple;
    var errors: Option<seq<string>> := None;

    if TruthyOption(authCode) {
      trace := trace.(tokenCode := authCode);
      accessToken := Assigned(Authorizer.GetAccessToken(server.token));
      if TokenTruthy(accessToken) {
        playlistName := Assigned(PlaylistCreator.PlaylistName(sessionName, defaultName));
        trace := trace.(userLookup := true);
        userId := Assigned(Identity.GetUserId(server.me));
        var artists, pages := FollowList.GetArtists(server.following, fuel);
        trace := trace.(followingPages := pages);
        if artists.OutOfFuel? {
          return OutOfFuel, trace;
        }
        userArtists := Assigned(artists.value);
        if |artists.value| > 0 {
          var hits, asked := TopHits.GetTopHits(artists.value, server.topTracks);
          TopHits.TopHitsRaisesIffMissing(artists.value, server.topTracks);
          trace := trace.(topTracksFor := asked);
          if !hits.Done? {
            return KeyError("tracks"), trace;
          }
          artistsTopHits := Assigned(hits.value);
          trace := trace.(createdWith := Some(CreateRequest(userId.value, playlistName.value)));
          topHitsPlaylistId := Assigned(PlaylistCreator.CreateTopHitsPlaylist(server.create));
          if |hits.value| > 0 && TruthyOption(topHitsPlaylistId.value) {
            var errs, posted := Populator.AddTopHitsToPlaylist(hits.value, server.addItems);
            trace := trace.(populated := topHitsPlaylistId.value, posted := posted);
            errors := Some(errs);
          }
        }
      }
    }
    r := Done(Summary(true, TruthyOption(authCode), TokenTruthy(accessToken), playlistName,
                      Len(userArtists), Len(artistsTopHits), errors));
  }
}
