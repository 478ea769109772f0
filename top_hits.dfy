/** The top-track fetcher, `get_top_hits`: one request per artist, in the
    order given, appending the URI of every track of each reply. The code
    does not look at the reply's status; a reply whose body has no `tracks`
    key makes the indexing raise `KeyError`. */
module TopHits {
  import opened Common

  /** The reply to one artist's top-tracks request: its status (never read by
      the code) and the `tracks` member of its body, each track reduced to
      its `uri`; `None` when the body has no `tracks` key, as an error body. */
  datatype TopTracksResponse = TopTracksResponse(status: int, tracks: Option<seq<TrackUri>>)

  /** Prefixes a completed run's value; a raised error passes through. */
  function Prepend(p: seq<TrackUri>, e: Exec<seq<TrackUri>>): Exec<seq<TrackUri>>
  {
    if e.Done? then Done(p + e.value) else e
  }

  /** What `get_top_hits` produces for `artistIds`, the service answering the
      request for artist `a` with `respond(a)`. */
  function TopHits(artistIds: seq<ArtistId>, respond: ArtistId -> TopTracksResponse): Exec<seq<TrackUri>>
  {
    if artistIds == [] then Done([])
    else
      match respond(artistIds[0]).tracks
      case None => KeyError("tracks")
      case Some(tracks) => Prepend(tracks, TopHits(artistIds[1..], respond))
  }

  /** Number of requests made before the code returns or raises: up to and
      including the first artist whose reply has no `tracks`. */
  function RequestCount(artistIds: seq<ArtistId>, respond: ArtistId -> TopTracksResponse): (n: nat)
    ensures n <= |artistIds|
  {
    if artistIds == [] then 0
    else if respond(artistIds[0]).tracks.None? then 1
    else 1 + RequestCount(artistIds[1..], respond)
  }

  /** The track lists of the artists, in artist order, assuming every reply has them. */
  function TrackLists(artistIds: seq<ArtistId>, respond: ArtistId -> TopTracksResponse): (ls: seq<seq<TrackUri>>)
    requires forall j :: 0 <= j < |artistIds| ==> respond(artistIds[j]).tracks.Some?
    ensures |ls| == |artistIds|
  {
    seq(|artistIds|, j requires 0 <= j < |artistIds| => respond(artistIds[j]).tracks.value)
  }

  /** `get_top_hits` with the GET abstracted as `respond`. Also returns, in
      order, the artists whose top tracks were requested. */
  method GetTopHits(artistIds: seq<ArtistId>, respond: ArtistId -> TopTracksResponse)
    returns (r: Exec<seq<TrackUri>>, requested: seq<ArtistId>)
    ensures r == TopHits(artistIds, respond)
    ensures requested == artistIds[..RequestCount(artistIds, respond)]
  {
    var topHits: seq<TrackUri> := [];
    requested := [];
    var i := 0;
    assert artistIds[i..] == artistIds;
    PrependNothing(TopHits(artistIds, respond));
    while i < |artistIds|
      invariant 0 <= i <= |artistIds|
      invariant TopHits(artistIds, respond) == Prepend(topHits, TopHits(artistIds[i..], respond))
      invariant RequestCount(artistIds, respond) == i + RequestCount(artistIds[i..], respond)
      invariant requested == artistIds[..i]
    {
      var response := respond(artistIds[i]);
      requested := requested + [artistIds[i]];
      if response.tracks.None? {
        // response.json()['tracks'] raises
        assert artistIds[..i + 1] == requested;
        return KeyError("tracks"), requested;
      }
      var tracks := response.tracks.value;
      ghost var before := topHits;
      var j := 0;
      while j < |tracks|
        invariant 0 <= j <= |tracks|
        invariant topHits == before + tracks[..j]
      {
        topHits := topHits + [tracks[j]];
        j := j + 1;
      }
      assert tracks[..j] == tracks;
      assert artistIds[i..][1..] == artistIds[i + 1..];
      PrependTwice(before, tracks, TopHits(artistIds[i + 1..], respond));
      assert artistIds[..i + 1] == requested;
      i := i + 1;
    }
    assert artistIds[..i] == artistIds;
    assert topHits + [] == topHits;
    r := Done(topHits);
  }

  /** Prefixing nothing changes nothing. */
  lemma PrependNothing(e: Exec<seq<TrackUri>>)
    ensures Prepend([], e) == e
  {
    if e.Done? {
      assert [] + e.value == e.value;
    }
  }

  /** Two prefixes in a row are one prefix. */
  lemma PrependTwice(p: seq<TrackUri>, q: seq<TrackUri>, e: Exec<seq<TrackUri>>)
    ensures Prepend(p, Prepend(q, e)) == Prepend(p + q, e)
  {
    if e.Done? {
      assert p + (q + e.value) == (p + q) + e.value;
    }
  }

  /** When every reply carries its tracks, the result is the concatenation of
      the artists' track lists in artist order, as long as all of them
      together. */
  lemma {:induction false} TopHitsConcatenates(artistIds: seq<ArtistId>, respond: ArtistId -> TopTracksResponse)
    requires forall j :: 0 <= j < |artistIds| ==> respond(artistIds[j]).tracks.Some?
    ensures TopHits(artistIds, respond) == Done(Flatten(TrackLists(artistIds, respond)))
    ensures |TopHits(artistIds, respond).value| == TotalLength(TrackLists(artistIds, respond))
  {
    if artistIds != [] {
      var rest := artistIds[1..];
      assert forall j :: 0 <= j < |rest| ==> rest[j] == artistIds[j + 1];
      TopHitsConcatenates(rest, respond);
      assert TrackLists(artistIds, respond)[1..] == TrackLists(rest, respond);
    }
    FlattenLength(TrackLists(artistIds, respond));
  }

  /** N artists with M tracks each give N * M URIs. */
  lemma {:induction false} TopHitsUniformCount(artistIds: seq<ArtistId>, respond: ArtistId -> TopTracksResponse, m: nat)
    requires forall j :: 0 <= j < |artistIds| ==>
      respond(artistIds[j]).tracks.Some? && |respond(artistIds[j]).tracks.value| == m
    ensures TopHits(artistIds, respond).Done?
    ensures |TopHits(artistIds, respond).value| == |artistIds| * m
  {
    if artistIds != [] {
      var rest := artistIds[1..];
      assert forall j :: 0 <= j < |rest| ==> rest[j] == artistIds[j + 1];
      TopHitsUniformCount(rest, respond, m);
    }
  }

  /** The code raises exactly when some artist's reply has no `tracks`, and
      otherwise returns a value. */
  lemma {:induction false} TopHitsRaisesIffMissing(artistIds: seq<ArtistId>, respond: ArtistId -> TopTracksResponse)
    ensures !TopHits(artistIds, respond).OutOfFuel?
    ensures TopHits(artistIds, respond) == KeyError("tracks")
        <==> exists j :: 0 <= j < |artistIds| && respond(artistIds[j]).tracks.None?
    ensures TopHits(artistIds, respond).Done?
        <==> forall j :: 0 <= j < |artistIds| ==> respond(artistIds[j]).tracks.Some?
  {
    if artistIds != [] {
      var rest := artistIds[1..];
      assert forall j :: 0 <= j < |rest| ==> rest[j] == artistIds[j + 1];
      TopHitsRaisesIffMissing(rest, respond);
      if respond(artistIds[0]).tracks.Some? {
        if exists j :: 0 <= j < |artistIds| && respond(artistIds[j]).tracks.None? {
          var j :| 0 <= j < |artistIds| && respond(artistIds[j]).tracks.None?;
          assert rest[j - 1] == artistIds[j];
        }
      }
    }
  }

  /** The status of a reply is never consulted: two services whose replies
      for the listed artists carry the same `tracks` give the same result
      and the same requests, whatever their statuses. */
  lemma {:induction false} TopHitsIgnoresStatus(artistIds: seq<ArtistId>, respond: ArtistId -> TopTracksResponse, respond': ArtistId -> TopTracksResponse)
    requires forall j :: 0 <= j < |artistIds| ==> respond(artistIds[j]).tracks == respond'(artistIds[j]).tracks
    ensures TopHits(artistIds, respond) == TopHits(artistIds, respond')
    ensures RequestCount(artistIds, respond) == RequestCount(artistIds, respond')
  {
    if artistIds != [] {
      var rest := artistIds[1..];
      assert forall j :: 0 <= j < |rest| ==> rest[j] == artistIds[j + 1];
      TopHitsIgnoresStatus(rest, respond, respond');
      assert respond(artistIds[0]).tracks == respond'(artistIds[0]).tracks;
    }
  }
}
