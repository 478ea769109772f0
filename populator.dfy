/** The playlist populator, `add_top_hits_to_playlist`: it walks the track
    URIs, fills a buffer and posts it as one request to the playlist's
    tracks endpoint whenever it holds 100 URIs or the last URI has been
    added, collecting the error message of every post that is not answered
    with 201 Created. */
module Populator {
  import opened Common

  /** Largest number of URIs one post carries. */
  const BatchLimit: nat := 100

  /** Status of a successful post to the playlist's tracks endpoint. */
  const Created: int := 201

  /** The service's reply to one post: its status and, for a failure, the
      `error.message` of its body. */
  datatype AddItemsResponse = AddItemsResponse(status: int, errorMessage: string)

  /** The batches posted for `s`: consecutive slices of 100 URIs, the last
      one shorter when `|s|` is not a multiple of 100. */
  function Batches(s: seq<TrackUri>): seq<seq<TrackUri>>
    decreases |s|
  {
    if s == [] then []
    else if |s| <= BatchLimit then [s]
    else [s[..BatchLimit]] + Batches(s[BatchLimit..])
  }

  /** The replies to the first `n` posts; the service answers the `j`-th post
      (counted from 0) with `respond(j)`. */
  function Responses(n: nat, respond: nat -> AddItemsResponse): (rs: seq<AddItemsResponse>)
    ensures |rs| == n && forall j :: 0 <= j < n ==> rs[j] == respond(j)
  {
    seq(n, j requires 0 <= j < n => respond(j))
  }

  /** The messages collected from a run of replies, the way the loop appends them. */
  function FailureMessages(rs: seq<AddItemsResponse>): seq<string>
  {
    if rs == [] then []
    else
      var last := rs[|rs| - 1];
      FailureMessages(rs[..|rs| - 1]) + (if last.status != Created then [last.errorMessage] else [])
  }

  /** The positions, in increasing order, of the replies that are failures. */
  function FailingPositions(rs: seq<AddItemsResponse>): seq<nat>
  {
    if rs == [] then []
    else FailingPositions(rs[..|rs| - 1]) + (if rs[|rs| - 1].status != Created then [|rs| - 1] else [])
  }

  /** `add_top_hits_to_playlist`, with the post abstracted as the oracle
      `respond`. Returns the error messages and, in posting order, the body
      (`uris`) of every post made. */
  method AddTopHitsToPlaylist(topHits: seq<TrackUri>, respond: nat -> AddItemsResponse)
    returns (errors: seq<string>, posted: seq<seq<TrackUri>>)
    ensures posted == Batches(topHits)
    ensures Flatten(posted) == topHits
    ensures errors == FailureMessages(Responses(|posted|, respond))
  {
    var uris: seq<TrackUri> := [];
    errors, posted := [], [];
    var index := 0;
    while index < |topHits|
      invariant 0 <= index <= |topHits|
      invariant |uris| <= index && |uris| < BatchLimit
      invariant uris == topHits[index - |uris|..index]
      invariant posted + Batches(topHits[index - |uris|..]) == Batches(topHits)
      invariant index == |topHits| ==> uris == []
      invariant errors == FailureMessages(Responses(|posted|, respond))
    {
      ghost var start := index - |uris|;
      uris := uris + [topHits[index]];
      if |uris| > 99 || index + 1 == |topHits| {
        // flush: one post with the whole buffer
        var response := respond(|posted|);
        FlushKeepsBatches(topHits, start, index, uris, posted);
        FailureMessagesStep(|posted|, respond);
        posted := posted + [uris];
        if response.status != Created {
          errors := errors + [response.errorMessage];
        }
        uris := [];
      }
      index := index + 1;
    }
    assert topHits[|topHits|..] == [];
    BatchesFlatten(topHits);
  }

  /** Posting the buffer keeps the posts so far, followed by the batches of
      what is left, equal to the batches of the whole input. */
  lemma FlushKeepsBatches(topHits: seq<TrackUri>, start: nat, index: nat, uris: seq<TrackUri>, posted: seq<seq<TrackUri>>)
    requires start <= index < |topHits| && uris == topHits[start..index + 1]
    requires |uris| <= BatchLimit && (|uris| == BatchLimit || index + 1 == |topHits|)
    requires posted + Batches(topHits[start..]) == Batches(topHits)
    ensures (posted + [uris]) + Batches(topHits[index + 1..]) == Batches(topHits)
  {
    BatchesStep(topHits[start..], |uris|);
    assert topHits[start..][..|uris|] == uris;
    assert topHits[start..][|uris|..] == topHits[index + 1..];
  }

  /** One more reply adds its message when it is a failure. */
  lemma FailureMessagesStep(n: nat, respond: nat -> AddItemsResponse)
    ensures FailureMessages(Responses(n + 1, respond))
      == FailureMessages(Responses(n, respond)) + (if respond(n).status != Created then [respond(n).errorMessage] else [])
  {
    assert Responses(n + 1, respond)[..n] == Responses(n, respond);
  }

  /** One unfolding of Batches: the first batch is the first `k` URIs when `k`
      is 100 or the whole rest. */
  lemma BatchesStep(s: seq<TrackUri>, k: nat)
    requires 1 <= k <= |s| && k <= BatchLimit
    requires k == BatchLimit || k == |s|
    ensures Batches(s) == [s[..k]] + Batches(s[k..])
  {
    if k == |s| {
      assert s[..k] == s;
      assert s[k..] == [];
    }
  }

  /** Concatenating the batches gives back the input: nothing is lost,
      duplicated or reordered. */
  lemma {:induction false} BatchesFlatten(s: seq<TrackUri>)
    ensures Flatten(Batches(s)) == s
    decreases |s|
  {
    if s == [] {
    } else if |s| <= BatchLimit {
      assert Flatten([s]) == s + Flatten([s][1..]);
    } else {
      BatchesFlatten(s[BatchLimit..]);
      var bs := [s[..BatchLimit]] + Batches(s[BatchLimit..]);
      assert bs[1..] == Batches(s[BatchLimit..]);
      assert s[..BatchLimit] + s[BatchLimit..] == s;
    }
  }

  /** Every batch holds 1 to 100 URIs and every batch but the last exactly 100. */
  lemma {:induction false} BatchesSizes(s: seq<TrackUri>)
    ensures forall j :: 0 <= j < |Batches(s)| ==> 1 <= |Batches(s)[j]| <= BatchLimit
    ensures forall j :: 0 <= j < |Batches(s)| - 1 ==> |Batches(s)[j]| == BatchLimit
    decreases |s|
  {
    if |s| > BatchLimit {
      BatchesSizes(s[BatchLimit..]);
      var bs := Batches(s);
      assert bs == [s[..BatchLimit]] + Batches(s[BatchLimit..]);
      forall j | 1 <= j < |bs|
        ensures bs[j] == Batches(s[BatchLimit..])[j - 1]
      {
      }
    }
  }

  /** The number of posts is the ceiling of `|s| / 100`; no URIs, no post. */
  lemma {:induction false} BatchesCount(s: seq<TrackUri>)
    ensures |Batches(s)| == (|s| + BatchLimit - 1) / BatchLimit
    decreases |s|
  {
    if |s| > BatchLimit {
      BatchesCount(s[BatchLimit..]);
    }
  }

  /** Batch `j` is the slice of the input from `100 * j` up to the next
      multiple of 100 or the end. */
  lemma {:induction false} BatchAt(s: seq<TrackUri>, j: nat)
    requires j < |Batches(s)|
    ensures 100 * j < |s|
    ensures Batches(s)[j] == s[100 * j..if 100 * j + 100 <= |s| then 100 * j + 100 else |s|]
    decreases |s|
  {
    if |s| > BatchLimit && j > 0 {
      var rest := s[BatchLimit..];
      BatchAt(rest, j - 1);
      assert Batches(s)[j] == Batches(rest)[j - 1];
      var lo, hi := 100 * (j - 1), if 100 * (j - 1) + 100 <= |rest| then 100 * (j - 1) + 100 else |rest|;
      assert rest[lo..hi] == s[lo + 100..hi + 100];
    }
  }

  /** Appending replies appends their messages: a failure never hides what
      later posts report. */
  lemma {:induction false} FailureMessagesAppend(a: seq<AddItemsResponse>, b: seq<AddItemsResponse>)
    ensures FailureMessages(a + b) == FailureMessages(a) + FailureMessages(b)
    decreases |b|
  {
    if b != [] {
      var b' := b[..|b| - 1];
      assert (a + b)[..|a + b| - 1] == a + b';
      FailureMessagesAppend(a, b');
    } else {
      assert a + b == a;
    }
  }

  /** The failing positions are exactly the replies that are not 201, in
      increasing order. */
  lemma {:induction false} FailingPositionsExact(rs: seq<AddItemsResponse>)
    ensures forall j: nat :: j in FailingPositions(rs) <==> j < |rs| && rs[j].status != Created
    ensures forall k, l :: 0 <= k < l < |FailingPositions(rs)| ==> FailingPositions(rs)[k] < FailingPositions(rs)[l]
    decreases |rs|
  {
    if rs != [] {
      var init := rs[..|rs| - 1];
      FailingPositionsExact(init);
      forall j | 0 <= j < |init|
        ensures rs[j] == init[j]
      {
      }
      var prev := FailingPositions(init);
      forall k | 0 <= k < |prev|
        ensures prev[k] < |init|
      {
        assert prev[k] in prev;
      }
    }
  }

  /** One message per failing reply, in reply order: message `k` is the
      `error.message` of the `k`-th failing reply. */
  lemma {:induction false} FailureMessagesOfFailures(rs: seq<AddItemsResponse>)
    ensures |FailureMessages(rs)| == |FailingPositions(rs)|
    ensures forall k :: 0 <= k < |FailingPositions(rs)| ==>
      FailingPositions(rs)[k] < |rs| && FailureMessages(rs)[k] == rs[FailingPositions(rs)[k]].errorMessage
    decreases |rs|
  {
    if rs != [] {
      var init := rs[..|rs| - 1];
      FailureMessagesOfFailures(init);
      forall j | 0 <= j < |init|
        ensures rs[j] == init[j]
      {
      }
    }
  }
}
