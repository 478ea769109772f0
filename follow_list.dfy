/** The follow-list fetcher, `get_artists`. It requests the first page of
    followed artists; on 200 it keeps the page's `items`, `total` and cursor
    `after` and then loops `while total > 0`, requesting the page after the
    cursor and, on 200, appending its items and taking its `total` and
    `after`. A non-200 page inside the loop changes nothing, so the same
    cursor is requested again. The loop stops only when a page reports
    `total <= 0`; the code has no other stop rule. Dafny needs every loop to
    terminate, so the model runs the loop at most `fuel` times and answers
    `OutOfFuel` when the Python loop would still be running. */
module FollowList {
  import opened Common

  /** Status the code requires of a page. */
  const Ok: int := 200

  /** A pagination cursor: a string, or JSON `null`. */
  type Cursor = Option<string>

  /** The reply to one page request: status, `artists.items` (each reduced to
      its `id`), `artists.total` and `artists.cursors.after`. */
  datatype FollowResponse = FollowResponse(status: int, items: seq<ArtistId>, total: int, after: Cursor)

  /** A page request: the first page, or the page after a cursor. */
  datatype FollowRequest = FirstPage | NextPage(after: Cursor)

  /** The loop from call number `call` on, holding `items` and `total`; the
      service answers call `k` (the first page is call 0) with `respond(k)`. */
  function FollowLoop(respond: nat -> FollowResponse, call: nat, items: seq<ArtistId>, total: int, fuel: nat): (e: Exec<seq<ArtistId>>)
    ensures !e.KeyError?
    ensures e.Done? ==> items <= e.value
    decreases fuel
  {
    if total <= 0 then Done(items)
    else if fuel == 0 then OutOfFuel
    else
      var page := respond(call);
      if page.status == Ok then
        assert items <= items + page.items;
        FollowLoop(respond, call + 1, items + page.items, page.total, fuel - 1)
      else FollowLoop(respond, call + 1, items, total, fuel - 1)
  }

  /** What `get_artists` returns, with at most `fuel` loop iterations. */
  function FollowedArtists(respond: nat -> FollowResponse, fuel: nat): (e: Exec<seq<ArtistId>>)
    ensures !e.KeyError?
  {
    var first := respond(0);
    if first.status == Ok then FollowLoop(respond, 1, first.items, first.total, fuel) else Done([])
  }

  /** The number of loop iterations run from call `call` on. */
  function LoopIterations(respond: nat -> FollowResponse, call: nat, total: int, fuel: nat): (n: nat)
    ensures n <= fuel
    decreases fuel
  {
    if total <= 0 || fuel == 0 then 0
    else
      var page := respond(call);
      1 + LoopIterations(respond, call + 1, if page.status == Ok then page.total else total, fuel - 1)
  }

  /** The number of page requests `get_artists` makes. */
  function RequestCount(respond: nat -> FollowResponse, fuel: nat): (n: nat)
    ensures 1 <= n <= fuel + 1
  {
    var first := respond(0);
    if first.status == Ok then 1 + LoopIterations(respond, 1, first.total, fuel) else 1
  }

  /** The cursor held before call `k` (k >= 1): the `after` of the latest 200
      page before it (the first page was 200, or the loop is not entered). */
  function LatestCursor(respond: nat -> FollowResponse, k: nat): Cursor
    requires k >= 1
  {
    if k == 1 || respond(k - 1).status == Ok then respond(k - 1).after else LatestCursor(respond, k - 1)
  }

  /** The items of all 200 pages among calls `0 .. n - 1`, in call order. */
  function AcceptedItems(respond: nat -> FollowResponse, n: nat): seq<ArtistId>
  {
    if n == 0 then []
    else AcceptedItems(respond, n - 1) + (if respond(n - 1).status == Ok then respond(n - 1).items else [])
  }

  /** `get_artists` with the GETs abstracted as `respond`; returns the ids (or
      `OutOfFuel`) and the page requests made, in order. */
  method GetArtists(respond: nat -> FollowResponse, fuel: nat) returns (r: Exec<seq<ArtistId>>, requests: seq<FollowRequest>)
    ensures r == FollowedArtists(respond, fuel)
    ensures |requests| == RequestCount(respond, fuel)
    ensures requests[0] == FirstPage
    ensures forall k :: 1 <= k < |requests| ==> requests[k] == NextPage(LatestCursor(respond, k))
    ensures respond(0).status != Ok ==> r == Done([]) && requests == [FirstPage]
    ensures respond(0).status == Ok && respond(0).total <= 0 ==> r == Done(respond(0).items) && requests == [FirstPage]
  {
    requests := [FirstPage];
    var response := respond(0);
    if response.status != Ok {
      return Done([]), requests;
    }
    var items := response.items;
    var total := response.total;
    var after := response.after;
    var iterations := 0;
    while total > 0 && iterations < fuel
      invariant iterations <= fuel
      invariant |requests| == iterations + 1 && requests[0] == FirstPage
      invariant forall k :: 1 <= k < |requests| ==> requests[k] == NextPage(LatestCursor(respond, k))
      invariant after == LatestCursor(respond, |requests|)
      invariant FollowLoop(respond, |requests|, items, total, fuel - iterations) == FollowedArtists(respond, fuel)
      invariant iterations + LoopIterations(respond, |requests|, total, fuel - iterations) + 1 == RequestCount(respond, fuel)
      decreases fuel - iterations
    {
      requests := requests + [NextPage(after)];
      response := respond(|requests| - 1);
      if response.status == Ok {
        items := items + response.items;
        total := response.total;
        after := response.after;
      }
      iterations := iterations + 1;
    }
    if total > 0 {
      return OutOfFuel, requests;
    }
    r := Done(items);
  }

  /** A loop that started at `call` holding the items of the 200 pages so far
      and returns has met a first 200 page with `total <= 0`, and returns the
      items of all 200 pages up to it. */
  lemma {:induction false} FollowLoopExit(respond: nat -> FollowResponse, call: nat, items: seq<ArtistId>, total: int, fuel: nat)
    requires call >= 1 && total > 0
    requires items == AcceptedItems(respond, call)
    requires FollowLoop(respond, call, items, total, fuel).Done?
    ensures exists k ::
      && call <= k < call + fuel && ExitsAt(respond, call, k)
      && FollowLoop(respond, call, items, total, fuel).value == AcceptedItems(respond, k + 1)
    decreases fuel
  {
    var page := respond(call);
    if page.status == Ok && page.total <= 0 {
      assert ExitsAt(respond, call, call);
    } else if page.status == Ok {
      FollowLoopExit(respond, call + 1, items + page.items, page.total, fuel - 1);
      var k :| call + 1 <= k < call + fuel && ExitsAt(respond, call + 1, k)
        && FollowLoop(respond, call + 1, items + page.items, page.total, fuel - 1).value == AcceptedItems(respond, k + 1);
      assert ExitsAt(respond, call, k);
    } else {
      FollowLoopExit(respond, call + 1, items, total, fuel - 1);
      var k :| call + 1 <= k < call + fuel && ExitsAt(respond, call + 1, k)
        && FollowLoop(respond, call + 1, items, total, fuel - 1).value == AcceptedItems(respond, k + 1);
      assert ExitsAt(respond, call, k);
    }
  }

  /** Call `k` is the first call from `from` on whose page is 200 with `total <= 0`. */
  predicate ExitsAt(respond: nat -> FollowResponse, from: nat, k: nat)
  {
    from <= k && respond(k).status == Ok && respond(k).total <= 0
    && forall j :: from <= j < k ==> respond(j).status != Ok || respond(j).total > 0
  }

  /** `get_artists` returns artists after a first page with a positive total
      only once a later 200 page reports `total <= 0`; the result is then the
      items of every 200 page up to that one, in order. */
  lemma FollowedArtistsExit(respond: nat -> FollowResponse, fuel: nat)
    requires respond(0).status == Ok && respond(0).total > 0
    requires FollowedArtists(respond, fuel).Done?
    ensures exists k ::
      && 1 <= k <= fuel && ExitsAt(respond, 1, k)
      && FollowedArtists(respond, fuel).value == AcceptedItems(respond, k + 1)
  {
    assert AcceptedItems(respond, 1) == respond(0).items;
    FollowLoopExit(respond, 1, respond(0).items, respond(0).total, fuel);
  }

  /** The converse of `FollowLoopExit`: once a 200 page with `total <= 0`
      arrives within the fuel, the loop returns the items of every 200 page
      up to that one. */
  lemma {:induction false} FollowLoopReturns(respond: nat -> FollowResponse, call: nat, items: seq<ArtistId>, total: int, fuel: nat, k: nat)
    requires call >= 1 && total > 0
    requires items == AcceptedItems(respond, call)
    requires ExitsAt(respond, call, k) && k < call + fuel
    ensures FollowLoop(respond, call, items, total, fuel) == Done(AcceptedItems(respond, k + 1))
    decreases fuel
  {
    var page := respond(call);
    if call < k {
      assert ExitsAt(respond, call + 1, k);
      if page.status == Ok {
        FollowLoopReturns(respond, call + 1, items + page.items, page.total, fuel - 1, k);
      } else {
        FollowLoopReturns(respond, call + 1, items, total, fuel - 1, k);
      }
    }
  }

  /** The converse of `FollowedArtistsExit`: after a first page with a
      positive total, `get_artists` returns as soon as a later 200 page
      reports `total <= 0` within the fuel, with the items of every 200 page
      up to that one. */
  lemma FollowedArtistsReturns(respond: nat -> FollowResponse, fuel: nat, k: nat)
    requires respond(0).status == Ok && respond(0).total > 0
    requires ExitsAt(respond, 1, k) && k <= fuel
    ensures FollowedArtists(respond, fuel) == Done(AcceptedItems(respond, k + 1))
  {
    assert AcceptedItems(respond, 1) == respond(0).items;
    FollowLoopReturns(respond, 1, respond(0).items, respond(0).total, fuel, k);
  }

  /** When every 200 page from `call` on reports a positive total, the loop
      never leaves, whatever the fuel. */
  lemma {:induction false} FollowLoopNeverExits(respond: nat -> FollowResponse, call: nat, items: seq<ArtistId>, total: int, fuel: nat)
    requires total > 0
    requires forall j :: call <= j && respond(j).status == Ok ==> respond(j).total > 0
    ensures FollowLoop(respond, call, items, total, fuel) == OutOfFuel
    decreases fuel
  {
    if fuel > 0 {
      var page := respond(call);
      if page.status == Ok {
        FollowLoopNeverExits(respond, call + 1, items + page.items, page.total, fuel - 1);
      } else {
        FollowLoopNeverExits(respond, call + 1, items, total, fuel - 1);
      }
    }
  }

  /** A service whose pages report the grand total of followed artists (a
      positive number for a non-empty follow list) keeps `get_artists`
      looping for ever: no fuel bound is enough. */
  lemma PositiveTotalsNeverReturn(respond: nat -> FollowResponse, fuel: nat)
    requires respond(0).status == Ok
    requires forall j :: respond(j).status == Ok ==> respond(j).total > 0
    ensures FollowedArtists(respond, fuel) == OutOfFuel
  {
    FollowLoopNeverExits(respond, 1, respond(0).items, respond(0).total, fuel);
  }
}
