/** The paginated walk over "list organization repositories"
    (`fetchAllRepos`, src/app/api/github/route.ts:17-66).

    The hosting API is a finite sequence of page replies: page p answers
    `upstream[p - 1]`, and every page past the end answers 200 with an empty
    list, as the listing endpoint does. The clock is a function: `clock(0)`
    is the time the walk starts and arms its 10 s abort timer, and
    `clock(p)` is the `Date.now()` reading taken after page p was read. A
    request sent once the timer has fired (after a long pause, say) aborts
    at once; a request the timer cuts short in flight is an `Aborted` reply
    of the hosting API. */
module Pagination {
  import opened Wrappers
  import opened Text
  import opened Records

  /** Below this many remaining requests the walk pauses (route.ts:48). */
  const RateLimitFloor := 5
  /** Added to every pause, in milliseconds (route.ts:50). */
  const WaitBufferMs := 1000
  /** The abort timer of the whole walk fires this many milliseconds after
      it starts (route.ts:21-22). Pauses do not stop it. */
  const DeadlineMs := 10000

  /** The two rate-limit headers of a listing reply as the loop reads them:
      `remaining` is `parseInt` of X-RateLimit-Remaining (`None` when the
      header is absent or empty, or the value is `NaN`); `reset` is
      `parseInt(X-RateLimit-Reset || '0')` in seconds (`None` for `NaN`).
      ReadRateHeaders builds it from the header text. */
  datatype RateHeaders = RateHeaders(remaining: Option<int>, reset: Option<int>)

  datatype PageReply =
    | Listed(status: int, statusText: string, items: seq<RepoItem>, rate: RateHeaders)
    | Aborted                           // the shared deadline fired
    | TransportFailure(message: string) // `fetch` itself rejected

  datatype FetchError =
    | NotFound(org: string)
    | PageFailed(page: nat, statusText: string)
    | TimedOut
    | Transport(message: string)

  /** A pause taken after `afterPage` was read, lasting `ms` milliseconds. */
  datatype Wait = Wait(afterPage: nat, ms: nat)

  /** Everything the walk produces: its outcome, the pages it asked for in
      order, and the pauses it took. */
  datatype Walk = Walk(result: Result<seq<RepoItem>, FetchError>, requested: seq<nat>, waits: seq<Wait>)

  function PageAt(upstream: seq<PageReply>, page: nat): PageReply
    requires page >= 1
  {
    if page <= |upstream| then upstream[page - 1] else Listed(200, "OK", [], RateHeaders(None, Some(0)))
  }

  /** A reply after which the walk asks for the next page. */
  predicate Continues(reply: PageReply) {
    reply.Listed? && IsOk(reply.status) && reply.items != []
  }

  function ItemsOf(reply: PageReply): seq<RepoItem> {
    if reply.Listed? then reply.items else []
  }

  /** How a walk ends on a page that does not continue it, given the items
      collected before that page. */
  function Outcome(org: string, page: nat, reply: PageReply, collected: seq<RepoItem>): (r: Result<seq<RepoItem>, FetchError>)
    requires !Continues(reply)
    ensures r.Success? <==> reply.Listed? && IsOk(reply.status)
    ensures r.Success? ==> r.value == collected && reply.items == []
    ensures r == Failure(TimedOut) <==> reply.Aborted?
    ensures r.Failure? && r.error.NotFound? <==> reply.Listed? && reply.status == 404
    ensures r.Failure? && r.error.PageFailed? <==> reply.Listed? && !IsOk(reply.status) && reply.status != 404
  {
    match reply
    case Aborted => Failure(TimedOut)
    case TransportFailure(m) => Failure(Transport(m))
    case Listed(status, text, _, _) =>
      if IsOk(status) then Success(collected)
      else if status == 404 then Failure(NotFound(org))
      else Failure(PageFailed(page, text))
  }

  /** `response.headers.get('X-RateLimit-Reset') || '0'`. */
  function ResetText(reset: Option<string>): string {
    if reset.Some? && reset.value != "" then reset.value else "0"
  }

  /** The header values the loop computes from the header text (route.ts:47-49):
      an absent or empty remaining-quota header is falsy and is not parsed. */
  function ReadRateHeaders(remaining: Option<string>, reset: Option<string>): (h: RateHeaders)
    ensures remaining.None? || remaining == Some("") ==> h.remaining.None?
    ensures reset.None? || reset == Some("") ==> h.reset == Some(0)
    ensures forall n: nat :: remaining == Some(NatToString(n)) ==> h.remaining == Some(n)
    ensures forall n: nat :: reset == Some(NatToString(n)) ==> h.reset == Some(n)
  {
    forall n: nat | remaining == Some(NatToString(n)) ensures ParseInt(remaining.value) == Some(n) {
      ParseIntOfRendered(n, "");
      assert NatToString(n) + "" == NatToString(n);
    }
    forall n: nat | reset == Some(NatToString(n)) ensures ParseInt(ResetText(reset)) == Some(n) {
      ParseIntOfRendered(n, "");
      assert NatToString(n) + "" == NatToString(n);
    }
    assert ParseInt("0") == Some(0) by {
      ParseIntOfRendered(0, "");
      assert NatToString(0) + "" == "0";
    }
    RateHeaders(if remaining.Some? && remaining.value != "" then ParseInt(remaining.value) else None,
                ParseInt(ResetText(reset)))
  }

  /** `rateLimitRemaining && parseInt(rateLimitRemaining) < 5`: `NaN < 5` is
      false. */
  predicate QuotaLow(rate: RateHeaders) {
    rate.remaining.Some? && rate.remaining.value < RateLimitFloor
  }

  function Max(a: int, b: int): int {
    if a < b then b else a
  }

  /** The pause after a non-empty page read at time `now` (route.ts:47-55).
      A reset value of `NaN` makes the computed wait `NaN`, and `NaN > 0` is
      false, so there is no pause at all. */
  function RateLimitWait(rate: RateHeaders, now: int): (pause: Option<nat>)
    ensures pause.Some? <==> QuotaLow(rate) && rate.reset.Some?
    ensures pause.Some? ==> pause.value >= WaitBufferMs
    ensures pause.Some? ==> pause.value == Max(0, rate.reset.value * 1000 - now) + WaitBufferMs
  {
    if !QuotaLow(rate) then None
    else
      match rate.reset
      case None => None
      case Some(resetSeconds) => Some(Max(0, resetSeconds * 1000 - now) + WaitBufferMs)
  }

  /** The pause the loop takes after reading page `q`, 0 when there is none. */
  function PauseAfter(upstream: seq<PageReply>, clock: nat -> int, q: nat): nat
    requires q >= 1
  {
    var reply := PageAt(upstream, q);
    if reply.Listed? then RateLimitWait(reply.rate, clock(q)).GetOr(0) else 0
  }

  /** When the request for `page` goes out: at the start for page 1, and
      otherwise once the previous page was read and its pause is over. */
  function SendTime(upstream: seq<PageReply>, clock: nat -> int, page: nat): int
    requires page >= 1
  {
    if page == 1 then clock(0) else clock(page - 1) + PauseAfter(upstream, clock, page - 1)
  }

  /** The request for `page` is sent after the abort timer fired. */
  predicate Expired(upstream: seq<PageReply>, clock: nat -> int, page: nat)
    requires page >= 1
  {
    SendTime(upstream, clock, page) >= clock(0) + DeadlineMs
  }

  /** `fetch` of `page` sent at `sentAt` under a timer that fires at
      `deadline`: a `fetch` whose signal has already aborted rejects with an
      AbortError. */
  function Send(upstream: seq<PageReply>, page: nat, sentAt: int, deadline: int): PageReply
    requires page >= 1
  {
    if sentAt >= deadline then Aborted else PageAt(upstream, page)
  }

  /** The reply the loop gets for `page`. */
  function ReplyAt(upstream: seq<PageReply>, clock: nat -> int, page: nat): (reply: PageReply)
    requires page >= 1
    ensures Expired(upstream, clock, page) ==> reply.Aborted?
    ensures !Expired(upstream, clock, page) ==> reply == PageAt(upstream, page)
  {
    Send(upstream, page, SendTime(upstream, clock, page), clock(0) + DeadlineMs)
  }

  function Prepend(items: seq<RepoItem>, r: Result<seq<RepoItem>, FetchError>): Result<seq<RepoItem>, FetchError> {
    match r
    case Success(rest) => Success(items + rest)
    case Failure(e) => Failure(e)
  }

  function WaitAfter(page: nat, pause: Option<nat>): seq<Wait> {
    if pause.Some? then [Wait(page, pause.value)] else []
  }

  /** The walk from `page` on, as the loop performs it. */
  function WalkFrom(org: string, upstream: seq<PageReply>, clock: nat -> int, page: nat): (w: Walk)
    requires page >= 1
    ensures w.requested != [] && w.requested[0] == page
    decreases |upstream| + 1 - page
  {
    var reply := ReplyAt(upstream, clock, page);
    if !Continues(reply) then Walk(Outcome(org, page, reply, []), [page], [])
    else
      var rest := WalkFrom(org, upstream, clock, page + 1);
      Walk(Prepend(reply.items, rest.result),
           [page] + rest.requested,
           WaitAfter(page, RateLimitWait(reply.rate, clock(page))) + rest.waits)
  }

  /** The first page at or after `page` that ends the walk. */
  function StopPage(upstream: seq<PageReply>, clock: nat -> int, page: nat): (k: nat)
    requires page >= 1
    ensures page <= k <= Max(page, |upstream| + 1)
    ensures !Continues(ReplyAt(upstream, clock, k))
    ensures forall q :: page <= q < k ==> Continues(ReplyAt(upstream, clock, q))
    decreases |upstream| + 1 - page
  {
    if Continues(ReplyAt(upstream, clock, page)) then StopPage(upstream, clock, page + 1) else page
  }

  /** The items of pages `first` .. `stop - 1`, in page order. */
  function Collected(upstream: seq<PageReply>, clock: nat -> int, first: nat, stop: nat): seq<RepoItem>
    requires 1 <= first <= stop
    decreases stop - first
  {
    if first == stop then [] else ItemsOf(ReplyAt(upstream, clock, first)) + Collected(upstream, clock, first + 1, stop)
  }

  /** The page numbers `first`, `first + 1`, .., `last`. */
  function Pages(first: nat, last: nat): (ps: seq<nat>)
    requires first <= last
    ensures |ps| == last - first + 1
    ensures forall i :: 0 <= i < |ps| ==> ps[i] == first + i
  {
    seq(last - first + 1, i requires 0 <= i < last - first + 1 => first + i)
  }

  lemma PagesCons(first: nat, last: nat)
    requires first < last
    ensures [first] + Pages(first + 1, last) == Pages(first, last)
  {
  }

  lemma {:induction false} WalkFromShape(org: string, upstream: seq<PageReply>, clock: nat -> int, page: nat)
    requires page >= 1
    ensures StopPage(upstream, clock, page) >= page
    ensures WalkFrom(org, upstream, clock, page).requested == Pages(page, StopPage(upstream, clock, page))
    ensures WalkFrom(org, upstream, clock, page).result
         == Outcome(org, StopPage(upstream, clock, page), ReplyAt(upstream, clock, StopPage(upstream, clock, page)),
                    Collected(upstream, clock, page, StopPage(upstream, clock, page)))
    decreases |upstream| + 1 - page
  {
    var reply := ReplyAt(upstream, clock, page);
    if Continues(reply) {
      WalkFromShape(org, upstream, clock, page + 1);
      var k := StopPage(upstream, clock, page);
      PagesCons(page, k);
      assert Collected(upstream, clock, page, k) == reply.items + Collected(upstream, clock, page + 1, k);
    }
  }

  /** What `fetchAllRepos` delivers: pages 1, 2, .., k are requested in turn,
      where k is the first page that is empty or fails; the result is the
      concatenation of pages 1 .. k-1 when page k is an empty success, and
      otherwise the error page k calls for, with no partial list. */
  lemma FetchAllReposOutcome(org: string, upstream: seq<PageReply>, clock: nat -> int)
    ensures var k := StopPage(upstream, clock, 1);
            var w := WalkFrom(org, upstream, clock, 1);
            var last := ReplyAt(upstream, clock, k);
            && 1 <= k <= |upstream| + 1
            && (forall q :: 1 <= q < k ==> Continues(ReplyAt(upstream, clock, q)))
            && w.requested == Pages(1, k)
            && (w.result.Success? <==> last.Listed? && IsOk(last.status) && last.items == [])
            && (w.result.Success? ==> w.result.value == Collected(upstream, clock, 1, k))
            && (w.result == Failure(NotFound(org)) <==> last.Listed? && last.status == 404)
            && ((last.Listed? && !IsOk(last.status) && last.status != 404)
                ==> w.result == Failure(PageFailed(k, last.statusText)))
            && (w.result == Failure(TimedOut) <==> last.Aborted?)
  {
    WalkFromShape(org, upstream, clock, 1);
  }

  /** Pause `w` follows a page between `page` and the end of the walk that
      the rate-limit rule makes pause, and lasts what the rule computes. */
  predicate RuleDriven(upstream: seq<PageReply>, clock: nat -> int, page: nat, w: Wait)
    requires page >= 1
  {
    && page <= w.afterPage < StopPage(upstream, clock, page)
    && w.ms >= WaitBufferMs
    && RateLimitWait(ReplyAt(upstream, clock, w.afterPage).rate, clock(w.afterPage)) == Some(w.ms)
  }

  predicate InPageOrder(waits: seq<Wait>) {
    forall i, j :: 0 <= i < j < |waits| ==> waits[i].afterPage < waits[j].afterPage
  }

  /** Every pause follows a page of the walk that the rate-limit rule makes
      pause, lasts what the rule computes (at least the buffer), and the
      pauses come in page order. */
  lemma {:induction false} WaitsAreRuleDriven(org: string, upstream: seq<PageReply>, clock: nat -> int, page: nat)
    requires page >= 1
    ensures forall w <- WalkFrom(org, upstream, clock, page).waits :: RuleDriven(upstream, clock, page, w)
    ensures InPageOrder(WalkFrom(org, upstream, clock, page).waits)
    decreases |upstream| + 1 - page
  {
    var reply := ReplyAt(upstream, clock, page);
    var all := WalkFrom(org, upstream, clock, page).waits;
    if Continues(reply) {
      WaitsAreRuleDriven(org, upstream, clock, page + 1);
      var rest := WalkFrom(org, upstream, clock, page + 1).waits;
      RuleDrivenCons(upstream, clock, page, rest);
      assert all == WaitAfter(page, RateLimitWait(reply.rate, clock(page))) + rest;
    } else {
      assert all == [];
    }
  }

  /** The pause after a continuing page, followed by rule-driven pauses of
      the later pages in page order, is rule-driven and in page order. */
  lemma RuleDrivenCons(upstream: seq<PageReply>, clock: nat -> int, page: nat, rest: seq<Wait>)
    requires page >= 1 && Continues(ReplyAt(upstream, clock, page))
    requires forall w <- rest :: RuleDriven(upstream, clock, page + 1, w)
    requires InPageOrder(rest)
    ensures var all := WaitAfter(page, RateLimitWait(ReplyAt(upstream, clock, page).rate, clock(page))) + rest;
            (forall w <- all :: RuleDriven(upstream, clock, page, w)) && InPageOrder(all)
  {
    var head := WaitAfter(page, RateLimitWait(ReplyAt(upstream, clock, page).rate, clock(page)));
    var all := head + rest;
    assert StopPage(upstream, clock, page) == StopPage(upstream, clock, page + 1);
    forall w <- all
      ensures RuleDriven(upstream, clock, page, w)
    {
      if w in rest {
        assert RuleDriven(upstream, clock, page + 1, w);
      }
    }
    forall i, j | 0 <= i < j < |all|
      ensures all[i].afterPage < all[j].afterPage
    {
      assert all[j] == rest[j - |head|] && rest[j - |head|] in rest;
      if i >= |head| {
        assert all[i] == rest[i - |head|];
      }
    }
  }

  /** Every page of the walk that the rate-limit rule makes pause is followed
      by a pause. */
  lemma {:induction false} WaitsAreComplete(org: string, upstream: seq<PageReply>, clock: nat -> int, page: nat, q: nat)
    requires 1 <= page <= q < StopPage(upstream, clock, page)
    requires RateLimitWait(ReplyAt(upstream, clock, q).rate, clock(q)).Some?
    ensures exists w <- WalkFrom(org, upstream, clock, page).waits :: w.afterPage == q
    decreases q - page
  {
    var reply := ReplyAt(upstream, clock, page);
    assert Continues(reply);
    var all := WalkFrom(org, upstream, clock, page).waits;
    var rest := WalkFrom(org, upstream, clock, page + 1).waits;
    var head := WaitAfter(page, RateLimitWait(reply.rate, clock(page)));
    assert all == head + rest;
    if q == page {
      assert head[0] in all;
    } else {
      WaitsAreComplete(org, upstream, clock, page + 1, q);
      var w :| w in rest && w.afterPage == q;
      assert w in all;
    }
  }

  /** Every request of the walk from `page` goes out before the abort timer
      fires. */
  predicate InTime(upstream: seq<PageReply>, clock: nat -> int, page: nat)
    requires page >= 1
    decreases |upstream| + 1 - page
  {
    && !Expired(upstream, clock, page)
    && (Continues(PageAt(upstream, page)) ==> InTime(upstream, clock, page + 1))
  }

  /** As long as every request goes out before the deadline, pausing only
      delays: the clock never changes which pages are requested or what the
      walk returns. */
  lemma {:induction false} WaitsNeverChangeOutcome(org: string, upstream: seq<PageReply>, c1: nat -> int, c2: nat -> int, page: nat)
    requires page >= 1
    requires InTime(upstream, c1, page) && InTime(upstream, c2, page)
    ensures WalkFrom(org, upstream, c1, page).result == WalkFrom(org, upstream, c2, page).result
    ensures WalkFrom(org, upstream, c1, page).requested == WalkFrom(org, upstream, c2, page).requested
    decreases |upstream| + 1 - page
  {
    if Continues(PageAt(upstream, page)) {
      WaitsNeverChangeOutcome(org, upstream, c1, c2, page + 1);
    }
  }

  /** A request sent after the deadline, a pause that runs past it
      included, ends the walk with the timeout error. */
  lemma {:induction false} LateRequestTimesOut(org: string, upstream: seq<PageReply>, clock: nat -> int, page: nat)
    requires page >= 1
    requires !InTime(upstream, clock, page)
    ensures WalkFrom(org, upstream, clock, page).result == Failure(TimedOut)
    decreases |upstream| + 1 - page
  {
    if !Expired(upstream, clock, page) {
      LateRequestTimesOut(org, upstream, clock, page + 1);
    }
  }

  /** The walk resumed after pages whose items, requests and pauses are
      already recorded. */
  function Resume(collected: seq<RepoItem>, requested: seq<nat>, waits: seq<Wait>, w: Walk): Walk {
    Walk(Prepend(collected, w.result), requested + w.requested, waits + w.waits)
  }

  lemma ResumeNothing(w: Walk)
    ensures Resume([], [], [], w) == w
  {
    assert [] + w.requested == w.requested;
    assert [] + w.waits == w.waits;
    if w.result.Success? {
      assert [] + w.result.value == w.result.value;
    }
  }

  /** One more non-empty page read: its items, its request and its pause move
      from the rest of the walk into what is recorded. */
  lemma ResumeAfterPage(org: string, upstream: seq<PageReply>, clock: nat -> int, page: nat,
                        collected: seq<RepoItem>, requested: seq<nat>, waits: seq<Wait>)
    requires page >= 1 && Continues(ReplyAt(upstream, clock, page))
    ensures var reply := ReplyAt(upstream, clock, page);
            Resume(collected, requested, waits, WalkFrom(org, upstream, clock, page))
            == Resume(collected + reply.items, requested + [page],
                      waits + WaitAfter(page, RateLimitWait(reply.rate, clock(page))),
                      WalkFrom(org, upstream, clock, page + 1))
  {
    var reply := ReplyAt(upstream, clock, page);
    var rest := WalkFrom(org, upstream, clock, page + 1);
    var head := WaitAfter(page, RateLimitWait(reply.rate, clock(page)));
    assert requested + ([page] + rest.requested) == (requested + [page]) + rest.requested;
    assert waits + (head + rest.waits) == (waits + head) + rest.waits;
    if rest.result.Success? {
      assert collected + (reply.items + rest.result.value) == (collected + reply.items) + rest.result.value;
    }
  }

  /** After a page that continues the walk, the next request goes out once
      that page's pause is over. */
  lemma NextSendTime(upstream: seq<PageReply>, clock: nat -> int, page: nat)
    requires page >= 1 && Continues(ReplyAt(upstream, clock, page))
    ensures SendTime(upstream, clock, page + 1)
         == clock(page) + RateLimitWait(ReplyAt(upstream, clock, page).rate, clock(page)).GetOr(0)
  {
  }

  /** The walk ends on this page: it is recorded, and the outcome follows. */
  lemma ResumeAtStop(org: string, upstream: seq<PageReply>, clock: nat -> int, page: nat,
                     collected: seq<RepoItem>, requested: seq<nat>, waits: seq<Wait>)
    requires page >= 1 && !Continues(ReplyAt(upstream, clock, page))
    ensures var reply := ReplyAt(upstream, clock, page);
            Resume(collected, requested, waits, WalkFrom(org, upstream, clock, page))
            == Walk(Outcome(org, page, reply, collected), requested + [page], waits)
  {
    assert waits + [] == waits;
    assert collected + [] == collected;
  }

  /** The loop of `fetchAllRepos`: request page after page, stop at the first
      empty one, fail on the first non-OK one, pause when the quota is low. */
  method FetchAllRepos(org: string, upstream: seq<PageReply>, clock: nat -> int)
    returns (result: Result<seq<RepoItem>, FetchError>, requested: seq<nat>, waits: seq<Wait>)
    ensures Walk(result, requested, waits) == WalkFrom(org, upstream, clock, 1)
  {
    var allRepos: seq<RepoItem> := [];
    var page: nat := 1;
    var deadline := clock(0) + DeadlineMs;
    var sendAt := clock(0);
    requested, waits := [], [];
    ghost var whole := WalkFrom(org, upstream, clock, 1);
    ResumeNothing(whole);
    while true
      invariant 1 <= page <= |upstream| + 1
      invariant sendAt == SendTime(upstream, clock, page)
      invariant whole == Resume(allRepos, requested, waits, WalkFrom(org, upstream, clock, page))
      decreases |upstream| + 1 - page
    {
      var reply := Send(upstream, page, sendAt, deadline);
      assert reply == ReplyAt(upstream, clock, page);
      if !Continues(reply) {
        ResumeAtStop(org, upstream, clock, page, allRepos, requested, waits);
        requested := requested + [page];
        result := StopAt(org, page, reply, allRepos);
        return;
      }
      ResumeAfterPage(org, upstream, clock, page, allRepos, requested, waits);
      NextSendTime(upstream, clock, page);
      ghost var waitsBefore := waits;
      requested := requested + [page];
      allRepos := allRepos + reply.items;
      page := page + 1;
      var pause := RateLimitWait(reply.rate, clock(page - 1));
      if pause.Some? {
        waits := waits + [Wait(page - 1, pause.value)];
      }
      assert waits == waitsBefore + WaitAfter(page - 1, pause);
      sendAt := clock(page - 1) + pause.GetOr(0);
    }
  }

  /** The checks the loop makes on a page that ends it (route.ts:29-40):
      an aborted request or a failed `fetch` rethrows, a non-OK status throws
      (404 as an unknown organization), and an empty OK page ends the walk
      with everything collected so far. */
  method StopAt(org: string, page: nat, reply: PageReply, allRepos: seq<RepoItem>)
    returns (result: Result<seq<RepoItem>, FetchError>)
    requires !Continues(reply)
    ensures result == Outcome(org, page, reply, allRepos)
    ensures result.Success? <==> reply.Listed? && IsOk(reply.status)
  {
    if reply.Aborted? {
      return Failure(TimedOut);
    }
    if reply.TransportFailure? {
      return Failure(Transport(reply.message));
    }
    if !IsOk(reply.status) {
      if reply.status == 404 {
        return Failure(NotFound(org));
      }
      return Failure(PageFailed(page, reply.statusText));
    }
    assert |reply.items| == 0;
    return Success(allRepos);
  }

  /** The message of the error `fetchAllRepos` throws (route.ts:33, 35, 62);
      a page failure names the page and the status text. */
  function Message(e: FetchError): (m: string)
    ensures e.PageFailed? ==> Contains(m, NatToString(e.page)) && Contains(m, e.statusText)
    ensures e.NotFound? ==> Contains(m, e.org)
  {
    match e
    case NotFound(org) =>
      var m := "Organization " + org + " not found";
      ContainsAt(m, org, 13);
      m
    case PageFailed(page, text) =>
      var p := NatToString(page);
      var m := "Failed to fetch repositories (page " + p + "): " + text;
      ContainsAt(m, p, 35);
      ContainsAt(m, text, |m| - |text|);
      m
    case TimedOut => "GitHub API request timed out"
    case Transport(m) => m
  }
}
