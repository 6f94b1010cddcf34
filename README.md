# GitHub organization analytics — a Dafny model

This project models the core of a small dashboard for the repositories of one GitHub
organization:

- the server route `GET /api/github` (`src/app/api/github/route.ts`);
- the reductions the dashboard page computes over the route's answer
  (`src/app/page.tsx`);
- the workflow-run panel's arithmetic (`src/components/GitHubActionsAnalytics.tsx`).

The route works in four steps:

1. It walks the "list organization repositories" endpoint page by page, pausing when the
   rate-limit quota runs low.
2. It builds one summary record per repository.
3. It enhances the first five records with a commit count and the recent workflow runs.
   The commit count is read from the `rel="last"` link of the Web Linking header,
   section 3 of RFC 8288.
4. It keeps both the whole listing and each enhanced record in an optional Redis store,
   in cache-aside fashion.

Every error that reaches the `catch` of `GET` becomes a 500 answer with a fixed error text:
a failed listing walk, a failed read of a cache key, a failed write of the listing. A commits
or runs reply that threw, or a failed write of an enhanced record, is caught inside
`enhanceRepoData` instead: that repository keeps its plain summary and the answer is still 200
(`RouteProperties.ServeSurvivesThrownReply`).

| Module | What it models |
|---|---|
| `Pagination` | The page walk. `WalkFrom` is the walk as a function; the method `FetchAllRepos` is the loop itself, proved equal to it. The lemmas state what a walk requests, returns and waits for. |
| `LinkHeader` | The regular-expression match `page=(\d+)>; rel="last"`, proved against the expression's own meaning. |
| `WorkflowRuns` | The field-by-field mapping of workflow runs and bot detection. |
| `Cache` | The store. `StoreState` with `Read`/`Write` is the specification. The class `Store` is the mutable client, proved against it. |
| `Route` | `enhanceRepoData` and `GET`, as functions (`EnhanceRepo`, `Serve`) and as methods over the `Store` object and an array of slots (`EnhanceRepoData`, `Get`). Each method is proved equal to its function. |
| `RouteProperties` | Properties relating several calls or several repositories. |
| `Ordering`, `Dashboard` | The dashboard's totals, top lists, label shortening and error message. |
| `ActionsAnalytics` | The newest-first in-place sort, the tallies, the recent list and the duration text. |

All hosting-API replies, the clock and the randomly generated fields are parameters:

- the listing is a finite sequence of page replies, and every page past its end answers
  200 with an empty list;
- commit and run replies are functions of the repository name;
- the clock is a function of the page number;
- the random summary fields are a function of the position.

The five enhancements that the source starts together with `Promise.all` are modelled in
two phases. Each call issues its store read before it waits on anything, so all five reads
come first and see the store as it was before the batch (`Route.Lookups`). The rest of
each call then runs in index order (`Route.FinishAll`). A call whose read failed rejects,
but the other calls still send their requests and write their copies; only the batch's
result is the rejection (`RouteProperties.FaultStopsNothing`). The array of summaries is then updated slot by slot from the
batch's records, as the `forEach` does.

The route never answers 404. Every failure is a 500, an unknown organization included: a
404 from the listing becomes a thrown error that `GET` turns into 500. So the dashboard's
"organization could not be found" message, which needs a 404 whose body says
`Organization not found`, can never be shown for this route's answers
(`Dashboard.RouteFailureMessage`).

A read failure of an enhanced key happens outside the `try` of `enhanceRepoData`. It
therefore rejects `Promise.all` and turns the whole answer into 500
(`RouteProperties.ServeFailsOnDetailReadFault`). A failed write of an enhanced key, by
contrast, is caught and gives back the input record.

## Model

| member | source | states |
|---|---|---|
| Text.NatToString | src/components/GitHubActionsAnalytics.tsx:124 | the rendering of a non-negative integer is a non-empty digit string with no leading zero whose decimal value is the integer |
| Text.DigitRunIsUnique | src/app/api/github/route.ts:100 | the longest leading digit run is the only non-empty all-digit prefix not followed by a digit |
| Text.ParseInt | src/app/api/github/route.ts:48-49 | after leading white space and one optional sign, no leading digit gives no number; otherwise the number is the decimal value of the longest digit run, negated after a minus sign |
| Text.ParseIntOfRendered | src/app/api/github/route.ts:100 | `parseInt` reads back a rendered integer whatever non-digit text follows it |
| Records.Summarize | src/app/api/github/route.ts:157-173 | a summary copies every upstream field, has commit count 0 and no runs, and carries the supplied bot flag |
| Pagination.ReadRateHeaders | src/app/api/github/route.ts:47-49 | an absent or empty remaining header gives no quota reading; an absent or empty reset header reads as 0; rendered numbers read back as themselves |
| Pagination.RateLimitWait | src/app/api/github/route.ts:46-55 | a pause happens exactly when the remaining quota parses below 5 and the reset parses; it lasts max(0, reset*1000 - now) + 1000 ms, so at least 1000 ms |
| Pagination.StopPage | src/app/api/github/route.ts:25-44 | the page that ends the walk is the first one at or after the start that is not a non-empty OK page; every page before it continues the walk |
| Pagination.Pages | src/app/api/github/route.ts:19-44 | the consecutive page numbers from the first to the last, in order |
| Pagination.Outcome | src/app/api/github/route.ts:31-41 | a page that ends the walk gives success exactly on an OK reply, and then the items collected so far with the page empty; the timeout error exactly on an abort; not-found exactly on 404; the page-failure error exactly on another non-OK status |
| Pagination.WalkFrom | src/app/api/github/route.ts:17-66 | a walk from page p requests page p first, and never requests nothing |
| Pagination.WalkFromShape | src/app/api/github/route.ts:17-66 | a walk from page p requests pages p..k in order, where k is the stop page, and ends with the outcome of page k applied to the items of pages p..k-1 concatenated in page order |
| Pagination.FetchAllReposOutcome | src/app/api/github/route.ts:17-66 | pages 1..k are requested; the walk succeeds exactly when page k is an empty OK page, and then returns pages 1..k-1 concatenated; it fails with not-found exactly on a 404, with the page and status text on another non-OK status, and with the timeout error exactly on an abort; there is no partial list |
| Pagination.WaitsAreRuleDriven | src/app/api/github/route.ts:46-55 | every pause follows a page before the stop page that the rate-limit rule makes pause, lasts what the rule computes, and pauses come in page order |
| Pagination.WaitsAreComplete | src/app/api/github/route.ts:46-55 | every continuing page for which the rule computes a pause is followed by a pause |
| Pagination.ReplyAt | src/app/api/github/route.ts:21-29 | a request sent 10 s or more after the walk started, pauses included, is aborted; an earlier one gets the page's reply |
| Pagination.WaitsNeverChangeOutcome | src/app/api/github/route.ts:21-56 | as long as every request of the walk goes out before the 10 s deadline, the clock, and hence the pauses, never changes which pages are requested or what the walk returns, for the same replies, in-flight aborts included |
| Pagination.LateRequestTimesOut | src/app/api/github/route.ts:21-64 | when some request of the walk would go out after the deadline, for instance after a long rate-limit pause, the walk fails with the timeout error |
| Pagination.FetchAllRepos | src/app/api/github/route.ts:17-66 | the loop's result, requested pages and pauses are exactly those of the walk from page 1 |
| Pagination.StopAt | src/app/api/github/route.ts:26-41 | on a page that ends the walk: abort gives the timeout error, a failed fetch rethrows, 404 gives not-found, another non-OK status names the page, and an empty OK page returns what was collected; success exactly on an OK status |
| Pagination.Message | src/app/api/github/route.ts:33-35 | the not-found message names the organization; the page-failure message contains the page number and the status text |
| LinkHeader.MatchAtIsRegexMatch | src/app/api/github/route.ts:98 | the matcher finds a match at a position exactly when `page=(\d+)>; rel="last"` matches there, and captures the same digits |
| LinkHeader.FirstMatchIsLeftmost | src/app/api/github/route.ts:98 | the search returns the match at the leftmost matching position, and nothing when no position matches |
| LinkHeader.FirstMatchIsRegexCapture | src/app/api/github/route.ts:98 | the search answers nothing when the expression matches nowhere, and otherwise the digits captured by the leftmost match |
| LinkHeader.CommitsCount | src/app/api/github/route.ts:95-102 | a failed reply or a missing header gives 0; a header the expression does not match gives 0; otherwise the count is the decimal value of the digits captured by the leftmost match |
| LinkHeader.CommitsCountOfLastLink | src/app/api/github/route.ts:95-102 | for a header whose first match is the `rel="last"` link to page n, the commit count is n |
| WorkflowRuns.MapRun | src/app/api/github/route.ts:107-116 | fields are copied; the actor is the login when it is non-empty, otherwise "unknown"; `is_bot` holds exactly when the actor contains "[bot]", and only when there is a login containing it |
| WorkflowRuns.MapRuns | src/app/api/github/route.ts:107-116 | one mapped run per input run, in order |
| WorkflowRuns.Actions | src/app/api/github/route.ts:104-117 | a failed reply or a missing `workflow_runs` gives no runs; otherwise run i is input run i mapped by `MapRun`; every run's bot flag agrees with its actor |
| Cache.KeySuffixes | src/app/api/github/route.ts:69 | listing keys end in ":all" and never in ":enhanced", and enhanced keys the reverse |
| Cache.KeysNeverCollide | src/app/api/github/route.ts:142 | no listing key equals an enhanced key |
| Cache.EnhancedKeyInjective | src/app/api/github/route.ts:69 | within one organization, distinct repository names have distinct enhanced keys |
| Cache.AllKeyInjective | src/app/api/github/route.ts:142 | distinct organizations have distinct listing keys |
| Cache.Read | src/app/api/github/route.ts:71-76 | without a store every read misses; a read fails exactly on a faulty key; it hits exactly when the key is present and returns its value |
| Cache.ReadIsTyped | src/app/api/github/route.ts:150-152 | in a well-typed store, a hit on a listing key is a listing and a hit on an enhanced key is a single record |
| Cache.Write | src/app/api/github/route.ts:125-127 | a write fails exactly on a faulty key of a configured store; a successful write stores the value with its TTL and leaves every other key as it was; without a store nothing changes |
| Cache.WriteKeepsTyping | src/app/api/github/route.ts:186 | writing a value under a key of its own kind keeps the store well typed |
| Cache.Store.constructor | src/app/api/github/route.ts:4-7 | the client starts with the given configuration and contents |
| Cache.Store.Get | src/app/api/github/route.ts:72 | the client's read answers what `Read` gives for its current state |
| Cache.Store.Set | src/app/api/github/route.ts:126 | the client's write changes its state exactly as `Write` does and keeps it well typed |
| Route.OrgName | src/app/api/github/route.ts:141 | a non-empty `org` parameter is used as given, otherwise "datasets" |
| Route.Summaries | src/app/api/github/route.ts:157-173 | one summary per listed repository, in order |
| Route.ListRequests | src/app/api/github/route.ts:26-27 | one listing request per requested page, in order |
| Route.FreshDetail | src/app/api/github/route.ts:95-123 | when neither reply threw, the copy differs from the input only in the commit count and the runs, which are those the two replies give |
| Route.EnhanceRepo | src/app/api/github/route.ts:68-137 | given the answer of its read: a read fault rejects with no request; a hit returns the cached record with no request and no store change; a miss sends the commits and runs requests; it returns the input record unchanged when a reply threw or the write failed; when both replies came back and the write succeeds it returns the fresh copy and stores exactly that copy under the repository's key for 7200 s; any store change is that write |
| Route.Lookups | src/app/api/github/route.ts:71-72 | each read of a batch answers what the store held for its repository's key before the batch |
| Route.LookupsFault | src/app/api/github/route.ts:71-72 | some read of a batch fails exactly when the store is configured and one of the batch's keys is a read fault |
| Route.FinishAll | src/app/api/github/route.ts:177-179 | the batch rejects exactly when one of its reads failed; the store stays well typed with its configuration fixed; a completed batch has one record per input |
| Route.EnhanceAll | src/app/api/github/route.ts:177-179 | the batch rejects exactly when the store is configured and the read of one of its repositories' keys fails; without a store nothing is written; a completed batch has one record per input |
| Route.Assemble | src/app/api/github/route.ts:175-189 | the answer is 200 exactly when no read of the enhanced key of one of the first min(5, n) repositories fails and the listing write does not fail; a successful answer has one record per listed repository, plain summaries from index 5 on, and is stored under the listing key for 3600 s; a failed listing write gives 500 |
| Route.Serve | src/app/api/github/route.ts:139-193 | the answer is 200 exactly on a listing hit, or on a listing miss whose walk succeeds with no failing read of an enhanced key among the first min(5, n) repositories and no failing listing write; a listing hit answers the cached listing with no request and no store change; a read fault, a failed walk or a failed listing write gives 500 with the fixed error text; the store's configuration never changes |
| Route.EnhanceRepoData | src/app/api/github/route.ts:68-137 | the method's result, requests and new store state are exactly those `EnhanceRepo` specifies for the store's answer to the read of the repository's key |
| Route.FinishEnhancement | src/app/api/github/route.ts:73-136 | after the read answered, the method's result, requests and new store state are exactly those `EnhanceRepo` specifies |
| Route.ReadAll | src/app/api/github/route.ts:71-72 | the reads issued by the calls of a batch answer exactly `Lookups` |
| Route.FinishBatch | src/app/api/github/route.ts:177-179 | running the rest of every call in index order gives exactly the records, requests and store of `FinishAll` |
| Route.EnhanceBatch | src/app/api/github/route.ts:176-179 | the batch's records, requests and new store state are exactly those of `EnhanceAll` |
| Route.PutBack | src/app/api/github/route.ts:180-182 | slot i becomes record i of the batch, and the slots after the batch are untouched |
| Route.AssembleListing | src/app/api/github/route.ts:157-189 | the answer, requests and new store state are exactly those `Assemble` specifies |
| Route.Get | src/app/api/github/route.ts:139-193 | the answer, requests and new store state are exactly those `Serve` specifies |
| RouteProperties.EnhanceRepoFrame | src/app/api/github/route.ts:125-127 | an enhancement leaves every other key's lookup unchanged |
| RouteProperties.EnhanceRepoSlot | src/app/api/github/route.ts:71-130 | a returned record is the cached copy on a hit; on a miss it is the fresh copy when both replies came back and the write can succeed, and otherwise the input record |
| RouteProperties.FinishAllSlots | src/app/api/github/route.ts:177-179 | in a completed batch, slot i is the cached copy when read i hit; when it missed, the fresh copy if both of repository i's replies came back and the write of its key can succeed, and otherwise input record i |
| RouteProperties.EnhanceAllSlots | src/app/api/github/route.ts:177-182 | each slot of a completed batch holds the copy the store held for its repository before the batch, or else the fresh enhancement when both replies came back and the write can succeed, or else the input record; names need not be distinct |
| RouteProperties.ServeIsIdempotent | src/app/api/github/route.ts:149-154 | after a successful GET on a configured store, the next GET answers the same repositories from the cache, with no request and no store change, whatever the upstream, clock and random fields are |
| RouteProperties.ServeFailsOnDetailReadFault | src/app/api/github/route.ts:71-72 | a failed read of the enhanced key of one of the first five repositories makes the whole answer the 500 error |
| RouteProperties.ServeEnhancedSlots | src/app/api/github/route.ts:175-183 | each of the first min(5, n) slots of a successful answer holds the cached copy for its repository, or else the summary's fresh enhancement when both replies came back and the write can succeed, or else the summary |
| RouteProperties.ServeSurvivesThrownReply | src/app/api/github/route.ts:130-136 | with the listing uncached, no failing read and no failing listing write, a thrown commits or runs reply for one of the first five uncached repositories still gives 200, with that repository's plain summary in its slot |
| RouteProperties.FaultStopsNothing | src/app/api/github/route.ts:177-179 | every call of a batch runs whatever the others do: turning one failing read into a hit changes neither the requests sent nor the store left behind |
| RouteProperties.FinishAllWriteSafe | src/app/api/github/route.ts:124-127 | on two stores where no write fails, the same read answers give the same records and requests |
| RouteProperties.ColdStoreBatch | src/app/api/github/route.ts:71-76 | a store that holds none of the batch's keys and never fails gives the same batch records and requests as no store |
| RouteProperties.NoStoreMatchesColdStore | src/app/api/github/route.ts:4-7 | without a configured store, GET answers and requests exactly what a first GET against an empty, healthy store does |
| Ordering.SumConcat | src/app/page.tsx:131-134 | the sum of a concatenation is the sum of the parts |
| Ordering.SumPermutation | src/app/page.tsx:131-134 | sums over two orderings of the same elements are equal |
| Ordering.Insert | src/app/page.tsx:141 | insertion adds exactly the inserted element |
| Ordering.InsertKeepsOrder | src/app/page.tsx:141 | insertion into a list sorted by descending key keeps it sorted |
| Ordering.SortDesc | src/app/page.tsx:141 | the sort is a permutation of its input, in non-increasing key order |
| Ordering.TopBy | src/app/page.tsx:140-142 | the top list has min(n, length) elements, all from the input, in non-increasing key order |
| Ordering.SortedSplit | src/app/page.tsx:141-142 | in a sorted list nothing after a cut has a larger key than anything before it |
| Ordering.TopByIsTop | src/app/page.tsx:139-147 | no element left out of the top list has a larger key than one in it |
| Dashboard.BotCount | src/app/page.tsx:135 | the number of bot-flagged repositories is at most the number of repositories |
| Dashboard.BotCountIsSum | src/app/page.tsx:135 | the count equals the sum of the 0/1 bot flags |
| Dashboard.TotalStats | src/app/page.tsx:128-137 | `repositories` is the list length and `botActions` never exceeds it |
| Dashboard.TotalStatsOrderFree | src/app/page.tsx:128-137 | the totals depend only on which records there are, not their order |
| Dashboard.ShortName | src/app/page.tsx:144 | a name within the limit is unchanged; a longer one keeps its first `limit - 3` characters, ends in "..." and has exactly `limit` characters |
| Dashboard.Points | src/app/page.tsx:143-146 | one point per record, labelled with its shortened name and valued by the key; a sorted list gives non-increasing values |
| Dashboard.TopReposByStars | src/app/page.tsx:139-147 | at most five points, non-increasing in stars, labels at most 15 characters; point i has the stars of top record i and its name shortened to 15 characters |
| Dashboard.WithIssues | src/app/page.tsx:151 | the filter keeps exactly the records with open issues, all from the input |
| Dashboard.WithIssuesCounts | src/app/page.tsx:151 | each record with open issues is kept as many times as it is listed, and no other record is kept |
| Dashboard.WithIssuesConcat | src/app/page.tsx:151 | filtering a concatenation concatenates the filtered parts, so the input order is kept |
| Dashboard.WithIssuesSingle | src/app/page.tsx:151 | a single record is kept exactly when it has open issues |
| Dashboard.TopReposByIssues | src/app/page.tsx:149-158 | at most seven points, every value positive, non-increasing, labels at most 18 characters; point i has the open issues of record i of the top seven among the records with open issues, and its name shortened to 18 characters |
| Dashboard.ErrorMessage | src/app/page.tsx:97-111 | a 404 with "Organization not found" gives the fixed text naming the organization; any other 404, and only it, gives "Error 404: " followed by the message or "One or more resources not found."; any other status, and only it, gives "Error fetching data: ", the message or "Server error", then ". Please try again later."; with no response the network message appears exactly when the error message contains "Network Error", else the default message |
| Dashboard.RouteFailureMessage | src/app/page.tsx:106-108 | every 500 answer of the route shows the generic server message, never the organization-not-found message |
| ActionsAnalytics.SortNewestFirst | src/components/GitHubActionsAnalytics.tsx:82-84 | after the in-place sort the runs are newest first and are a permutation of the runs before |
| ActionsAnalytics.InsertNewest | src/components/GitHubActionsAnalytics.tsx:82-84 | one insertion step extends the newest-first prefix by one run, permutes the array and leaves the runs after the prefix where they were |
| ActionsAnalytics.Swap | src/components/GitHubActionsAnalytics.tsx:82-84 | exchanging two neighbouring runs changes only those two slots and permutes the array |
| ActionsAnalytics.RecentActions | src/components/GitHubActionsAnalytics.tsx:272 | the recent list is the first min(5, n) runs |
| ActionsAnalytics.RecentAreNewest | src/components/GitHubActionsAnalytics.tsx:82-84 | once sorted, no run left out of the recent list is newer than one shown |
| ActionsAnalytics.CountWhere | src/components/GitHubActionsAnalytics.tsx:94-98 | a filtered count never exceeds the number of runs |
| ActionsAnalytics.StatusesPartition | src/components/GitHubActionsAnalytics.tsx:96-98 | successful, failed and running counts add up to the number of runs |
| ActionsAnalytics.Tally | src/components/GitHubActionsAnalytics.tsx:93-98 | bots never exceed the total, users are the total minus bots, and the three status counts sum to the total |
| ActionsAnalytics.FormatDuration | src/components/GitHubActionsAnalytics.tsx:123-128 | under a minute the text is "Ns"; otherwise "Mm Ss" with m*60 + s equal to the input and s below 60; the text always reads back as the same number of seconds |

## Left out

- Network plumbing is not modelled: `fetch`, `NextResponse`, the response headers object and
  the Redis client. Replies are values. The listing's 10 s timer is modelled through the clock
  (`Pagination.ReplyAt`). A commits or runs reply that threw, including the 3 s abort, is its
  own case.
- Concurrency: within a batch, the reads come first and the rest of each call follows in index
  order. Other interleavings of the sub-requests and writes are not modelled. For a repository
  listed twice among the first five, the write of the later index is the one kept.
- Cache TTL expiry: entries carry their TTL, but time never makes one disappear.
- The `Cache-Control` header of the answer is not modelled.
- Logging (`console.warn`, `console.error`) is not modelled.
- The random summary fields (`actions_count`, `last_action_date`, `last_action_by`,
  `is_bot_action`) are not generated. They are a parameter, indexed by position.
- The simulated workflow runs, the star series and the calendar data are not modelled, and
  neither is the generator loop that builds the runs. The runs are an input of the panel's functions.
- The panel's `timestamp` is an ISO date string that is parsed with `new Date(...).getTime()`.
  The model keeps it as the already-parsed integer. Date parsing is not modelled.
- Floating-point display math is not modelled: the average duration, the success-rate percentage
  and the chart geometry.
- `parseInt` is modelled for decimal text, with leading white space, an optional sign and the
  longest digit run. Hexadecimal `0x` input and white space outside ASCII and a few common
  Unicode spaces are not modelled.
- Text.ParseInt: integers are unbounded. JavaScript numbers are doubles, so `parseInt` of a
  digit run longer than 15 or 16 digits rounds; that rounding is not modelled.
- Pagination.WaitsNeverChangeOutcome: an abort of a request already in flight is part of that
  page's reply, not a function of the clock. In the source one timer aborts the whole walk, so a
  longer rate-limit pause can push a reply past the 10 s mark and turn it into the timeout error.
  The lemma holds the replies, in-flight aborts included, fixed and does not capture that.
- Pagination.FetchAllRepos: the loop's `response.json()` is taken as already parsed into items.
  The rate-limit headers are taken as already read into numbers; `ReadRateHeaders` states how
  the header text maps to them.
- ActionsAnalytics.SortNewestFirst: the comparator sort is modelled as a stable insertion sort.
  Only the order and the permutation are stated, which is what the source relies on; which of
  several runs with equal timestamps comes first is not stated.
- Ordering.SortDesc: stability of `Array.prototype.sort` is built into the definition but not
  stated as a property.
- Strings are sequences of characters. JavaScript's UTF-16 code units, used by `substring` and
  `length`, coincide with them only for text outside the astral planes.
- The dashboard's second request (`type=contributors`) and its contributor list are not modelled.
  The route has no `type` parameter and answers it with the same repository listing.
- The React rendering, state updates and the `useEffect`/`useMemo` wiring are not modelled.
- Route.Serve and the other route functions require a well-typed store: only listings under
  listing keys and single records under enhanced keys. Every write of the route keeps this,
  but a store filled by other programs is not modelled.
