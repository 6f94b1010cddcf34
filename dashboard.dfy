/** The dashboard's reductions over the repository array the route answers
    with (src/app/page.tsx:97-158): the totals, the two charts' top lists,
    the name shortening, and the error message shown when the request fails.
    The dashboard copies the array before sorting (`[...repos]`); here every
    sequence is a value, so the input is never changed. */
module Dashboard {
  import opened Wrappers
  import opened Text
  import opened Records
  import opened Ordering
  import Route

  datatype Totals = Totals(repositories: nat, stars: nat, forks: nat, commits: nat, issues: nat, botActions: nat)

  /** One bar or slice of a chart. */
  datatype ChartPoint = ChartPoint(name: string, value: int)

  function BotFlag(r: RepoRecord): nat {
    if r.isBotAction then 1 else 0
  }

  /** `repos.filter(repo => repo.is_bot_action).length`. */
  function BotCount(repos: seq<RepoRecord>): (n: nat)
    ensures n <= |repos|
    decreases |repos|
  {
    if repos == [] then 0 else BotCount(repos[..|repos| - 1]) + BotFlag(repos[|repos| - 1])
  }

  /** A helper for `TotalStatsOrderFree`: the count is an instance of `Sum`,
      whose order independence is proved once in `Ordering`. */
  lemma {:induction false} BotCountIsSum(repos: seq<RepoRecord>)
    ensures BotCount(repos) == Sum(repos, BotFlag)
    decreases |repos|
  {
    if repos != [] {
      BotCountIsSum(repos[..|repos| - 1]);
    }
  }

  function Stars(r: RepoRecord): nat { r.stars }
  function Forks(r: RepoRecord): nat { r.forks }
  function Commits(r: RepoRecord): nat { r.commitsCount }
  function Issues(r: RepoRecord): nat { r.openIssues }
  predicate HasIssues(r: RepoRecord) { r.openIssues > 0 }

  /** The sort keys of the two charts. */
  function ByStars(r: RepoRecord): int { r.stars }
  function ByIssues(r: RepoRecord): int { r.openIssues }

  /** `totalStats`. */
  function TotalStats(repos: seq<RepoRecord>): (t: Totals)
    ensures t.repositories == |repos|
    ensures t.botActions <= t.repositories
  {
    Totals(|repos|, Sum(repos, Stars), Sum(repos, Forks), Sum(repos, Commits), Sum(repos, Issues), BotCount(repos))
  }

  /** The totals describe the set of repositories, not the order the route
      listed them in. */
  lemma TotalStatsOrderFree(a: seq<RepoRecord>, b: seq<RepoRecord>)
    requires multiset(a) == multiset(b)
    ensures TotalStats(a) == TotalStats(b)
  {
    assert |a| == |multiset(a)| == |b|;
    SumPermutation(a, b, Stars);
    SumPermutation(a, b, Forks);
    SumPermutation(a, b, Commits);
    SumPermutation(a, b, Issues);
    SumPermutation(a, b, BotFlag);
    BotCountIsSum(a);
    BotCountIsSum(b);
  }

  /** The label rule of the charts: a name longer than `limit` keeps its
      first `keep` characters and gains "...", which brings it to `limit`. */
  function ShortName(name: string, limit: nat, keep: nat): (s: string)
    requires keep + 3 == limit
    ensures |s| <= limit
    ensures |name| <= limit ==> s == name
    ensures |name| > limit ==> |s| == limit && s[..keep] == name[..keep] && EndsWith(s, "...")
  {
    if |name| > limit then name[..keep] + "..." else name
  }

  predicate ValuesNonIncreasing(ps: seq<ChartPoint>) {
    forall i, j :: 0 <= i < j < |ps| ==> ps[i].value >= ps[j].value
  }

  /** The `.map(...)` after the slice: one labelled point per record. */
  function Points(top: seq<RepoRecord>, key: RepoRecord -> int, limit: nat, keep: nat): (ps: seq<ChartPoint>)
    requires keep + 3 == limit
    ensures |ps| == |top|
    ensures forall i :: 0 <= i < |top| ==>
              ps[i].value == key(top[i]) && ps[i].name == ShortName(top[i].name, limit, keep) && |ps[i].name| <= limit
    ensures NonIncreasing(top, key) ==> ValuesNonIncreasing(ps)
  {
    seq(|top|, i requires 0 <= i < |top| => ChartPoint(ShortName(top[i].name, limit, keep), key(top[i])))
  }

  /** `topReposByStars`: the five most-starred repositories, most first,
      labels cut to 15 characters. TopByIsTop says that no repository left
      out has more stars than one shown. */
  function TopReposByStars(repos: seq<RepoRecord>): (ps: seq<ChartPoint>)
    ensures |ps| == Min(5, |repos|)
    ensures ValuesNonIncreasing(ps)
    ensures forall i :: 0 <= i < |ps| ==> |ps[i].name| <= 15 && ps[i].value == TopBy(repos, ByStars, 5)[i].stars
    ensures forall i :: 0 <= i < |ps| ==> ps[i].name == ShortName(TopBy(repos, ByStars, 5)[i].name, 15, 12)
  {
    Points(TopBy(repos, ByStars, 5), ByStars, 15, 12)
  }

  /** `repos.filter(repo => repo.open_issues_count > 0)`, in order. */
  function WithIssues(repos: seq<RepoRecord>): (out: seq<RepoRecord>)
    ensures forall r <- out :: r.openIssues > 0
    ensures forall r <- repos :: r.openIssues > 0 ==> r in out
    ensures multiset(out) <= multiset(repos)
    decreases |repos|
  {
    if repos == [] then []
    else
      var rest := WithIssues(repos[1..]);
      assert repos == [repos[0]] + repos[1..];
      if repos[0].openIssues > 0 then [repos[0]] + rest else rest
  }

  /** The filter keeps every repository with open issues as often as it is
      listed, and no other. */
  lemma {:induction false} WithIssuesCounts(repos: seq<RepoRecord>)
    ensures forall r :: multiset(WithIssues(repos))[r] == (if r.openIssues > 0 then multiset(repos)[r] else 0)
    decreases |repos|
  {
    if repos != [] {
      assert repos == [repos[0]] + repos[1..];
      WithIssuesCounts(repos[1..]);
    }
  }

  /** The filter keeps the order: filtering a concatenation concatenates the
      filtered parts. */
  lemma {:induction false} WithIssuesConcat(a: seq<RepoRecord>, b: seq<RepoRecord>)
    ensures WithIssues(a + b) == WithIssues(a) + WithIssues(b)
    decreases |a|
  {
    if a == [] {
      assert a + b == b;
    } else {
      assert (a + b)[0] == a[0] && (a + b)[1..] == a[1..] + b;
      WithIssuesConcat(a[1..], b);
      if a[0].openIssues > 0 {
        assert [a[0]] + (WithIssues(a[1..]) + WithIssues(b)) == ([a[0]] + WithIssues(a[1..])) + WithIssues(b);
      }
    }
  }

  /** A single repository is kept exactly when it has open issues. */
  lemma WithIssuesSingle(r: RepoRecord)
    ensures WithIssues([r]) == (if r.openIssues > 0 then [r] else [])
  {
    assert [r][1..] == [];
  }

  /** `topReposByIssues`: at most seven repositories that have open issues,
      most first, labels cut to 18 characters. */
  function TopReposByIssues(repos: seq<RepoRecord>): (ps: seq<ChartPoint>)
    ensures |ps| == Min(7, |WithIssues(repos)|)
    ensures ValuesNonIncreasing(ps)
    ensures forall i :: 0 <= i < |ps| ==> ps[i].value > 0 && |ps[i].name| <= 18
    ensures forall i :: 0 <= i < |ps| ==>
              && ps[i].value == TopBy(WithIssues(repos), ByIssues, 7)[i].openIssues
              && ps[i].name == ShortName(TopBy(WithIssues(repos), ByIssues, 7)[i].name, 18, 15)
  {
    var withIssues := WithIssues(repos);
    var top := TopBy(withIssues, ByIssues, 7);
    SubMultisetKeeps(withIssues, top, HasIssues);
    assert forall i :: 0 <= i < |top| ==> top[i] in top && HasIssues(top[i]);
    Points(top, ByIssues, 18, 15)
  }

  /** The reply of a failed request as the dashboard sees it: `response` is
      present for an HTTP error status; `error` and `message` are fields of
      the JSON body. */
  datatype HttpFailure = HttpFailure(status: int, error: Option<string>, message: Option<string>)
  datatype ClientError = ClientError(response: Option<HttpFailure>, message: string)

  const OrgNotFoundError := "Organization not found"
  // The two messages below are each one string; they are written in two
  // pieces only to keep the lines short.
  const UnexpectedText := "An unexpected" + " error occurred. Please try again."
  const NetworkText := "A network" + " error occurred. Please check your connection and try again."
  const NotFoundPrefix := "Error 404: "
  const ServerPrefix := "Error fetching data: "
  const ServerSuffix := ". Please try again later."

  /** `x || fallback` on an optional string. */
  function OrElse(x: Option<string>, fallback: string): string {
    if x.Some? && x.value != "" then x.value else fallback
  }

  /** The text shown for the route's "organization not found" answer. */
  function OrgNotFoundText(org: string): string {
    "The GitHub organization '" + org + "' could not be found. Please check the spelling and try again."
  }

  /** A string whose character at `i` differs from the prefix's does not
      start with it. */
  lemma NotStartsWith(s: string, prefix: string, i: nat)
    requires i < |s| && i < |prefix| && s[i] != prefix[i]
    ensures !StartsWith(s, prefix)
  {
    assert |prefix| <= |s| ==> s[..|prefix|][i] == s[i];
  }

  /** The message `fetchData` shows when its request fails. */
  function ErrorMessage(org: string, e: ClientError): (m: string)
    ensures e.response.Some? && e.response.value.status == 404 && e.response.value.error == Some(OrgNotFoundError) ==>
              m == OrgNotFoundText(org) && Contains(m, org)
    ensures e.response.Some? && e.response.value.status == 404 && e.response.value.error != Some(OrgNotFoundError) ==>
              m == NotFoundPrefix + OrElse(e.response.value.message, "One or more resources not found.")
    ensures StartsWith(m, NotFoundPrefix) <==>
              e.response.Some? && e.response.value.status == 404 && e.response.value.error != Some(OrgNotFoundError)
    ensures StartsWith(m, ServerPrefix) <==> e.response.Some? && e.response.value.status != 404
    ensures e.response.Some? && e.response.value.status != 404 ==>
              && m == ServerPrefix + OrElse(e.response.value.message, "Server error") + ServerSuffix
              && Contains(m, OrElse(e.response.value.message, "Server error"))
    ensures e.response.None? ==> (m == NetworkText <==> Contains(e.message, "Network Error"))
    ensures e.response.None? && !Contains(e.message, "Network Error") ==> m == UnexpectedText
  {
    if e.response.Some? then
      var r := e.response.value;
      if r.status == 404 then
        if r.error == Some(OrgNotFoundError) then
          var m := OrgNotFoundText(org);
          ContainsAt(m, org, 25);
          NotStartsWith(m, NotFoundPrefix, 0);
          NotStartsWith(m, ServerPrefix, 0);
          m
        else
          var m := NotFoundPrefix + OrElse(r.message, "One or more resources not found.");
          assert m[..|NotFoundPrefix|] == NotFoundPrefix;
          NotStartsWith(m, ServerPrefix, 6);
          m
      else
        var detail := OrElse(r.message, "Server error");
        var m := ServerPrefix + detail + ServerSuffix;
        ContainsAt(m, detail, 21);
        assert m[..|ServerPrefix|] == ServerPrefix;
        NotStartsWith(m, NotFoundPrefix, 6);
        m
    else
      NotStartsWith(NetworkText, NotFoundPrefix, 0);
      NotStartsWith(NetworkText, ServerPrefix, 0);
      NotStartsWith(UnexpectedText, NotFoundPrefix, 0);
      NotStartsWith(UnexpectedText, ServerPrefix, 0);
      assert NetworkText != UnexpectedText by {
        assert NetworkText[1] != UnexpectedText[1];
      }
      if Contains(e.message, "Network Error") then NetworkText else UnexpectedText
  }

  /** How an answer of the route reaches the dashboard: a 500 answer is an
      HTTP error whose body has an `error` field and no `message`. */
  function AsClientError(r: Route.Response): ClientError
    requires r.Error500?
  {
    ClientError(Some(HttpFailure(500, Some(r.error), None)), "Request failed with status code 500")
  }

  /** Every failure of the route shows the generic server message; the
      organization-not-found message can never be shown, because the route
      answers every failure, an unknown organization included, with 500. */
  lemma RouteFailureMessage(org: string, r: Route.Response)
    requires r.Error500?
    ensures ErrorMessage(org, AsClientError(r)) == ServerPrefix + "Server error" + ServerSuffix
  {
  }
}
