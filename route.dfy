/** The `GET /api/github` handler and the per-repository enhancement
    (`enhanceRepoData` and `GET`, src/app/api/github/route.ts:68-193).

    The hosting API is an Upstream value: the listing pages, and the commits
    and workflow-run replies for each repository name. A reply that threw
    (network failure, the 3 s abort, a body that is not JSON) is its own
    case. The random fields of each summary are supplied by `extras`, indexed
    by position. The five enhancements, which the source starts together,
    issue their store reads first; the rest of each call then runs in index
    order. */
module Route {
  import opened Wrappers
  import opened Text
  import opened Records
  import opened Pagination
  import opened LinkHeader
  import opened WorkflowRuns
  import opened Cache
  import opened Ordering

  /** How many repositories, from the front of the list, are enhanced. */
  const DetailedReposLimit: nat := 5
  const DefaultOrg := "datasets"
  const ServerErrorText := "Failed to fetch repository data"

  datatype CommitsReply = CommitsReply(status: int, link: Option<string>) | CommitsThrown
  datatype RunsReply = RunsReply(status: int, workflowRuns: Option<seq<RunItem>>) | RunsThrown

  datatype Upstream = Upstream(
    listing: seq<PageReply>,
    commits: string -> CommitsReply,
    runs: string -> RunsReply)

  /** A request sent to the hosting API. */
  datatype Request = ListPage(page: nat) | CommitsOf(repo: string) | RunsOf(repo: string)

  /** The JSON answer: the repository array, or status 500 with an error. */
  datatype Response = Ok200(repos: seq<RepoRecord>) | Error500(error: string)

  /** What one GET does: its answer, the store afterwards, its requests. */
  datatype Served = Served(response: Response, store: StoreState, requests: seq<Request>)

  /** One enhancement: the record (None when the promise rejected), the store
      afterwards and the requests sent. */
  datatype Enhancement = Enhancement(repo: Option<RepoRecord>, store: StoreState, requests: seq<Request>)

  /** The enhancements of a run of repositories; None when one rejected. */
  datatype Batch = Batch(repos: Option<seq<RepoRecord>>, store: StoreState, requests: seq<Request>)

  /** `searchParams.get('org') || 'datasets'`. */
  function OrgName(param: Option<string>): (org: string)
    ensures org != ""
    ensures param.Some? && param.value != "" ==> org == param.value
    ensures param.None? || param.value == "" ==> org == DefaultOrg
  {
    if param.Some? && param.value != "" then param.value else DefaultOrg
  }

  /** The summary records, one per listed repository, in order. */
  function Summaries(items: seq<RepoItem>, extras: nat -> Synthetic): (rs: seq<RepoRecord>)
    ensures |rs| == |items|
    ensures forall i :: 0 <= i < |items| ==> rs[i] == Summarize(items[i], extras(i))
  {
    seq(|items|, i requires 0 <= i < |items| => Summarize(items[i], extras(i)))
  }

  function ListRequests(pages: seq<nat>): (rs: seq<Request>)
    ensures |rs| == |pages|
    ensures forall i :: 0 <= i < |pages| ==> rs[i] == ListPage(pages[i])
  {
    seq(|pages|, i requires 0 <= i < |pages| => ListPage(pages[i]))
  }

  /** The copy built from the two replies when neither threw: the input
      record with only the commit count and the runs replaced. */
  function FreshDetail(repo: RepoRecord, commits: CommitsReply, runs: RunsReply): (e: Option<RepoRecord>)
    ensures e.None? <==> commits.CommitsThrown? || runs.RunsThrown?
    ensures e.Some? ==> e.value.(commitsCount := repo.commitsCount, actions := repo.actions) == repo
    ensures e.Some? ==> e.value.commitsCount == CommitsCount(IsOk(commits.status), commits.link)
    ensures e.Some? ==> e.value.actions == Actions(IsOk(runs.status), runs.workflowRuns)
  {
    if commits.CommitsThrown? || runs.RunsThrown? then None
    else Some(repo.(commitsCount := CommitsCount(IsOk(commits.status), commits.link),
                    actions := Actions(IsOk(runs.status), runs.workflowRuns)))
  }

  /** A store answer for an enhanced key of a well-typed store: a hit is a
      single record. */
  predicate LookupTyped(cached: Lookup) {
    cached.Hit? ==> cached.value.Single?
  }

  /** `enhanceRepoData` once its read of the repository's key answered
      `cached`. A cached record is returned as it is, with no request. A
      failed read is outside the `try`, so the call rejects. Otherwise both
      sub-requests are sent. If either threw, or storing the fresh copy
      failed, the input record comes back unchanged; otherwise the fresh
      copy is returned and, with a store, kept under the repository's key
      for 7200 s. Nothing else is ever written. */
  function EnhanceRepo(st: StoreState, org: string, repo: RepoRecord, cached: Lookup, up: Upstream): (x: Enhancement)
    requires WellTyped(st.entries) && LookupTyped(cached)
    ensures WellTyped(x.store.entries)
    ensures x.repo.None? <==> cached.Fault?
    ensures cached.Hit? ==> x == Enhancement(Some(cached.value.repo), st, [])
    ensures cached.Fault? ==> x.store == st && x.requests == []
    ensures cached.Miss? ==> x.requests == [CommitsOf(repo.name), RunsOf(repo.name)]
    ensures cached.Miss? && FreshDetail(repo, up.commits(repo.name), up.runs(repo.name)).None? ==>
              x.repo == Some(repo) && x.store == st
    ensures cached.Miss? && st.present && EnhancedKey(org, repo.name) in st.writeFaults ==>
              x.repo == Some(repo) && x.store == st
    ensures cached.Miss? && FreshDetail(repo, up.commits(repo.name), up.runs(repo.name)).Some?
            && !(st.present && EnhancedKey(org, repo.name) in st.writeFaults) ==>
              && x.repo == FreshDetail(repo, up.commits(repo.name), up.runs(repo.name))
              && x.store == Write(st, EnhancedKey(org, repo.name), Single(x.repo.value), EnhancedTtl).1
    ensures x.store != st ==>
              && x.repo == FreshDetail(repo, up.commits(repo.name), up.runs(repo.name))
              && x.store == st.(entries := st.entries[EnhancedKey(org, repo.name) := Entry(Single(x.repo.value), EnhancedTtl)])
  {
    if cached.Fault? then Enhancement(None, st, [])
    else if cached.Hit? then Enhancement(Some(cached.value.repo), st, [])
    else
      var key := EnhancedKey(org, repo.name);
      var requests := [CommitsOf(repo.name), RunsOf(repo.name)];
      var detail := FreshDetail(repo, up.commits(repo.name), up.runs(repo.name));
      if detail.None? then Enhancement(Some(repo), st, requests)
      else
        KeySuffixes(org, repo.name);
        WriteKeepsTyping(st, key, Single(detail.value), EnhancedTtl);
        var written := Write(st, key, Single(detail.value), EnhancedTtl);
        Enhancement(if written.0 then detail else Some(repo), written.1, requests)
  }

  /** The store reads of a batch. `Promise.all` is handed the calls already
      started, and each call issues its read before it waits on anything, so
      every read of the batch sees the store as it was before the batch. */
  function Lookups(st: StoreState, org: string, repos: seq<RepoRecord>): (ls: seq<Lookup>)
    requires WellTyped(st.entries)
    ensures |ls| == |repos|
    ensures forall i :: 0 <= i < |repos| ==> ls[i] == Read(st, EnhancedKey(org, repos[i].name)) && LookupTyped(ls[i])
  {
    forall i | 0 <= i < |repos|
      ensures LookupTyped(Read(st, EnhancedKey(org, repos[i].name)))
    {
      ReadIsTyped(st, org, repos[i].name);
    }
    seq(|repos|, i requires 0 <= i < |repos| => Read(st, EnhancedKey(org, repos[i].name)))
  }

  /** The rest of every call of a batch, in index order, each after its read
      answered `looks[i]`. A rejection does not stop the other calls: they
      still send their requests and write their copies, but the batch, like
      `Promise.all`, rejects. */
  function FinishAll(st: StoreState, org: string, repos: seq<RepoRecord>, looks: seq<Lookup>, up: Upstream): (b: Batch)
    requires WellTyped(st.entries)
    requires |looks| == |repos| && forall l <- looks :: LookupTyped(l)
    ensures WellTyped(b.store.entries)
    ensures b.store.present == st.present && b.store.readFaults == st.readFaults && b.store.writeFaults == st.writeFaults
    ensures !st.present ==> b.store == st
    ensures b.repos.None? <==> exists l <- looks :: l.Fault?
    ensures b.repos.Some? ==> |b.repos.value| == |repos|
    decreases |repos|
  {
    if repos == [] then Batch(Some([]), st, [])
    else
      var x := EnhanceRepo(st, org, repos[0], looks[0], up);
      assert looks == [looks[0]] + looks[1..];
      CallThen(x, FinishAll(x.store, org, repos[1..], looks[1..], up))
  }

  /** One call followed by the rest of the batch. */
  function CallThen(x: Enhancement, rest: Batch): Batch {
    Batch(if x.repo.None? || rest.repos.None? then None else Some([x.repo.value] + rest.repos.value),
          rest.store, x.requests + rest.requests)
  }

  /** The enhancements of `repos` that `GET` awaits with `Promise.all`. */
  function EnhanceAll(st: StoreState, org: string, repos: seq<RepoRecord>, up: Upstream): (b: Batch)
    requires WellTyped(st.entries)
    ensures WellTyped(b.store.entries)
    ensures b.store.present == st.present && b.store.readFaults == st.readFaults && b.store.writeFaults == st.writeFaults
    ensures !st.present ==> b.store == st
    ensures b.repos.None? <==> st.present && exists r <- repos :: EnhancedKey(org, r.name) in st.readFaults
    ensures b.repos.Some? ==> |b.repos.value| == |repos|
  {
    LookupsFault(st, org, repos);
    FinishAll(st, org, repos, Lookups(st, org, repos), up)
  }

  /** A read of the batch fails exactly when one of its keys is a read fault. */
  lemma LookupsFault(st: StoreState, org: string, repos: seq<RepoRecord>)
    requires WellTyped(st.entries)
    ensures (exists l <- Lookups(st, org, repos) :: l.Fault?)
        <==> st.present && exists r <- repos :: EnhancedKey(org, r.name) in st.readFaults
  {
    var looks := Lookups(st, org, repos);
    if st.present && exists r <- repos :: EnhancedKey(org, r.name) in st.readFaults {
      var r :| r in repos && EnhancedKey(org, r.name) in st.readFaults;
      var i :| 0 <= i < |repos| && repos[i] == r;
      assert looks[i] in looks;
    }
    if exists l <- looks :: l.Fault? {
      var l :| l in looks && l.Fault?;
      var i :| 0 <= i < |looks| && looks[i] == l;
      assert repos[i] in repos;
    }
  }

  /** The store is configured and the read of the enhanced key of one of the
      first `min(5, n)` listed repositories fails. */
  predicate DetailReadFault(st: StoreState, org: string, items: seq<RepoItem>) {
    st.present && exists i :: 0 <= i < Min(DetailedReposLimit, |items|) && EnhancedKey(org, items[i].name) in st.readFaults
  }

  lemma SummariesFault(st: StoreState, org: string, items: seq<RepoItem>, extras: nat -> Synthetic)
    ensures var front := Summaries(items, extras)[..Min(DetailedReposLimit, |items|)];
            (st.present && exists r <- front :: EnhancedKey(org, r.name) in st.readFaults) <==> DetailReadFault(st, org, items)
  {
    var front := Summaries(items, extras)[..Min(DetailedReposLimit, |items|)];
    if st.present && exists r <- front :: EnhancedKey(org, r.name) in st.readFaults {
      var r :| r in front && EnhancedKey(org, r.name) in st.readFaults;
      var i :| 0 <= i < |front| && front[i] == r;
      assert items[i].name == r.name;
    }
    if DetailReadFault(st, org, items) {
      var i :| 0 <= i < Min(DetailedReposLimit, |items|) && EnhancedKey(org, items[i].name) in st.readFaults;
      assert front[i] in front && front[i].name == items[i].name;
    }
  }

  /** The part of `GET` after a successful listing: summaries, enhancement
      of the first `min(5, n)`, the listing write, the answer. The requests
      are those of the enhancements. A successful answer has one record per
      listed repository, and from index 5 on they are the plain summaries. */
  function Assemble(st: StoreState, org: string, items: seq<RepoItem>, extras: nat -> Synthetic, up: Upstream): (s: Served)
    requires WellTyped(st.entries)
    ensures WellTyped(s.store.entries)
    ensures s.store.present == st.present && s.store.readFaults == st.readFaults && s.store.writeFaults == st.writeFaults
    ensures !st.present ==> s.store == st
    ensures s.response.Error500? ==> s.response.error == ServerErrorText
    ensures s.response.Ok200? ==> |s.response.repos| == |items|
    ensures s.response.Ok200? ==>
              forall i :: DetailedReposLimit <= i < |items| ==> s.response.repos[i] == Summarize(items[i], extras(i))
    ensures s.response.Ok200? && st.present ==>
              AllKey(org) in s.store.entries && s.store.entries[AllKey(org)] == Entry(Listing(s.response.repos), CacheTtl)
    ensures st.present && AllKey(org) in st.writeFaults ==> s.response.Error500?
    ensures s.response.Ok200? <==> !DetailReadFault(st, org, items) && !(st.present && AllKey(org) in st.writeFaults)
  {
    var summaries := Summaries(items, extras);
    var k := Min(DetailedReposLimit, |summaries|);
    SummariesFault(st, org, items, extras);
    var batch := EnhanceAll(st, org, summaries[..k], up);
    if batch.repos.None? then Served(Error500(ServerErrorText), batch.store, batch.requests)
    else
      var repos := batch.repos.value + summaries[k..];
      KeySuffixes(org, "");
      WriteKeepsTyping(batch.store, AllKey(org), Listing(repos), CacheTtl);
      var written := Write(batch.store, AllKey(org), Listing(repos), CacheTtl);
      Served(if written.0 then Ok200(repos) else Error500(ServerErrorText), written.1, batch.requests)
  }

  /** `GET`: the answer, the store afterwards and the requests sent. */
  function Serve(st: StoreState, orgParam: Option<string>, up: Upstream, clock: nat -> int, extras: nat -> Synthetic): (s: Served)
    requires WellTyped(st.entries)
    ensures WellTyped(s.store.entries)
    ensures s.store.present == st.present && s.store.readFaults == st.readFaults && s.store.writeFaults == st.writeFaults
    ensures !st.present ==> s.store == st
    ensures s.response.Error500? ==> s.response.error == ServerErrorText
    ensures Read(st, AllKey(OrgName(orgParam))).Hit? ==>
              && Read(st, AllKey(OrgName(orgParam))).value.Listing?
              && s == Served(Ok200(Read(st, AllKey(OrgName(orgParam))).value.repos), st, [])
    ensures Read(st, AllKey(OrgName(orgParam))).Fault? ==> s == Served(Error500(ServerErrorText), st, [])
    ensures Read(st, AllKey(OrgName(orgParam))).Miss? && WalkFrom(OrgName(orgParam), up.listing, clock, 1).result.Failure? ==>
              s.response.Error500? && s.store == st
    ensures Read(st, AllKey(OrgName(orgParam))).Miss? && st.present && AllKey(OrgName(orgParam)) in st.writeFaults ==>
              s.response.Error500?
    ensures var org := OrgName(orgParam);
            var walk := WalkFrom(org, up.listing, clock, 1);
            s.response.Ok200? <==>
              || Read(st, AllKey(org)).Hit?
              || (&& Read(st, AllKey(org)).Miss? && walk.result.Success?
                  && !DetailReadFault(st, org, walk.result.value) && !(st.present && AllKey(org) in st.writeFaults))
  {
    var org := OrgName(orgParam);
    var key := AllKey(org);
    var cached := Read(st, key);
    ReadIsTyped(st, org, "");
    if cached.Fault? then Served(Error500(ServerErrorText), st, [])
    else if cached.Hit? then Served(Ok200(cached.value.repos), st, [])
    else
      var walk := WalkFrom(org, up.listing, clock, 1);
      var listed := ListRequests(walk.requested);
      if walk.result.Failure? then Served(Error500(ServerErrorText), st, listed)
      else
        var assembled := Assemble(st, org, walk.result.value, extras, up);
        Served(assembled.response, assembled.store, listed + assembled.requests)
  }

  /** A batch resumed after the records `done` (None once a call rejected)
      and the requests `sent`. */
  function Join(done: Option<seq<RepoRecord>>, sent: seq<Request>, b: Batch): Batch {
    Batch(if done.None? || b.repos.None? then None else Some(done.value + b.repos.value), b.store, sent + b.requests)
  }

  lemma JoinNothing(b: Batch)
    ensures Join(Some([]), [], b) == b
  {
    assert [] + b.requests == b.requests;
    if b.repos.Some? {
      assert [] + b.repos.value == b.repos.value;
    }
  }

  function Then(done: Option<seq<RepoRecord>>, r: Option<RepoRecord>): Option<seq<RepoRecord>> {
    if done.None? || r.None? then None else Some(done.value + [r.value])
  }

  /** Resuming after one more call of the batch. */
  lemma JoinStep(done: Option<seq<RepoRecord>>, sent: seq<Request>, st: StoreState, org: string,
                 repos: seq<RepoRecord>, looks: seq<Lookup>, up: Upstream)
    requires WellTyped(st.entries)
    requires repos != [] && |looks| == |repos| && forall l <- looks :: LookupTyped(l)
    ensures var x := EnhanceRepo(st, org, repos[0], looks[0], up);
            Join(done, sent, FinishAll(st, org, repos, looks, up))
              == Join(Then(done, x.repo), sent + x.requests, FinishAll(x.store, org, repos[1..], looks[1..], up))
  {
    var x := EnhanceRepo(st, org, repos[0], looks[0], up);
    assert looks == [looks[0]] + looks[1..];
    JoinCallThen(done, sent, x, FinishAll(x.store, org, repos[1..], looks[1..], up));
  }

  lemma JoinCallThen(done: Option<seq<RepoRecord>>, sent: seq<Request>, x: Enhancement, rest: Batch)
    ensures Join(done, sent, CallThen(x, rest)) == Join(Then(done, x.repo), sent + x.requests, rest)
  {
    assert sent + (x.requests + rest.requests) == sent + x.requests + rest.requests;
    if done.Some? && x.repo.Some? && rest.repos.Some? {
      assert done.value + ([x.repo.value] + rest.repos.value) == done.value + [x.repo.value] + rest.repos.value;
    }
  }

  /** `JoinStep` at index `i` of the whole batch. */
  lemma BatchStep(done: Option<seq<RepoRecord>>, sent: seq<Request>, st: StoreState, org: string,
                  repos: seq<RepoRecord>, looks: seq<Lookup>, i: nat, up: Upstream)
    requires WellTyped(st.entries)
    requires i < |repos| && |looks| == |repos| && forall l <- looks :: LookupTyped(l)
    ensures LookupTyped(looks[i])
    ensures var x := EnhanceRepo(st, org, repos[i], looks[i], up);
            Join(done, sent, FinishAll(st, org, repos[i..], looks[i..], up))
              == Join(Then(done, x.repo), sent + x.requests, FinishAll(x.store, org, repos[i + 1..], looks[i + 1..], up))
  {
    assert looks[i] in looks;
    assert repos[i..][0] == repos[i] && looks[i..][0] == looks[i];
    assert repos[i..][1..] == repos[i + 1..] && looks[i..][1..] == looks[i + 1..];
    JoinStep(done, sent, st, org, repos[i..], looks[i..], up);
  }

  /** A batch resumed with nothing left is what was already done. */
  lemma JoinDone(done: Option<seq<RepoRecord>>, sent: seq<Request>, st: StoreState, org: string,
                 repos: seq<RepoRecord>, looks: seq<Lookup>, up: Upstream)
    requires WellTyped(st.entries)
    requires repos == [] && looks == []
    ensures Join(done, sent, FinishAll(st, org, repos, looks, up)) == Batch(done, st, sent)
  {
    assert sent + [] == sent;
    assert done.Some? ==> done.value + [] == done.value;
  }

  /** `enhanceRepoData` against the store object: the read, then the rest. */
  method EnhanceRepoData(store: Store, org: string, repo: RepoRecord, up: Upstream)
    returns (result: Option<RepoRecord>, requests: seq<Request>)
    requires store.Valid()
    modifies store
    ensures store.Valid()
    ensures LookupTyped(Read(old(store.State()), EnhancedKey(org, repo.name)))
    ensures Enhancement(result, store.State(), requests)
         == EnhanceRepo(old(store.State()), org, repo, Read(old(store.State()), EnhancedKey(org, repo.name)), up)
  {
    var cached := store.Get(EnhancedKey(org, repo.name));
    ReadIsTyped(store.State(), org, repo.name);
    result, requests := FinishEnhancement(store, org, repo, cached, up);
  }

  /** What `enhanceRepoData` does once its read answered `cached`. */
  method FinishEnhancement(store: Store, org: string, repo: RepoRecord, cached: Lookup, up: Upstream)
    returns (result: Option<RepoRecord>, requests: seq<Request>)
    requires store.Valid() && LookupTyped(cached)
    modifies store
    ensures store.Valid()
    ensures Enhancement(result, store.State(), requests) == EnhanceRepo(old(store.State()), org, repo, cached, up)
  {
    if cached.Fault? {
      return None, [];
    }
    if cached.Hit? {
      return Some(cached.value.repo), [];
    }
    requests := [CommitsOf(repo.name), RunsOf(repo.name)];
    var commits := up.commits(repo.name);
    var runs := up.runs(repo.name);
    if commits.CommitsThrown? || runs.RunsThrown? {
      return Some(repo), requests;
    }
    var enhanced := repo.(commitsCount := CommitsCount(IsOk(commits.status), commits.link),
                          actions := Actions(IsOk(runs.status), runs.workflowRuns));
    KeySuffixes(org, repo.name);
    var ok := store.Set(EnhancedKey(org, repo.name), Single(enhanced), EnhancedTtl);
    result := if ok then Some(enhanced) else Some(repo);
  }

  /** The reads every call of the batch issues before any of them goes on. */
  method ReadAll(store: Store, org: string, repos: seq<RepoRecord>) returns (looks: seq<Lookup>)
    requires store.Valid()
    ensures looks == Lookups(store.State(), org, repos)
  {
    looks := [];
    var i := 0;
    while i < |repos|
      invariant 0 <= i <= |repos|
      invariant |looks| == i
      invariant forall j :: 0 <= j < i ==> looks[j] == Read(store.State(), EnhancedKey(org, repos[j].name))
    {
      var cached := store.Get(EnhancedKey(org, repos[i].name));
      looks := looks + [cached];
      i := i + 1;
    }
  }

  /** `Promise.all` over the enhancements of `repos`: every call runs to its
      end, and the result is None when one of them rejected. */
  method EnhanceBatch(store: Store, org: string, repos: seq<RepoRecord>, up: Upstream)
    returns (enhanced: Option<seq<RepoRecord>>, sent: seq<Request>)
    requires store.Valid()
    modifies store
    ensures store.Valid()
    ensures Batch(enhanced, store.State(), sent) == EnhanceAll(old(store.State()), org, repos, up)
  {
    var looks := ReadAll(store, org, repos);
    LookupsFault(store.State(), org, repos);
    enhanced, sent := FinishBatch(store, org, repos, looks, up);
  }

  /** The calls of a batch after their reads answered `looks`, in index
      order. */
  method FinishBatch(store: Store, org: string, repos: seq<RepoRecord>, looks: seq<Lookup>, up: Upstream)
    returns (enhanced: Option<seq<RepoRecord>>, sent: seq<Request>)
    requires store.Valid()
    requires |looks| == |repos| && forall l <- looks :: LookupTyped(l)
    modifies store
    ensures store.Valid()
    ensures Batch(enhanced, store.State(), sent) == FinishAll(old(store.State()), org, repos, looks, up)
  {
    ghost var whole := FinishAll(store.State(), org, repos, looks, up);
    JoinNothing(whole);
    enhanced, sent := Some([]), [];
    var i := 0;
    while i < |repos|
      invariant 0 <= i <= |repos|
      invariant store.Valid()
      invariant whole == Join(enhanced, sent, FinishAll(store.State(), org, repos[i..], looks[i..], up))
    {
      var repo, requests := EnhanceNext(store, org, repos, looks, i, enhanced, sent, up);
      enhanced := Then(enhanced, repo);
      sent := sent + requests;
      i := i + 1;
    }
    JoinDone(enhanced, sent, store.State(), org, repos[i..], looks[i..], up);
  }

  /** The rest of call `i` of the batch, as one step of the batch. */
  method EnhanceNext(store: Store, org: string, repos: seq<RepoRecord>, looks: seq<Lookup>, i: nat,
                     ghost done: Option<seq<RepoRecord>>, ghost sent: seq<Request>, up: Upstream)
    returns (repo: Option<RepoRecord>, requests: seq<Request>)
    requires store.Valid()
    requires i < |repos| && |looks| == |repos| && forall l <- looks :: LookupTyped(l)
    modifies store
    ensures store.Valid()
    ensures Join(done, sent, FinishAll(old(store.State()), org, repos[i..], looks[i..], up))
         == Join(Then(done, repo), sent + requests, FinishAll(store.State(), org, repos[i + 1..], looks[i + 1..], up))
  {
    assert looks[i] in looks;
    ghost var before := store.State();
    repo, requests := FinishEnhancement(store, org, repos[i], looks[i], up);
    BatchStep(done, sent, before, org, repos, looks, i, up);
  }

  /** The `forEach` that puts each enhanced record back at its index. */
  method PutBack(slots: array<RepoRecord>, enhanced: seq<RepoRecord>)
    requires |enhanced| <= slots.Length
    modifies slots
    ensures slots[..] == enhanced + old(slots[|enhanced|..])
  {
    var i := 0;
    while i < |enhanced|
      invariant 0 <= i <= |enhanced|
      invariant slots[..i] == enhanced[..i]
      invariant slots[i..] == old(slots[i..])
    {
      slots[i] := enhanced[i];
      assert slots[..i + 1] == enhanced[..i + 1];
      i := i + 1;
    }
    assert slots[..] == slots[..i] + slots[i..];
  }

  /** The array part of `GET`: the summaries in an array, the enhancements of
      the first `min(5, n)` awaited together, put back, then the write. */
  method AssembleListing(store: Store, org: string, items: seq<RepoItem>, extras: nat -> Synthetic, up: Upstream)
    returns (response: Response, sent: seq<Request>)
    requires store.Valid()
    modifies store
    ensures store.Valid()
    ensures Served(response, store.State(), sent) == Assemble(old(store.State()), org, items, extras, up)
  {
    var summaries := Summaries(items, extras);
    var slots := new RepoRecord[|summaries|](j requires 0 <= j < |summaries| => summaries[j]);
    var count := Min(DetailedReposLimit, |summaries|);
    var enhanced;
    enhanced, sent := EnhanceBatch(store, org, slots[..count], up);
    assert slots[..count] == summaries[..count] && slots[count..] == summaries[count..];
    if enhanced.None? {
      return Error500(ServerErrorText), sent;
    }
    PutBack(slots, enhanced.value);
    var repos := slots[..];
    KeySuffixes(org, "");
    var ok := store.Set(AllKey(org), Listing(repos), CacheTtl);
    response := if ok then Ok200(repos) else Error500(ServerErrorText);
  }

  /** `GET` against the store object. */
  method Get(store: Store, orgParam: Option<string>, up: Upstream, clock: nat -> int, extras: nat -> Synthetic)
    returns (response: Response, requests: seq<Request>)
    requires store.Valid()
    modifies store
    ensures store.Valid()
    ensures Served(response, store.State(), requests) == Serve(old(store.State()), orgParam, up, clock, extras)
  {
    var org := OrgName(orgParam);
    var key := AllKey(org);
    var cached := store.Get(key);
    ReadIsTyped(store.State(), org, "");
    if cached.Fault? {
      return Error500(ServerErrorText), [];
    }
    if cached.Hit? {
      return Ok200(cached.value.repos), [];
    }
    var fetched, pages, waits := FetchAllRepos(org, up.listing, clock);
    requests := ListRequests(pages);
    if fetched.Failure? {
      return Error500(ServerErrorText), requests;
    }
    var sent;
    response, sent := AssembleListing(store, org, fetched.value, extras, up);
    requests := requests + sent;
  }
}
