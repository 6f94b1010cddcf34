/** What a GET promises across calls and across repositories
    (src/app/api/github/route.ts:68-193). */
module RouteProperties {
  import opened Wrappers
  import opened Records
  import opened Pagination
  import opened Cache
  import opened Route
  import opened Ordering

  /** The repositories a successful walk lists, and none otherwise. */
  function ListedItems(org: string, up: Upstream, clock: nat -> int): seq<RepoItem> {
    var walk := WalkFrom(org, up.listing, clock, 1);
    if walk.result.Success? then walk.result.value else []
  }

  /** Where the record an enhancement returns comes from, given the answer
      `cached` of its read: the cached copy on a hit; on a miss, the fresh
      copy when both sub-requests answered and storing it can succeed, and
      otherwise the input record. A failed read gives no record. */
  predicate SlotFrom(st: StoreState, org: string, repo: RepoRecord, cached: Lookup, up: Upstream, r: RepoRecord) {
    match cached
    case Hit(v) => v == Single(r)
    case Miss =>
      var detail := FreshDetail(repo, up.commits(repo.name), up.runs(repo.name));
      if detail.Some? && !(st.present && EnhancedKey(org, repo.name) in st.writeFaults) then r == detail.value
      else r == repo
    case Fault => false
  }

  /** An enhancement leaves every other key as it was. */
  lemma EnhanceRepoFrame(st: StoreState, org: string, repo: RepoRecord, cached: Lookup, up: Upstream, key: string)
    requires WellTyped(st.entries) && LookupTyped(cached)
    requires key != EnhancedKey(org, repo.name)
    ensures Read(EnhanceRepo(st, org, repo, cached, up).store, key) == Read(st, key)
  {
  }

  /** The record an enhancement returns comes from the answer of its read. */
  lemma EnhanceRepoSlot(st: StoreState, org: string, repo: RepoRecord, cached: Lookup, up: Upstream)
    requires WellTyped(st.entries) && LookupTyped(cached)
    requires EnhanceRepo(st, org, repo, cached, up).repo.Some?
    ensures SlotFrom(st, org, repo, cached, up, EnhanceRepo(st, org, repo, cached, up).repo.value)
  {
  }

  /** In a completed batch, slot i is what its call made of the answer
      `looks[i]` of its read. */
  lemma {:induction false} FinishAllSlots(st: StoreState, org: string, repos: seq<RepoRecord>, looks: seq<Lookup>, up: Upstream)
    requires WellTyped(st.entries)
    requires |looks| == |repos| && forall l <- looks :: LookupTyped(l)
    requires FinishAll(st, org, repos, looks, up).repos.Some?
    ensures forall i :: 0 <= i < |repos| ==>
              SlotFrom(st, org, repos[i], looks[i], up, FinishAll(st, org, repos, looks, up).repos.value[i])
    decreases |repos|
  {
    if repos != [] {
      assert looks == [looks[0]] + looks[1..];
      var x := EnhanceRepo(st, org, repos[0], looks[0], up);
      var rest := FinishAll(x.store, org, repos[1..], looks[1..], up);
      var out := FinishAll(st, org, repos, looks, up).repos.value;
      assert FinishAll(st, org, repos, looks, up) == CallThen(x, rest);
      assert out == [x.repo.value] + rest.repos.value;
      EnhanceRepoSlot(st, org, repos[0], looks[0], up);
      FinishAllSlots(x.store, org, repos[1..], looks[1..], up);
      SlotsCons(st, x.store, org, repos, looks, up, out);
    }
  }

  /** The slots of the rest of a batch, judged on the store after its first
      call, are judged the same on the store before it. */
  lemma SlotsCons(st: StoreState, st': StoreState, org: string, repos: seq<RepoRecord>, looks: seq<Lookup>,
                  up: Upstream, out: seq<RepoRecord>)
    requires st'.present == st.present && st'.writeFaults == st.writeFaults
    requires |repos| == |looks| == |out| > 0
    requires SlotFrom(st, org, repos[0], looks[0], up, out[0])
    requires forall i :: 0 <= i < |repos| - 1 ==> SlotFrom(st', org, repos[1..][i], looks[1..][i], up, out[1..][i])
    ensures forall i :: 0 <= i < |repos| ==> SlotFrom(st, org, repos[i], looks[i], up, out[i])
  {
    forall i | 0 < i < |repos|
      ensures SlotFrom(st, org, repos[i], looks[i], up, out[i])
    {
      assert repos[1..][i - 1] == repos[i] && looks[1..][i - 1] == looks[i] && out[1..][i - 1] == out[i];
      assert SlotFrom(st', org, repos[i], looks[i], up, out[i]);
    }
  }

  /** Every slot of a completed batch holds what the store held for that
      repository before the batch began, or else, as the store's writes
      allow, the fresh enhancement of the input record or the record itself.
      Every read of the batch precedes its writes, so a repository listed
      twice is enhanced twice. */
  lemma EnhanceAllSlots(st: StoreState, org: string, repos: seq<RepoRecord>, up: Upstream)
    requires WellTyped(st.entries)
    requires EnhanceAll(st, org, repos, up).repos.Some?
    ensures forall i :: 0 <= i < |repos| ==>
              SlotFrom(st, org, repos[i], Read(st, EnhancedKey(org, repos[i].name)), up, EnhanceAll(st, org, repos, up).repos.value[i])
  {
    FinishAllSlots(st, org, repos, Lookups(st, org, repos), up);
  }

  /** Once a GET has answered from a configured store whose listing key can
      be read, the next GET for the same organization answers the same
      repositories from the cache, with no request and no change to the
      store, whatever the hosting API, the clock and the random fields then
      are. */
  lemma ServeIsIdempotent(st: StoreState, orgParam: Option<string>, up: Upstream, clock: nat -> int, extras: nat -> Synthetic,
                          up': Upstream, clock': nat -> int, extras': nat -> Synthetic)
    requires WellTyped(st.entries)
    requires st.present && AllKey(OrgName(orgParam)) !in st.readFaults
    requires Serve(st, orgParam, up, clock, extras).response.Ok200?
    ensures var first := Serve(st, orgParam, up, clock, extras);
            Serve(first.store, orgParam, up', clock', extras') == Served(first.response, first.store, [])
  {
    var org := OrgName(orgParam);
    var first := Serve(st, orgParam, up, clock, extras);
    if Read(st, AllKey(org)).Miss? {
      var items := WalkFrom(org, up.listing, clock, 1).result.value;
      var assembled := Assemble(st, org, items, extras, up);
      assert first.store == assembled.store && first.response == assembled.response;
      assert Read(first.store, AllKey(org)) == Hit(Listing(first.response.repos));
    }
  }

  /** A failed read of an enhanced key among the first five repositories
      turns the whole answer into the 500 error, although the read belongs to
      the enhancement. */
  lemma ServeFailsOnDetailReadFault(st: StoreState, orgParam: Option<string>, up: Upstream, clock: nat -> int,
                                    extras: nat -> Synthetic, i: nat)
    requires WellTyped(st.entries)
    requires Read(st, AllKey(OrgName(orgParam))).Miss?
    requires var items := ListedItems(OrgName(orgParam), up, clock);
             && WalkFrom(OrgName(orgParam), up.listing, clock, 1).result.Success?
             && i < Min(DetailedReposLimit, |items|)
             && st.present && EnhancedKey(OrgName(orgParam), items[i].name) in st.readFaults
    ensures Serve(st, orgParam, up, clock, extras).response == Error500(ServerErrorText)
  {
    var org := OrgName(orgParam);
    var items := ListedItems(org, up, clock);
    var summaries := Summaries(items, extras);
    var k := Min(DetailedReposLimit, |summaries|);
    assert summaries[..k][i].name == items[i].name;
    assert summaries[..k][i] in summaries[..k];
  }

  /** Each of the first five slots of a successful answer holds the copy
      cached for that repository, or else, as the store's writes allow, the
      summary's fresh enhancement or the summary itself. */
  lemma ServeEnhancedSlots(st: StoreState, orgParam: Option<string>, up: Upstream, clock: nat -> int,
                           extras: nat -> Synthetic, i: nat)
    requires WellTyped(st.entries)
    requires Read(st, AllKey(OrgName(orgParam))).Miss?
    requires Serve(st, orgParam, up, clock, extras).response.Ok200?
    requires i < Min(DetailedReposLimit, |ListedItems(OrgName(orgParam), up, clock)|)
    ensures var items := ListedItems(OrgName(orgParam), up, clock);
            var org := OrgName(orgParam);
            var summary := Summarize(items[i], extras(i));
            SlotFrom(st, org, summary, Read(st, EnhancedKey(org, summary.name)), up,
                     Serve(st, orgParam, up, clock, extras).response.repos[i])
  {
    var org := OrgName(orgParam);
    var items := ListedItems(org, up, clock);
    var summaries := Summaries(items, extras);
    var k := Min(DetailedReposLimit, |summaries|);
    var batch := EnhanceAll(st, org, summaries[..k], up);
    EnhanceAllSlots(st, org, summaries[..k], up);
    assert summaries[..k][i] == Summarize(items[i], extras(i));
    assert Serve(st, orgParam, up, clock, extras).response.repos == batch.repos.value + summaries[k..];
  }

  /** A failed sub-request of one of the first five repositories does not
      fail the route: with the listing uncached, no failing read of an
      enhanced key and no failing write of the listing, `GET` answers 200 and
      the slot of that repository is its plain summary. */
  lemma ServeSurvivesThrownReply(st: StoreState, orgParam: Option<string>, up: Upstream, clock: nat -> int,
                                 extras: nat -> Synthetic, i: nat)
    requires WellTyped(st.entries)
    requires Read(st, AllKey(OrgName(orgParam))).Miss?
    requires WalkFrom(OrgName(orgParam), up.listing, clock, 1).result.Success?
    requires !DetailReadFault(st, OrgName(orgParam), ListedItems(OrgName(orgParam), up, clock))
    requires !(st.present && AllKey(OrgName(orgParam)) in st.writeFaults)
    requires i < Min(DetailedReposLimit, |ListedItems(OrgName(orgParam), up, clock)|)
    requires var name := ListedItems(OrgName(orgParam), up, clock)[i].name;
             && Read(st, EnhancedKey(OrgName(orgParam), name)).Miss?
             && (up.commits(name).CommitsThrown? || up.runs(name).RunsThrown?)
    ensures Serve(st, orgParam, up, clock, extras).response.Ok200?
    ensures Serve(st, orgParam, up, clock, extras).response.repos[i]
            == Summarize(ListedItems(OrgName(orgParam), up, clock)[i], extras(i))
  {
    ServeEnhancedSlots(st, orgParam, up, clock, extras, i);
  }

  /** Every call of a batch runs whatever the others do: turning one failing
      read into a hit changes neither the requests sent nor the store left. */
  lemma {:induction false} FaultStopsNothing(st: StoreState, org: string, repos: seq<RepoRecord>, looks: seq<Lookup>,
                                             up: Upstream, i: nat)
    requires WellTyped(st.entries)
    requires |looks| == |repos| && forall l <- looks :: LookupTyped(l)
    requires i < |looks| && looks[i].Fault?
    ensures var looks' := looks[i := Hit(Single(repos[i]))];
            && FinishAll(st, org, repos, looks', up).requests == FinishAll(st, org, repos, looks, up).requests
            && FinishAll(st, org, repos, looks', up).store == FinishAll(st, org, repos, looks, up).store
    decreases |repos|
  {
    var looks' := looks[i := Hit(Single(repos[i]))];
    assert forall l <- looks' :: LookupTyped(l);
    var x := EnhanceRepo(st, org, repos[0], looks[0], up);
    var x' := EnhanceRepo(st, org, repos[0], looks'[0], up);
    assert looks == [looks[0]] + looks[1..];
    assert looks' == [looks'[0]] + looks'[1..];
    if i == 0 {
      assert looks'[1..] == looks[1..];
    } else {
      assert looks'[1..] == looks[1..][i - 1 := Hit(Single(repos[1..][i - 1]))];
      FaultStopsNothing(x.store, org, repos[1..], looks[1..], up, i - 1);
    }
  }

  /** Two stores on which no write fails give the same records and requests
      for the same answers of the reads. */
  lemma {:induction false} FinishAllWriteSafe(st1: StoreState, st2: StoreState, org: string, repos: seq<RepoRecord>,
                                              looks: seq<Lookup>, up: Upstream)
    requires WellTyped(st1.entries) && WellTyped(st2.entries)
    requires !st1.present || st1.writeFaults == {}
    requires !st2.present || st2.writeFaults == {}
    requires |looks| == |repos| && forall l <- looks :: LookupTyped(l)
    ensures FinishAll(st1, org, repos, looks, up).repos == FinishAll(st2, org, repos, looks, up).repos
    ensures FinishAll(st1, org, repos, looks, up).requests == FinishAll(st2, org, repos, looks, up).requests
    decreases |repos|
  {
    if repos != [] {
      assert looks == [looks[0]] + looks[1..];
      var x1 := EnhanceRepo(st1, org, repos[0], looks[0], up);
      var x2 := EnhanceRepo(st2, org, repos[0], looks[0], up);
      assert x1.repo == x2.repo && x1.requests == x2.requests;
      FinishAllWriteSafe(x1.store, x2.store, org, repos[1..], looks[1..], up);
    }
  }

  /** A store that holds none of the batch's keys and never fails behaves
      like no store at all: every read misses and every write succeeds. */
  lemma ColdStoreBatch(absent: StoreState, cold: StoreState, org: string, repos: seq<RepoRecord>, up: Upstream)
    requires !absent.present && WellTyped(absent.entries)
    requires cold.present && cold.readFaults == {} && cold.writeFaults == {} && WellTyped(cold.entries)
    requires forall r <- repos :: EnhancedKey(org, r.name) !in cold.entries
    ensures EnhanceAll(absent, org, repos, up).repos == EnhanceAll(cold, org, repos, up).repos
    ensures EnhanceAll(absent, org, repos, up).requests == EnhanceAll(cold, org, repos, up).requests
  {
    var looks := Lookups(cold, org, repos);
    assert Lookups(absent, org, repos) == looks by {
      forall i | 0 <= i < |repos|
        ensures looks[i] == Miss
      {
        assert repos[i] in repos;
      }
    }
    FinishAllWriteSafe(absent, cold, org, repos, looks, up);
  }

  /** Without a configured store, GET answers what a first GET against an
      empty, healthy store answers, and sends the same requests. */
  lemma NoStoreMatchesColdStore(readFaults: set<string>, writeFaults: set<string>, entries: map<string, Entry>,
                                orgParam: Option<string>, up: Upstream, clock: nat -> int, extras: nat -> Synthetic)
    requires WellTyped(entries)
    ensures var absent := Serve(StoreState(false, readFaults, writeFaults, entries), orgParam, up, clock, extras);
            var cold := Serve(StoreState(true, {}, {}, map[]), orgParam, up, clock, extras);
            absent.response == cold.response && absent.requests == cold.requests
  {
    var org := OrgName(orgParam);
    var walk := WalkFrom(org, up.listing, clock, 1);
    if walk.result.Success? {
      var items := walk.result.value;
      var summaries := Summaries(items, extras);
      var k := Min(DetailedReposLimit, |summaries|);
      ColdStoreBatch(StoreState(false, readFaults, writeFaults, entries), StoreState(true, {}, {}, map[]),
                     org, summaries[..k], up);
    }
  }
}
