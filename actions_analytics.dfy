/** The workflow-run panel's arithmetic (src/components/GitHubActionsAnalytics.tsx:82-98,
    123-128, 272): the newest-first order, the tallies, the five most recent
    runs, and the duration text. The runs the panel shows are generated at
    random; here they are an input. */
module ActionsAnalytics {
  import opened Wrappers
  import opened Text
  import opened Ordering

  /** The three status literals a run can carry. */
  datatype Status = Success | Failure | Running

  /** One run. `timestamp` is `new Date(timestamp).getTime()`, in
      milliseconds; `duration` is in seconds. */
  datatype GitHubAction = GitHubAction(
    id: int,
    repo: string,
    workflow: string,
    status: Status,
    timestamp: int,
    actor: string,
    duration: nat,
    isBot: bool)

  function Timestamp(a: GitHubAction): int {
    a.timestamp
  }

  /** The in-place `sort` by `getTime()`, newest first. Equal timestamps are
      never swapped. */
  method SortNewestFirst(a: array<GitHubAction>)
    modifies a
    ensures NonIncreasing(a[..], Timestamp)
    ensures multiset(a[..]) == multiset(old(a[..]))
  {
    var i := 0;
    while i < a.Length
      invariant 0 <= i <= a.Length
      invariant forall p, q :: 0 <= p < q < i ==> a[p].timestamp >= a[q].timestamp
      invariant multiset(a[..]) == multiset(old(a[..]))
    {
      InsertNewest(a, i);
      i := i + 1;
    }
  }

  /** One insertion step: the run at `i` moves left past every older run
      before it, so the first `i + 1` runs are newest first. */
  method InsertNewest(a: array<GitHubAction>, i: nat)
    requires i < a.Length
    requires forall p, q :: 0 <= p < q < i ==> a[p].timestamp >= a[q].timestamp
    modifies a
    ensures forall p, q :: 0 <= p < q <= i ==> a[p].timestamp >= a[q].timestamp
    ensures multiset(a[..]) == multiset(old(a[..]))
    ensures a[i + 1..] == old(a[i + 1..])
  {
    var j := i;
    while j > 0 && a[j - 1].timestamp < a[j].timestamp
      invariant 0 <= j <= i
      invariant forall p, q :: 0 <= p < q <= i && p != j && q != j ==> a[p].timestamp >= a[q].timestamp
      invariant forall q :: j < q <= i ==> a[j].timestamp > a[q].timestamp
      invariant 0 < j < i ==> a[j - 1].timestamp >= a[j + 1].timestamp
      invariant multiset(a[..]) == multiset(old(a[..]))
      invariant a[i + 1..] == old(a[i + 1..])
    {
      Swap(a, j - 1);
      j := j - 1;
    }
  }

  /** Exchanges the runs at `k` and `k + 1`. */
  method Swap(a: array<GitHubAction>, k: nat)
    requires k + 1 < a.Length
    modifies a
    ensures a[..] == old(a[..])[k := old(a[k + 1])][k + 1 := old(a[k])]
    ensures multiset(a[..]) == multiset(old(a[..]))
  {
    a[k], a[k + 1] := a[k + 1], a[k];
  }

  /** `actions.slice(0, 5)`. */
  function RecentActions(actions: seq<GitHubAction>): (recent: seq<GitHubAction>)
    ensures |recent| == Min(5, |actions|)
    ensures recent == actions[..|recent|]
  {
    actions[..Min(5, |actions|)]
  }

  /** Once the runs are newest first, no run left out of the recent list is
      newer than one in it. */
  lemma RecentAreNewest(actions: seq<GitHubAction>)
    requires NonIncreasing(actions, Timestamp)
    ensures forall r <- actions[|RecentActions(actions)|..], t <- RecentActions(actions) :: r.timestamp <= t.timestamp
  {
    SortedSplit(actions, Timestamp, Min(5, |actions|));
  }

  /** `actions.filter(p).length`. */
  function CountWhere(actions: seq<GitHubAction>, p: GitHubAction -> bool): (n: nat)
    ensures n <= |actions|
    decreases |actions|
  {
    if actions == [] then 0
    else CountWhere(actions[1..], p) + (if p(actions[0]) then 1 else 0)
  }

  predicate IsBot(a: GitHubAction) { a.isBot }
  predicate Succeeded(a: GitHubAction) { a.status == Status.Success }
  predicate Failed(a: GitHubAction) { a.status == Status.Failure }
  predicate IsRunning(a: GitHubAction) { a.status == Running }

  /** Every run is counted under exactly one status. */
  lemma {:induction false} StatusesPartition(actions: seq<GitHubAction>)
    ensures CountWhere(actions, Succeeded) + CountWhere(actions, Failed) + CountWhere(actions, IsRunning) == |actions|
    decreases |actions|
  {
    if actions != [] {
      StatusesPartition(actions[1..]);
    }
  }

  datatype Tallies = Tallies(total: nat, bots: nat, users: int, successful: nat, failed: nat, running: nat)

  /** The panel's counters. */
  function Tally(actions: seq<GitHubAction>): (t: Tallies)
    ensures t.total == |actions|
    ensures t.bots <= t.total && t.users == t.total - t.bots && t.users >= 0
    ensures t.successful + t.failed + t.running == t.total
  {
    StatusesPartition(actions);
    var bots := CountWhere(actions, IsBot);
    Tallies(|actions|, bots, |actions| - bots,
            CountWhere(actions, Succeeded), CountWhere(actions, Failed), CountWhere(actions, IsRunning))
  }

  /** Reads a duration text back: "Ns" or "Mm Ss". */
  function ParseDuration(t: string): Option<nat> {
    var minutes := DigitRun(t);
    if minutes == [] then None
    else
      var rest := t[|minutes|..];
      if rest == "s" then Some(DecimalValue(minutes))
      else if StartsWith(rest, "m ") then
        var seconds := DigitRun(rest[2..]);
        if seconds != [] && rest[2 + |seconds|..] == "s" then Some(60 * DecimalValue(minutes) + DecimalValue(seconds))
        else None
      else None
  }

  /** `formatDuration`: under a minute "Ns", otherwise "Mm Ss" with the whole
      minutes and the remaining seconds; the text reads back as the same
      number of seconds, and the seconds part is below 60. */
  function FormatDuration(seconds: nat): (t: string)
    ensures ParseDuration(t) == Some(seconds)
    ensures seconds < 60 ==> t == NatToString(seconds) + "s"
    ensures seconds >= 60 ==> exists m: nat, r: nat :: r < 60 && m * 60 + r == seconds && t == NatToString(m) + "m " + NatToString(r) + "s"
  {
    if seconds < 60 then
      var digits := NatToString(seconds);
      DigitRunOfDigitsThen(digits, "s");
      assert (digits + "s")[|digits|..] == "s";
      digits + "s"
    else
      var m := seconds / 60;
      var r := seconds % 60;
      var md := NatToString(m);
      var rd := NatToString(r);
      var t := md + "m " + rd + "s";
      assert t == md + ("m " + rd + "s");
      DigitRunOfDigitsThen(md, "m " + rd + "s");
      var rest := t[|md|..];
      assert rest == "m " + rd + "s";
      assert rest[2..] == rd + "s";
      DigitRunOfDigitsThen(rd, "s");
      assert rest[2 + |rd|..] == "s";
      t
  }
}
