/** The key/value store the route keeps its answers in: an optional Redis
    instance (src/app/api/github/route.ts:4-9, 69-76, 125-127, 142, 149-154,
    185-187). Keys are `github-analytics:{org}:all` for a whole listing and
    `github-analytics:{org}:{name}:enhanced` for one enhanced repository.
    Every value the route stores is a JSON array or object, so every stored
    value is truthy and a lookup hits exactly when the key is present. */
module Cache {
  import opened Text
  import opened Records

  /** Lifetime of a listing, in seconds. */
  const CacheTtl: nat := 3600
  /** Lifetime of an enhanced repository: twice that of a listing. */
  const EnhancedTtl: nat := CacheTtl * 2

  const KeyPrefix := "github-analytics:"
  const AllSuffix := ":all"
  const EnhancedSuffix := ":enhanced"

  datatype CacheValue = Listing(repos: seq<RepoRecord>) | Single(repo: RepoRecord)

  datatype Entry = Entry(value: CacheValue, ttl: nat)

  /** What `redis.get` gives: no value, a value, or a rejected promise. */
  datatype Lookup = Miss | Hit(value: CacheValue) | Fault

  /** The store as the route sees it. `present` is false when no Redis URL is
      configured; reads of the keys in `readFaults` and writes of the keys in
      `writeFaults` fail. */
  datatype StoreState = StoreState(
    present: bool,
    readFaults: set<string>,
    writeFaults: set<string>,
    entries: map<string, Entry>)

  function AllKey(org: string): string {
    KeyPrefix + org + AllSuffix
  }

  function EnhancedKey(org: string, name: string): string {
    KeyPrefix + org + ":" + name + EnhancedSuffix
  }

  lemma KeySuffixes(org: string, name: string)
    ensures EndsWith(AllKey(org), AllSuffix) && !EndsWith(AllKey(org), EnhancedSuffix)
    ensures EndsWith(EnhancedKey(org, name), EnhancedSuffix) && !EndsWith(EnhancedKey(org, name), AllSuffix)
  {
    var a := AllKey(org);
    var e := EnhancedKey(org, name);
    assert a[|a| - |AllSuffix|..] == AllSuffix;
    assert a[|a| - 1] == 'l';
    assert |EnhancedSuffix| <= |a| ==> a[|a| - |EnhancedSuffix|..][|EnhancedSuffix| - 1] == a[|a| - 1];
    assert e[|e| - |EnhancedSuffix|..] == EnhancedSuffix;
    assert e[|e| - 1] == 'd';
    assert e[|e| - |AllSuffix|..][|AllSuffix| - 1] == e[|e| - 1];
  }

  /** A listing key is never the key of an enhanced repository. */
  lemma KeysNeverCollide(org: string, org': string, name: string)
    ensures AllKey(org) != EnhancedKey(org', name)
  {
    KeySuffixes(org, name);
    KeySuffixes(org', name);
  }

  /** Within one organization, distinct repositories have distinct keys. */
  lemma EnhancedKeyInjective(org: string, name: string, name': string)
    ensures EnhancedKey(org, name) == EnhancedKey(org, name') ==> name == name'
  {
    var start := |KeyPrefix + org + ":"|;
    if EnhancedKey(org, name) == EnhancedKey(org, name') {
      assert EnhancedKey(org, name)[start..start + |name|] == name;
      assert EnhancedKey(org, name')[start..start + |name'|] == name';
    }
  }

  /** Distinct organizations have distinct listing keys. */
  lemma AllKeyInjective(org: string, org': string)
    ensures AllKey(org) == AllKey(org') ==> org == org'
  {
    if AllKey(org) == AllKey(org') {
      assert AllKey(org)[|KeyPrefix|..|KeyPrefix| + |org|] == org;
      assert AllKey(org')[|KeyPrefix|..|KeyPrefix| + |org'|] == org';
    }
  }

  /** The route stores listings only under listing keys and single records
      only under enhanced keys. */
  predicate WellTyped(entries: map<string, Entry>) {
    forall k <- entries ::
      && (entries[k].value.Listing? ==> EndsWith(k, AllSuffix))
      && (entries[k].value.Single? ==> EndsWith(k, EnhancedSuffix))
  }

  /** `redis.get(key)` behind `if (redis)`: no store means a miss. */
  function Read(st: StoreState, key: string): (r: Lookup)
    ensures !st.present ==> r == Miss
    ensures r == Fault <==> st.present && key in st.readFaults
    ensures r.Hit? <==> st.present && key !in st.readFaults && key in st.entries
    ensures r.Hit? ==> r.value == st.entries[key].value
  {
    if !st.present then Miss
    else if key in st.readFaults then Fault
    else if key in st.entries then Hit(st.entries[key].value)
    else Miss
  }

  /** A hit on a listing key of a well-typed store is a listing, and a hit on
      an enhanced key is a single record. */
  lemma ReadIsTyped(st: StoreState, org: string, name: string)
    requires WellTyped(st.entries)
    ensures Read(st, AllKey(org)).Hit? ==> Read(st, AllKey(org)).value.Listing?
    ensures Read(st, EnhancedKey(org, name)).Hit? ==> Read(st, EnhancedKey(org, name)).value.Single?
  {
    KeySuffixes(org, name);
  }

  /** `redis.set(key, value, { ex: ttl })` behind `if (redis)`: the first
      component says whether the call completed without an error. Without a
      store nothing is written and nothing fails. */
  function Write(st: StoreState, key: string, value: CacheValue, ttl: nat): (r: (bool, StoreState))
    ensures r.0 <==> !st.present || key !in st.writeFaults
    ensures r.1.present == st.present && r.1.readFaults == st.readFaults && r.1.writeFaults == st.writeFaults
    ensures st.present && r.0 ==> key in r.1.entries && r.1.entries[key] == Entry(value, ttl)
    ensures forall k :: k != key ==> (k in r.1.entries <==> k in st.entries)
    ensures forall k <- st.entries :: k != key ==> r.1.entries[k] == st.entries[k]
    ensures !(st.present && r.0) ==> r.1 == st
  {
    if !st.present then (true, st)
    else if key in st.writeFaults then (false, st)
    else (true, st.(entries := st.entries[key := Entry(value, ttl)]))
  }

  /** Writing a value under a key of its own kind keeps the store well typed. */
  lemma WriteKeepsTyping(st: StoreState, key: string, value: CacheValue, ttl: nat)
    requires WellTyped(st.entries)
    requires value.Listing? ==> EndsWith(key, AllSuffix)
    requires value.Single? ==> EndsWith(key, EnhancedSuffix)
    ensures WellTyped(Write(st, key, value, ttl).1.entries)
  {
  }

  /** The Redis client: its configuration is fixed, its contents change. */
  class Store {
    const present: bool
    const readFaults: set<string>
    const writeFaults: set<string>
    var entries: map<string, Entry>

    function State(): StoreState
      reads this
    {
      StoreState(present, readFaults, writeFaults, entries)
    }

    ghost predicate Valid()
      reads this
    {
      WellTyped(entries)
    }

    constructor (present: bool, readFaults: set<string>, writeFaults: set<string>, entries: map<string, Entry>)
      requires WellTyped(entries)
      ensures Valid()
      ensures State() == StoreState(present, readFaults, writeFaults, entries)
    {
      this.present := present;
      this.readFaults := readFaults;
      this.writeFaults := writeFaults;
      this.entries := entries;
    }

    method Get(key: string) returns (r: Lookup)
      ensures r == Read(State(), key)
    {
      if !present {
        r := Miss;
      } else if key in readFaults {
        r := Fault;
      } else if key in entries {
        r := Hit(entries[key].value);
      } else {
        r := Miss;
      }
    }

    method Set(key: string, value: CacheValue, ttl: nat) returns (ok: bool)
      requires Valid()
      requires value.Listing? ==> EndsWith(key, AllSuffix)
      requires value.Single? ==> EndsWith(key, EnhancedSuffix)
      modifies this
      ensures Valid()
      ensures (ok, State()) == Write(old(State()), key, value, ttl)
    {
      if !present {
        ok := true;
      } else if key in writeFaults {
        ok := false;
      } else {
        entries := entries[key := Entry(value, ttl)];
        ok := true;
      }
    }
  }
}
