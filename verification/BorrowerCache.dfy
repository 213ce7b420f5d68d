// The reserve-aware borrower cache: snapshots in insertion order, a secondary index from reserves
// to accounts, per-chain counts, TTL pruning and first-in-first-out eviction. The index and counts
// are proved equal to a scan of the stored snapshots.

module BorrowerCache {
  import opened Text
  import opened Chains
  import opened Ordered

  const TTL_ELIGIBLE_FLOOR_MS := 1_500_000_000_000

  /** `reserves` are the asset addresses of the snapshot's reserve rows. */
  datatype BorrowerSnapshot = BorrowerSnapshot(
    chain: SupportedChain, account: Address, healthFactor: nat, reserves: seq<Address>, updatedAtMs: int)

  type Store = map<string, BorrowerSnapshot>

  function SnapshotKey(s: BorrowerSnapshot): string {
    ChainKey(s.chain, s.account)
  }

  // ----- the scan that the index and the counts must agree with -----

  predicate ListsAmong(s: BorrowerSnapshot, n: nat, reserveKey: string)
    requires n <= |s.reserves|
  {
    exists i :: 0 <= i < n && ChainKey(s.chain, s.reserves[i]) == reserveKey
  }

  predicate Lists(s: BorrowerSnapshot, reserveKey: string) {
    ListsAmong(s, |s.reserves|, reserveKey)
  }

  function AccountsUnder(at: Store, reserveKey: string): set<Address> {
    set k | k in at && Lists(at[k], reserveKey) :: at[k].account
  }

  function KeysOn(at: Store, chain: SupportedChain): set<string> {
    set k | k in at && at[k].chain == chain
  }

  function Indexed(index: map<string, set<Address>>, reserveKey: string): set<Address> {
    if reserveKey in index then index[reserveKey] else {}
  }

  function Counted(counts: map<SupportedChain, nat>, chain: SupportedChain): nat {
    if chain in counts then counts[chain] else 0
  }

  ghost predicate Keyed(at: Store) {
    forall k :: k in at ==> SnapshotKey(at[k]) == k
  }

  ghost predicate IndexAgrees(at: Store, index: map<string, set<Address>>, reserveKey: string) {
    Indexed(index, reserveKey) == AccountsUnder(at, reserveKey)
  }

  ghost predicate CountAgrees(at: Store, counts: map<SupportedChain, nat>, chain: SupportedChain) {
    Counted(counts, chain) == |KeysOn(at, chain)|
  }

  /** Every reserve has exactly the accounts a scan finds, and no empty entry is kept. */
  ghost predicate IndexIsScan(at: Store, index: map<string, set<Address>>) {
    && (forall r :: IndexAgrees(at, index, r))
    && (forall r :: r in index ==> index[r] != {})
  }

  ghost predicate CountsAreScan(at: Store, counts: map<SupportedChain, nat>) {
    && (forall c :: CountAgrees(at, counts, c))
    && (forall c :: c in counts ==> counts[c] != 0)
  }

  /** Under one reserve, an account string belongs to one stored key only. */
  lemma AccountHasOneKey(at: Store, k: string, l: string, reserveKey: string)
    requires Keyed(at) && k in at && l in at && Lists(at[k], reserveKey) && Lists(at[l], reserveKey)
    requires at[k].account == at[l].account
    ensures k == l
  {
    var i :| 0 <= i < |at[k].reserves| && ChainKey(at[k].chain, at[k].reserves[i]) == reserveKey;
    var j :| 0 <= j < |at[l].reserves| && ChainKey(at[l].chain, at[l].reserves[j]) == reserveKey;
    ChainKeyIdentifies(at[k].chain, at[k].reserves[i], at[l].chain, at[l].reserves[j]);
  }

  lemma ScanWithout(at: Store, key: string, reserveKey: string)
    requires Keyed(at) && key in at
    ensures AccountsUnder(at - {key}, reserveKey)
            == AccountsUnder(at, reserveKey) - if Lists(at[key], reserveKey) then {at[key].account} else {}
  {
    var rest := at - {key};
    forall a | a in AccountsUnder(rest, reserveKey)
      ensures a in AccountsUnder(at, reserveKey) && (Lists(at[key], reserveKey) ==> a != at[key].account)
    {
      var k :| k in rest && Lists(rest[k], reserveKey) && rest[k].account == a;
      assert k in at && at[k] == rest[k];
      if Lists(at[key], reserveKey) && a == at[key].account {
        AccountHasOneKey(at, k, key, reserveKey);
      }
    }
    forall a | a in AccountsUnder(at, reserveKey) && (a != at[key].account || !Lists(at[key], reserveKey))
      ensures a in AccountsUnder(rest, reserveKey)
    {
      var k :| k in at && Lists(at[k], reserveKey) && at[k].account == a;
      assert k in rest && rest[k] == at[k];
    }
  }

  lemma ScanWith(at: Store, key: string, s: BorrowerSnapshot, reserveKey: string)
    requires key !in at
    ensures AccountsUnder(at[key := s], reserveKey)
            == AccountsUnder(at, reserveKey) + if Lists(s, reserveKey) then {s.account} else {}
  {
    var more := at[key := s];
    forall a | a in AccountsUnder(at, reserveKey) ensures a in AccountsUnder(more, reserveKey) {
      var k :| k in at && Lists(at[k], reserveKey) && at[k].account == a;
      assert k in more && more[k] == at[k];
    }
    if Lists(s, reserveKey) {
      assert key in more && more[key] == s;
    }
    forall a | a in AccountsUnder(more, reserveKey)
      ensures a in AccountsUnder(at, reserveKey) || (Lists(s, reserveKey) && a == s.account)
    {
      var k :| k in more && Lists(more[k], reserveKey) && more[k].account == a;
      assert k != key ==> k in at && at[k] == more[k];
    }
  }

  lemma CountWithout(at: Store, key: string, chain: SupportedChain)
    requires key in at
    ensures |KeysOn(at - {key}, chain)| == |KeysOn(at, chain)| - if at[key].chain == chain then 1 else 0
  {
    var rest := at - {key};
    if at[key].chain == chain {
      assert KeysOn(at, chain) == KeysOn(rest, chain) + {key};
    } else {
      assert KeysOn(at, chain) == KeysOn(rest, chain);
    }
  }

  lemma CountWith(at: Store, key: string, s: BorrowerSnapshot, chain: SupportedChain)
    requires key !in at
    ensures |KeysOn(at[key := s], chain)| == |KeysOn(at, chain)| + if s.chain == chain then 1 else 0
  {
    if s.chain == chain {
      assert KeysOn(at[key := s], chain) == KeysOn(at, chain) + {key};
    } else {
      assert KeysOn(at[key := s], chain) == KeysOn(at, chain);
    }
  }

  lemma CountsWhenReplaced(at: Store, s: BorrowerSnapshot, counts: map<SupportedChain, nat>)
    requires Keyed(at) && SnapshotKey(s) in at && CountsAreScan(at, counts)
    ensures CountsAreScan(at[SnapshotKey(s) := s], counts)
  {
    var key := SnapshotKey(s);
    ChainKeyIdentifies(at[key].chain, at[key].account, s.chain, s.account);
    var at' := at[key := s];
    forall c ensures CountAgrees(at', counts, c) {
      assert CountAgrees(at, counts, c);
      assert KeysOn(at', c) == KeysOn(at, c);
    }
  }

  lemma CountsWhenAdded(at: Store, s: BorrowerSnapshot, counts: map<SupportedChain, nat>)
    requires SnapshotKey(s) !in at && CountsAreScan(at, counts)
    ensures CountsAreScan(at[SnapshotKey(s) := s], counts[s.chain := Counted(counts, s.chain) + 1])
  {
    var more := counts[s.chain := Counted(counts, s.chain) + 1];
    var at' := at[SnapshotKey(s) := s];
    forall c ensures CountAgrees(at', more, c) {
      CountWith(at, SnapshotKey(s), s, c);
      assert CountAgrees(at, counts, c) && CountAgrees(at, counts, s.chain);
    }
  }

  /** The counts after one snapshot of the chain is gone; an entry that would be zero is dropped. */
  function CountsWithout(counts: map<SupportedChain, nat>, chain: SupportedChain): map<SupportedChain, nat> {
    var current := if chain in counts then counts[chain] else 1;
    if current <= 1 then counts - {chain} else counts[chain := current - 1]
  }

  lemma CountsWhenRemoved(at: Store, key: string, counts: map<SupportedChain, nat>)
    requires key in at && CountsAreScan(at, counts)
    ensures CountsAreScan(at - {key}, CountsWithout(counts, at[key].chain))
  {
    var chain := at[key].chain;
    var rest, fewer := at - {key}, CountsWithout(counts, chain);
    forall c ensures CountAgrees(rest, fewer, c) {
      CountWithout(at, key, c);
      assert CountAgrees(at, counts, c) && CountAgrees(at, counts, chain);
      assert key in KeysOn(at, chain);
    }
  }

  // ----- what pruning keeps -----

  predicate Expired(s: BorrowerSnapshot, nowMs: int, ttlMs: int) {
    s.updatedAtMs >= TTL_ELIGIBLE_FLOOR_MS && nowMs - s.updatedAtMs > ttlMs
  }

  function ExpiredKeys(m: OMap<BorrowerSnapshot>, n: nat, nowMs: int, ttlMs: int): set<string>
    requires n <= |m.keys|
  {
    set k | k in m.keys[..n] && k in m.at && Expired(m.at[k], nowMs, ttlMs)
  }

  function Unexpired(m: OMap<BorrowerSnapshot>, nowMs: int, ttlMs: int): OMap<BorrowerSnapshot> {
    m.Remove(ExpiredKeys(m, |m.keys|, nowMs, ttlMs))
  }

  function Overflow(size: nat, maxEntries: int): (n: nat)
    ensures n <= size
  {
    if size <= maxEntries then 0 else if maxEntries < 0 then size else size - maxEntries
  }

  /** Expired snapshots go; then the oldest insertions go until the limit holds. */
  function Pruned(m: OMap<BorrowerSnapshot>, nowMs: int, ttlMs: int, maxEntries: int): OMap<BorrowerSnapshot> {
    WithoutOldest(Unexpired(m, nowMs, ttlMs), maxEntries)
  }

  function WithoutOldest(m: OMap<BorrowerSnapshot>, maxEntries: int): OMap<BorrowerSnapshot> {
    WithoutFirst(m, Overflow(m.Size(), maxEntries))
  }

  function WithoutFirst(m: OMap<BorrowerSnapshot>, n: nat): OMap<BorrowerSnapshot>
    requires n <= |m.keys|
  {
    m.Remove(KeysBefore(m.keys, n))
  }

  lemma WithoutNone(m: OMap<BorrowerSnapshot>)
    ensures WithoutFirst(m, 0) == m
  {
    assert KeysBefore(m.keys, 0) == {};
    RemoveNothing(m);
  }

  lemma WithoutOneMore(m: OMap<BorrowerSnapshot>, n: nat)
    requires m.Valid() && n <= |m.keys|
    ensures WithoutFirst(m, n).Size() == |m.keys| - n
    ensures n < |m.keys| ==>
              && WithoutFirst(m, n).keys != [] && WithoutFirst(m, n).keys[0] in WithoutFirst(m, n).at
              && WithoutFirst(m, n + 1) == WithoutFirst(m, n).Delete(WithoutFirst(m, n).keys[0])
  {
    hide KeysBefore;
    DropPrefix(m.keys, n);
    if n < |m.keys| {
      RemoveOldest(m, n);
      RemoveValid(m, KeysBefore(m.keys, n));
      assert WithoutFirst(m, n).keys[0] == m.keys[n];
    }
  }

  lemma WithoutOldestSize(m: OMap<BorrowerSnapshot>, maxEntries: int)
    requires m.Valid()
    ensures WithoutOldest(m, maxEntries).Valid()
    ensures WithoutOldest(m, maxEntries).Size() <= if maxEntries < 0 then 0 else maxEntries
  {
    var n := Overflow(m.Size(), maxEntries);
    DropPrefix(m.keys, n);
    RemoveValid(m, KeysBefore(m.keys, n));
  }

  /** Deciding one more key: it goes when it is expired. */
  lemma ExpiredStep(m: OMap<BorrowerSnapshot>, i: nat, nowMs: int, ttlMs: int)
    requires m.Valid() && i < |m.keys|
    ensures var key, sofar := m.keys[i], m.Remove(ExpiredKeys(m, i, nowMs, ttlMs));
            && key in m.at && key in sofar.at && sofar.at[key] == m.at[key]
            && m.Remove(ExpiredKeys(m, i + 1, nowMs, ttlMs))
               == if Expired(m.at[key], nowMs, ttlMs) then sofar.Delete(key) else sofar
  {
    ExpiredNext(m, i, nowMs, ttlMs);
    RemoveTwice(m, ExpiredKeys(m, i, nowMs, ttlMs), {m.keys[i]});
  }

  lemma ExpiredNext(m: OMap<BorrowerSnapshot>, i: nat, nowMs: int, ttlMs: int)
    requires m.Valid() && i < |m.keys|
    ensures var key, dead := m.keys[i], ExpiredKeys(m, i, nowMs, ttlMs);
            && key in m.at && key !in dead
            && ExpiredKeys(m, i + 1, nowMs, ttlMs)
               == if Expired(m.at[key], nowMs, ttlMs) then dead + {key} else dead
  {
    assert m.keys[..i + 1] == m.keys[..i] + [m.keys[i]];
    assert m.keys[i] !in m.keys[..i];
  }

  /** With room for at least one entry, a snapshot written to a cache within its limit survives the
      pruning of that write exactly when it is not expired itself. */
  lemma NewSnapshotSurvivesIff(m: OMap<BorrowerSnapshot>, s: BorrowerSnapshot, nowMs: int, ttlMs: int, maxEntries: int)
    requires m.Valid() && maxEntries >= 1 && m.Size() <= maxEntries
    ensures var key := SnapshotKey(s);
            var after := Pruned(m.Set(key, s), nowMs, ttlMs, maxEntries);
            (key in after.at <==> !Expired(s, nowMs, ttlMs)) && (key in after.at ==> after.at[key] == s)
  {
    var key := SnapshotKey(s);
    var m1 := m.Set(key, s);
    SetValid(m, key, s);
    assert m1.keys[..|m1.keys|] == m1.keys;
    assert key in m1.keys;
    if !Expired(s, nowMs, ttlMs) {
      var live := Unexpired(m1, nowMs, ttlMs);
      assert key in live.at && live.at[key] == s;
      NotEvicted(m, key, s, ExpiredKeys(m1, |m1.keys|, nowMs, ttlMs), maxEntries);
    }
  }

  /** Only a full cache that gained a key overflows, by one, and that key is the last in line. */
  lemma NotEvicted(m: OMap<BorrowerSnapshot>, key: string, s: BorrowerSnapshot, dead: set<string>, maxEntries: int)
    requires m.Valid() && maxEntries >= 1 && m.Size() <= maxEntries
    requires var m1 := m.Set(key, s); dead <= m1.at.Keys && key !in dead
    ensures var live := m.Set(key, s).Remove(dead);
            key !in KeysBefore(live.keys, Overflow(live.Size(), maxEntries))
  {
    var m1 := m.Set(key, s);
    SetValid(m, key, s);
    RemoveSize(m1, dead);
    var live := m1.Remove(dead);
    var n := Overflow(live.Size(), maxEntries);
    if n > 0 {
      assert key !in m.at && |dead| == 0 && n == 1;
      DropNothing(m1.keys, dead);
      assert live.keys == m.keys + [key];
      assert live.keys[..1] == [m.keys[0]];
    }
  }

  // ----- the class -----

  type Index = map<string, set<Address>>

  /** The index once the first n reserves of s are entered, or taken out. */
  ghost predicate Attached(at: Store, s: BorrowerSnapshot, n: nat, index: Index, r: string)
    requires n <= |s.reserves|
  {
    Indexed(index, r) == AccountsUnder(at, r) + if ListsAmong(s, n, r) then {s.account} else {}
  }

  ghost predicate Detached(at: Store, s: BorrowerSnapshot, n: nat, index: Index, r: string)
    requires n <= |s.reserves|
  {
    Indexed(index, r) == AccountsUnder(at, r) - if ListsAmong(s, n, r) then {s.account} else {}
  }

  ghost predicate NoneEmpty(index: Index) {
    forall r :: r in index ==> index[r] != {}
  }

  ghost predicate AttachedSoFar(at: Store, s: BorrowerSnapshot, n: nat, index: Index)
    requires n <= |s.reserves|
  {
    NoneEmpty(index) && forall r :: Attached(at, s, n, index, r)
  }

  ghost predicate DetachedSoFar(at: Store, s: BorrowerSnapshot, n: nat, index: Index)
    requires n <= |s.reserves|
  {
    NoneEmpty(index) && forall r :: Detached(at, s, n, index, r)
  }

  lemma AttachedAtStart(at: Store, s: BorrowerSnapshot, index: Index)
    requires IndexIsScan(at, index)
    ensures AttachedSoFar(at, s, 0, index)
  {
    forall r ensures Attached(at, s, 0, index, r) {
      assert IndexAgrees(at, index, r);
    }
  }

  lemma DetachedAtStart(at: Store, s: BorrowerSnapshot, index: Index)
    requires IndexIsScan(at, index)
    ensures DetachedSoFar(at, s, 0, index)
  {
    forall r ensures Detached(at, s, 0, index, r) {
      assert IndexAgrees(at, index, r);
    }
  }

  function IndexWith(index: Index, key: string, account: Address): Index {
    index[key := Indexed(index, key) + {account}]
  }

  function IndexWithout(index: Index, key: string, account: Address): Index {
    if key !in index then index
    else if index[key] - {account} == {} then index - {key}
    else index[key := index[key] - {account}]
  }

  lemma AttachStep(at: Store, s: BorrowerSnapshot, i: nat, index: Index)
    requires i < |s.reserves| && AttachedSoFar(at, s, i, index)
    ensures AttachedSoFar(at, s, i + 1, IndexWith(index, ChainKey(s.chain, s.reserves[i]), s.account))
  {
    var after := IndexWith(index, ChainKey(s.chain, s.reserves[i]), s.account);
    var n := i + 1;
    forall r ensures Attached(at, s, n, after, r) {
      assert Attached(at, s, i, index, r);
      ListsOneMore(s, i, r);
    }
  }

  lemma DetachStep(at: Store, s: BorrowerSnapshot, i: nat, index: Index)
    requires i < |s.reserves| && DetachedSoFar(at, s, i, index)
    ensures DetachedSoFar(at, s, i + 1, IndexWithout(index, ChainKey(s.chain, s.reserves[i]), s.account))
  {
    var after := IndexWithout(index, ChainKey(s.chain, s.reserves[i]), s.account);
    var n := i + 1;
    forall r ensures Detached(at, s, n, after, r) {
      assert Detached(at, s, i, index, r);
      ListsOneMore(s, i, r);
    }
  }

  lemma AttachedAtEnd(at: Store, s: BorrowerSnapshot, index: Index)
    requires SnapshotKey(s) !in at && AttachedSoFar(at, s, |s.reserves|, index)
    ensures IndexIsScan(at[SnapshotKey(s) := s], index)
  {
    var at' := at[SnapshotKey(s) := s];
    forall r ensures IndexAgrees(at', index, r) {
      assert Attached(at, s, |s.reserves|, index, r);
      ScanWith(at, SnapshotKey(s), s, r);
    }
  }

  lemma DetachedAtEnd(at: Store, s: BorrowerSnapshot, index: Index)
    requires Keyed(at) && SnapshotKey(s) in at && at[SnapshotKey(s)] == s
    requires DetachedSoFar(at, s, |s.reserves|, index)
    ensures IndexIsScan(at - {SnapshotKey(s)}, index)
  {
    var at' := at - {SnapshotKey(s)};
    forall r ensures IndexAgrees(at', index, r) {
      assert Detached(at, s, |s.reserves|, index, r);
      ScanWithout(at, SnapshotKey(s), r);
    }
  }

  lemma ListsOneMore(s: BorrowerSnapshot, i: nat, r: string)
    requires i < |s.reserves|
    ensures ListsAmong(s, i + 1, r) <==> ListsAmong(s, i, r) || r == ChainKey(s.chain, s.reserves[i])
  {
    if ListsAmong(s, i, r) {
      var j :| 0 <= j < i && ChainKey(s.chain, s.reserves[j]) == r;
      assert j < i + 1;
    }
  }

  class ReserveAwareBorrowerCache {
    var snapshots: OMap<BorrowerSnapshot>
    var reserveToAccounts: map<string, set<Address>>
    var chainCounts: map<SupportedChain, nat>
    const maxEntries: int
    const ttlMs: int

    ghost predicate Consistent()
      reads this
    {
      && snapshots.Valid() && Keyed(snapshots.at)
      && IndexIsScan(snapshots.at, reserveToAccounts)
      && CountsAreScan(snapshots.at, chainCounts)
    }

    ghost predicate Valid()
      reads this
    {
      Consistent() && snapshots.Size() <= if maxEntries < 0 then 0 else maxEntries
    }

    constructor (maxEntries: int := 50_000, ttlMs: int := 1_800_000)
      ensures Valid() && snapshots == Empty() && this.maxEntries == maxEntries && this.ttlMs == ttlMs
    {
      this.maxEntries, this.ttlMs := maxEntries, ttlMs;
      snapshots, reserveToAccounts, chainCounts := Empty(), map[], map[];
      new;
      assert forall r :: IndexAgrees(map[], map[], r);
      assert forall c :: CountAgrees(map[], map[], c);
    }

    method AttachReserveIndex(s: BorrowerSnapshot, ghost at: Store)
      requires Keyed(at) && IndexIsScan(at, reserveToAccounts) && SnapshotKey(s) !in at
      modifies this`reserveToAccounts
      ensures IndexIsScan(at[SnapshotKey(s) := s], reserveToAccounts)
    {
      AttachedAtStart(at, s, reserveToAccounts);
      for i := 0 to |s.reserves|
        invariant AttachedSoFar(at, s, i, reserveToAccounts)
      {
        var key := ChainKey(s.chain, s.reserves[i]);
        var accounts := if key in reserveToAccounts then reserveToAccounts[key] else {};
        AttachStep(at, s, i, reserveToAccounts);
        reserveToAccounts := reserveToAccounts[key := accounts + {s.account}];
      }
      AttachedAtEnd(at, s, reserveToAccounts);
    }

    method DetachReserveIndex(s: BorrowerSnapshot, ghost at: Store)
      requires Keyed(at) && IndexIsScan(at, reserveToAccounts)
      requires SnapshotKey(s) in at && at[SnapshotKey(s)] == s
      modifies this`reserveToAccounts
      ensures IndexIsScan(at - {SnapshotKey(s)}, reserveToAccounts)
    {
      DetachedAtStart(at, s, reserveToAccounts);
      for i := 0 to |s.reserves|
        invariant DetachedSoFar(at, s, i, reserveToAccounts)
      {
        var key := ChainKey(s.chain, s.reserves[i]);
        DetachStep(at, s, i, reserveToAccounts);
        if key in reserveToAccounts {
          var accounts := reserveToAccounts[key] - {s.account};
          if accounts == {} {
            reserveToAccounts := reserveToAccounts - {key};
          } else {
            reserveToAccounts := reserveToAccounts[key := accounts];
          }
        }
      }
      DetachedAtEnd(at, s, reserveToAccounts);
    }

    method DeleteSnapshot(key: string, s: BorrowerSnapshot)
      requires Consistent() && key in snapshots.at && snapshots.at[key] == s
      modifies this
      ensures Consistent() && snapshots == old(snapshots).Delete(key)
    {
      ghost var at := snapshots.at;
      RemoveValid(snapshots, {key});
      snapshots := snapshots.Delete(key);
      DetachReserveIndex(s, at);
      CountsWhenRemoved(at, key, chainCounts);
      chainCounts := CountsWithout(chainCounts, s.chain);
    }

    method ExpireIfStale(key: string, nowMs: int)
      requires Consistent() && key in snapshots.at
      modifies this
      ensures Consistent()
      ensures snapshots == if Expired(old(snapshots.at)[key], nowMs, ttlMs)
                           then old(snapshots).Delete(key) else old(snapshots)
    {
      var s := snapshots.at[key];
      if s.updatedAtMs < TTL_ELIGIBLE_FLOOR_MS {
        return;
      }
      if nowMs - s.updatedAtMs <= ttlMs {
        return;
      }
      DeleteSnapshot(key, s);
    }

    method RemoveExpired(nowMs: int)
      requires Consistent()
      modifies this
      ensures Consistent() && snapshots == Unexpired(old(snapshots), nowMs, ttlMs)
    {
      ghost var m := snapshots;
      var keys := snapshots.keys;
      RemoveNothing(m);
      assert ExpiredKeys(m, 0, nowMs, ttlMs) == {};
      for i := 0 to |keys|
        invariant Consistent() && snapshots == m.Remove(ExpiredKeys(m, i, nowMs, ttlMs))
      {
        ExpiredStep(m, i, nowMs, ttlMs);
        ExpireIfStale(keys[i], nowMs);
      }
    }

    method EvictOldest()
      requires Consistent()
      modifies this
      ensures Valid() && snapshots == WithoutOldest(old(snapshots), maxEntries)
    {
      hide WithoutFirst, IndexIsScan, CountsAreScan, Keyed;
      ghost var live := snapshots;
      ghost var n := 0;
      WithoutNone(live);
      while snapshots.Size() > maxEntries && snapshots.keys != []
        invariant Consistent() && n <= Overflow(live.Size(), maxEntries) && snapshots == WithoutFirst(live, n)
        decreases |live.keys| - n
      {
        WithoutOneMore(live, n);
        var oldest := snapshots.keys[0];
        DeleteSnapshot(oldest, snapshots.at[oldest]);
        n := n + 1;
      }
      WithoutOneMore(live, n);
      assert n == Overflow(live.Size(), maxEntries);
      WithoutOldestSize(live, maxEntries);
    }

    method Prune(nowMs: int)
      requires Consistent()
      modifies this
      ensures Valid() && snapshots == Pruned(old(snapshots), nowMs, ttlMs, maxEntries)
    {
      RemoveExpired(nowMs);
      EvictOldest();
    }

    /** Takes a previous snapshot of the key out of the index, or counts a new one. */
    method MakeRoom(s: BorrowerSnapshot)
      requires Consistent()
      modifies this`reserveToAccounts, this`chainCounts
      ensures CountsAreScan(snapshots.at[SnapshotKey(s) := s], chainCounts)
      ensures IndexIsScan(snapshots.at - {SnapshotKey(s)}, reserveToAccounts)
    {
      var key := SnapshotKey(s);
      if key in snapshots.at {
        CountsWhenReplaced(snapshots.at, s, chainCounts);
        DetachReserveIndex(snapshots.at[key], snapshots.at);
      } else {
        CountsWhenAdded(snapshots.at, s, chainCounts);
        assert snapshots.at - {key} == snapshots.at;
        chainCounts := chainCounts[s.chain := (if s.chain in chainCounts then chainCounts[s.chain] else 0) + 1];
      }
    }

    /** Stores the snapshot under its case-insensitive key and brings index and counts up to date. */
    method Put(s: BorrowerSnapshot)
      requires Consistent()
      modifies this
      ensures Consistent() && snapshots == old(snapshots).Set(SnapshotKey(s), s)
    {
      var key := SnapshotKey(s);
      ghost var at := snapshots.at;
      assert (at - {key})[key := s] == at[key := s];
      MakeRoom(s);
      SetValid(snapshots, key, s);
      snapshots := snapshots.Set(key, s);
      AttachReserveIndex(s, at - {key});
    }

    method Upsert(s: BorrowerSnapshot, nowMs: int)
      requires Valid()
      modifies this
      ensures Valid()
      ensures snapshots == Pruned(old(snapshots).Set(SnapshotKey(s), s), nowMs, ttlMs, maxEntries)
      ensures maxEntries >= 1 ==> (SnapshotKey(s) in snapshots.at <==> !Expired(s, nowMs, ttlMs))
      ensures maxEntries >= 1 && !Expired(s, nowMs, ttlMs) ==> snapshots.at[SnapshotKey(s)] == s
    {
      if maxEntries >= 1 {
        NewSnapshotSurvivesIff(snapshots, s, nowMs, ttlMs, maxEntries);
      }
      Put(s);
      Prune(nowMs);
    }

    /** The number of stored snapshots of the chain. */
    method Size(chain: SupportedChain) returns (n: nat)
      requires Valid()
      ensures n == |KeysOn(snapshots.at, chain)|
    {
      assert CountAgrees(snapshots.at, chainCounts, chain);
      n := if chain in chainCounts then chainCounts[chain] else 0;
    }

    /** The accounts of exactly the surviving snapshots that list the reserve, in any casing. */
    method ListAccountsForReserve(chain: SupportedChain, reserve: Address, nowMs: int) returns (accounts: set<Address>)
      requires Valid()
      modifies this
      ensures Valid() && snapshots == Pruned(old(snapshots), nowMs, ttlMs, maxEntries)
      ensures accounts == AccountsUnder(snapshots.at, ChainKey(chain, reserve))
    {
      Prune(nowMs);
      var key := ChainKey(chain, reserve);
      assert IndexAgrees(snapshots.at, reserveToAccounts, key);
      accounts := if key in reserveToAccounts then reserveToAccounts[key] else {};
    }

    method ListSnapshots(chain: SupportedChain, nowMs: int) returns (found: seq<BorrowerSnapshot>)
      requires Valid()
      modifies this
      ensures Valid() && snapshots == Pruned(old(snapshots), nowMs, ttlMs, maxEntries)
      ensures found == OnChain(snapshots, snapshots.keys, chain)
    {
      Prune(nowMs);
      found := OnChain(snapshots, snapshots.keys, chain);
    }
  }

  /** The snapshots of a chain, in insertion order. */
  function OnChain(m: OMap<BorrowerSnapshot>, keys: seq<string>, chain: SupportedChain): (r: seq<BorrowerSnapshot>)
    requires forall k :: k in keys ==> k in m.at
    ensures forall s :: s in r <==> s.chain == chain && exists k :: k in keys && m.at[k] == s
  {
    if keys == [] then []
    else
      var rest := OnChain(m, keys[1..], chain);
      assert forall k :: k in keys <==> k == keys[0] || k in keys[1..];
      if m.at[keys[0]].chain == chain then [m.at[keys[0]]] + rest else rest
  }
}
