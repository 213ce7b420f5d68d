// Two bounded duplicate filters, one evicting before it inserts and one after, proved against one
// specification: a key is accepted exactly when it is not among the last `capacity` accepted keys.

module Dedupe {
  import opened Options
  import opened Text
  import opened Ordered

  // ----- the specification: a history of accepted keys -----

  function LastOf(history: seq<string>, capacity: nat): seq<string> {
    if |history| <= capacity then history else history[|history| - capacity..]
  }

  predicate Accepts(history: seq<string>, capacity: nat, key: string) {
    key !in LastOf(history, capacity)
  }

  function Record(history: seq<string>, capacity: nat, key: string): seq<string> {
    if Accepts(history, capacity, key) then history + [key] else history
  }

  /** The accepted keys of a run that offers these keys in order. */
  function Accepted(offers: seq<string>, capacity: nat): seq<string> {
    if offers == [] then []
    else Record(Accepted(offers[..|offers| - 1], capacity), capacity, offers[|offers| - 1])
  }

  /** Equal keys of a history are more than `capacity` places apart. */
  ghost predicate Spaced(history: seq<string>, capacity: nat) {
    forall i, j :: 0 <= i < j < |history| && history[i] == history[j] ==> j - i > capacity
  }

  lemma OutsideWindow(history: seq<string>, capacity: nat, i: nat)
    requires i < |history| && history[i] !in LastOf(history, capacity)
    ensures |history| - i > capacity
  {
    var last := LastOf(history, capacity);
    var skipped := |history| - |last|;
    assert forall j :: 0 <= j < |last| ==> last[j] == history[skipped + j];
  }

  lemma RecordKeepsSpaced(history: seq<string>, capacity: nat, key: string)
    requires Spaced(history, capacity)
    ensures Spaced(Record(history, capacity, key), capacity)
  {
    if Accepts(history, capacity, key) {
      forall i | 0 <= i < |history| && history[i] == key ensures |history| - i > capacity {
        OutsideWindow(history, capacity, i);
      }
    }
  }

  /** Two acceptances of a key have at least `capacity` acceptances of other keys between them. */
  lemma {:induction false} AcceptancesAreSpaced(offers: seq<string>, capacity: nat)
    ensures Spaced(Accepted(offers, capacity), capacity)
  {
    if offers != [] {
      AcceptancesAreSpaced(offers[..|offers| - 1], capacity);
      RecordKeepsSpaced(Accepted(offers[..|offers| - 1], capacity), capacity, offers[|offers| - 1]);
    }
  }

  lemma SpacedTailDistinct(history: seq<string>, capacity: nat)
    requires Spaced(history, capacity)
    ensures Distinct(LastOf(history, capacity))
  {
    var last := LastOf(history, capacity);
    var skipped := |history| - |last|;
    forall i, j | 0 <= i < j < |last| ensures last[i] != last[j] {
      assert last[i] == history[skipped + i] && last[j] == history[skipped + j];
    }
  }

  /** Accepting a key appends it to the window, and pushes the oldest key out of a full one. */
  lemma WindowMoves(history: seq<string>, capacity: nat, key: string)
    ensures var window := LastOf(history, capacity) + [key];
            LastOf(history + [key], capacity) == if |window| > capacity then window[1..] else window
  {
  }

  function KeySet(keys: seq<string>): set<string> {
    set k | k in keys
  }

  lemma KeySetMoves(keys: seq<string>, key: string)
    requires Distinct(keys) && key !in keys
    ensures KeySet(keys + [key]) == KeySet(keys) + {key}
    ensures keys != [] ==> KeySet(keys[1..]) == KeySet(keys) - {keys[0]}
    ensures Distinct(keys + [key])
  {
    if keys != [] {
      RestKeySet(keys);
    }
  }

  lemma {:induction false} DistinctSize(keys: seq<string>)
    requires Distinct(keys)
    ensures |KeySet(keys)| == |keys|
  {
    if keys != [] {
      DistinctSize(keys[1..]);
      assert keys[0] !in keys[1..];
      assert KeySet(keys) == {keys[0]} + KeySet(keys[1..]);
    }
  }

  // ----- evict before insert -----

  /** Evicting the oldest key of a full window and then inserting is what accepting a key asks for. */
  lemma EvictThenInsert(history: seq<string>, capacity: int, key: string)
    requires Spaced(history, HeldEvictingBefore(capacity)) && Accepts(history, HeldEvictingBefore(capacity), key)
    ensures var window := LastOf(history, HeldEvictingBefore(capacity));
            var kept := if |window| >= capacity && window != [] then window[1..] else window;
            && kept + [key] == LastOf(history + [key], HeldEvictingBefore(capacity))
            && KeySet(kept) == KeySet(window) - (if kept == window then {} else {window[0]})
            && KeySet(kept + [key]) == KeySet(kept) + {key}
    ensures Spaced(history + [key], HeldEvictingBefore(capacity))
  {
    var n := HeldEvictingBefore(capacity);
    RecordKeepsSpaced(history, n, key);
    SpacedTailDistinct(history, n);
    hide Spaced;
    WindowMoves(history, n, key);
    KeySetMoves(LastOf(history, n), key);
    KeySetMoves([], key);
    if LastOf(history, n) != [] {
      KeySetMoves(LastOf(history, n)[1..], key);
    }
  }

  class FixedSizeDedupe {
    const capacity: int
    var keys: seq<string>
    var seen: set<string>
    ghost var history: seq<string>

    /** A capacity below one still holds one key. */
    ghost function Effective(): nat {
      HeldEvictingBefore(capacity)
    }

    ghost predicate Valid()
      reads this
    {
      && Spaced(history, Effective())
      && keys == LastOf(history, Effective())
      && seen == KeySet(keys)
    }

    constructor (capacity: int)
      ensures Valid() && this.capacity == capacity && history == []
    {
      this.capacity := capacity;
      keys, seen, history := [], {}, [];
    }

    method Has(key: string) returns (r: bool)
      requires Valid()
      ensures r <==> !Accepts(history, Effective(), key)
    {
      r := key in seen;
    }

    method Add(key: string) returns (inserted: bool)
      requires Valid()
      modifies this
      ensures Valid()
      ensures inserted <==> Accepts(old(history), Effective(), key)
      ensures history == Record(old(history), Effective(), key)
    {
      if key in seen {
        return false;
      }
      EvictThenInsert(history, capacity, key);
      hide Spaced, KeySet, LastOf;
      history := history + [key];
      if |keys| >= capacity {
        if keys != [] {
          var evicted := keys[0];
          keys := keys[1..];
          seen := seen - {evicted};
        }
      }
      keys := keys + [key];
      seen := seen + {key};
      return true;
    }

    method Clear()
      requires Valid()
      modifies this
      ensures Valid() && history == []
    {
      keys, seen, history := [], {}, [];
    }

    method Size() returns (n: nat)
      requires Valid()
      ensures n == |LastOf(history, Effective())|
    {
      SpacedTailDistinct(history, Effective());
      DistinctSize(keys);
      n := |seen|;
    }
  }

  // ----- evict after insert -----

  const MAX_DEDUP: nat := 15_000

  /** What identifies a log: block, position of its flashblock if it has one, transaction and index. */
  datatype LogMeta = LogMeta(blockNumber: nat, flashblockIndex: Option<nat>, txHash: string, logIndex: nat)

  function BlockPart(meta: LogMeta): string {
    if meta.flashblockIndex.None? then meta.txHash else PrintInt(meta.flashblockIndex.value) + ":" + meta.txHash
  }

  function IngestionDedupKey(meta: LogMeta): string {
    (PrintInt(meta.blockNumber) + ":" + BlockPart(meta)) + ":" + PrintInt(meta.logIndex)
  }

  /** Logs, whose transaction hashes have no colon, share a key exactly when they agree in all four. */
  lemma DedupKeyIdentifies(a: LogMeta, b: LogMeta)
    requires ':' !in a.txHash && ':' !in b.txHash
    ensures IngestionDedupKey(a) == IngestionDedupKey(b) <==> a == b
  {
    if IngestionDedupKey(a) == IngestionDedupKey(b) {
      PrintIntHasNoColon(a.blockNumber);
      PrintIntHasNoColon(b.blockNumber);
      PrintIntHasNoColon(a.logIndex);
      PrintIntHasNoColon(b.logIndex);
      LastColonSplits(PrintInt(a.blockNumber) + ":" + BlockPart(a), PrintInt(a.logIndex),
                      PrintInt(b.blockNumber) + ":" + BlockPart(b), PrintInt(b.logIndex));
      FirstColonSplits(PrintInt(a.blockNumber), BlockPart(a), PrintInt(b.blockNumber), BlockPart(b));
      PrintIntInjective(a.blockNumber, b.blockNumber);
      PrintIntInjective(a.logIndex, b.logIndex);
      SameBlockPart(a, b);
    }
  }

  lemma SameBlockPart(a: LogMeta, b: LogMeta)
    requires ':' !in a.txHash && ':' !in b.txHash && BlockPart(a) == BlockPart(b)
    ensures a.txHash == b.txHash && a.flashblockIndex == b.flashblockIndex
  {
    HasColonIff(a);
    HasColonIff(b);
    if a.flashblockIndex.Some? && b.flashblockIndex.Some? {
      PrintIntHasNoColon(a.flashblockIndex.value);
      PrintIntHasNoColon(b.flashblockIndex.value);
      FirstColonSplits(PrintInt(a.flashblockIndex.value), a.txHash, PrintInt(b.flashblockIndex.value), b.txHash);
      PrintIntInjective(a.flashblockIndex.value, b.flashblockIndex.value);
    }
  }

  lemma HasColonIff(meta: LogMeta)
    requires ':' !in meta.txHash
    ensures ':' in BlockPart(meta) <==> meta.flashblockIndex.Some?
  {
    if meta.flashblockIndex.Some? {
      assert BlockPart(meta)[|PrintInt(meta.flashblockIndex.value)|] == ':';
    }
  }

  /** The `seen` and `seenOrder` fields of the websocket event layer, for any limit. */
  class SeenLogs {
    const limit: nat
    var seen: set<string>
    var seenOrder: seq<string>
    ghost var history: seq<string>

    ghost predicate Valid()
      reads this
    {
      && Spaced(history, limit)
      && seenOrder == LastOf(history, limit)
      && seen == KeySet(seenOrder)
    }

    constructor (limit: nat := MAX_DEDUP)
      ensures Valid() && this.limit == limit && history == []
    {
      this.limit := limit;
      seen, seenOrder, history := {}, [], [];
    }

    method MarkSeen(meta: LogMeta) returns (inserted: bool)
      requires Valid()
      modifies this
      ensures Valid()
      ensures inserted <==> Accepts(old(history), limit, IngestionDedupKey(meta))
      ensures history == Record(old(history), limit, IngestionDedupKey(meta))
    {
      var key := IngestionDedupKey(meta);
      if key in seen {
        return false;
      }
      RecordKeepsSpaced(history, limit, key);
      SpacedTailDistinct(history, limit);
      WindowMoves(history, limit, key);
      KeySetMoves(seenOrder, key);
      history := history + [key];
      seen := seen + {key};
      seenOrder := seenOrder + [key];
      if |seenOrder| > limit {
        var evicted := seenOrder[0];
        RestKeySet(seenOrder);
        seenOrder := seenOrder[1..];
        seen := seen - {evicted};
      }
      return true;
    }
  }

  lemma RestKeySet(keys: seq<string>)
    requires Distinct(keys) && keys != []
    ensures KeySet(keys[1..]) == KeySet(keys) - {keys[0]}
  {
    assert keys == [keys[0]] + keys[1..];
    assert keys[0] !in keys[1..];
  }

  function HeldEvictingBefore(capacity: int): nat {
    if capacity < 1 then 1 else capacity
  }

  function HeldEvictingAfter(capacity: int): nat {
    if capacity < 0 then 0 else capacity
  }

  /** With the same configured capacity the two filters accept the same keys in every run exactly when
      that capacity is at least one. */
  lemma FiltersAgreeIff(capacity: int)
    ensures (forall offers :: Accepted(offers, HeldEvictingBefore(capacity))
                              == Accepted(offers, HeldEvictingAfter(capacity)))
            <==> capacity >= 1
  {
    if capacity < 1 {
      var offers := ["a", "a"];
      assert offers[..1] == ["a"] && ["a"][..0] == [];
      assert Accepted(["a"], 1) == ["a"] && Accepted(["a"], 0) == ["a"];
      assert Accepted(offers, HeldEvictingBefore(capacity)) == ["a"];
      assert Accepted(offers, HeldEvictingAfter(capacity)) == ["a", "a"];
    }
  }
}
