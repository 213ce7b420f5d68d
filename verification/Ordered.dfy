// The two ordered structures of the program: a string-keyed map that iterates in insertion order,
// and the stable sort behind `Array.prototype.sort` with a numeric key.

module Ordered {
  /** The keys of `keys` that are not in `dead`, in order. */
  function Drop(keys: seq<string>, dead: set<string>): (r: seq<string>)
    ensures forall k :: k in r <==> k in keys && k !in dead
  {
    if keys == [] then []
    else if keys[0] in dead then Drop(keys[1..], dead)
    else [keys[0]] + Drop(keys[1..], dead)
  }

  predicate Distinct<T(==)>(s: seq<T>) {
    forall i, j :: 0 <= i < j < |s| ==> s[i] != s[j]
  }

  lemma {:induction false} DropNothing(keys: seq<string>, dead: set<string>)
    requires forall k :: k in keys ==> k !in dead
    ensures Drop(keys, dead) == keys
  {
    if keys != [] {
      DropNothing(keys[1..], dead);
    }
  }

  lemma {:induction false} DropTwice(keys: seq<string>, a: set<string>, b: set<string>)
    ensures Drop(Drop(keys, a), b) == Drop(keys, a + b)
  {
    if keys != [] {
      DropTwice(keys[1..], a, b);
      if keys[0] !in a {
        assert Drop(keys, a)[1..] == Drop(keys[1..], a);
      }
    }
  }

  lemma {:induction false} DropConcat(xs: seq<string>, ys: seq<string>, dead: set<string>)
    ensures Drop(xs + ys, dead) == Drop(xs, dead) + Drop(ys, dead)
  {
    if xs == [] {
      assert xs + ys == ys;
    } else {
      assert (xs + ys)[1..] == xs[1..] + ys;
      DropConcat(xs[1..], ys, dead);
    }
  }

  lemma {:induction false} DropDistinct(keys: seq<string>, dead: set<string>)
    requires Distinct(keys)
    ensures Distinct(Drop(keys, dead))
  {
    if keys != [] {
      DropDistinct(keys[1..], dead);
      assert keys[0] !in keys[1..];
    }
  }

  /** Dropping a set of present keys shortens the sequence by exactly its size. */
  lemma {:induction false} DropSize(keys: seq<string>, dead: set<string>)
    requires Distinct(keys) && forall k :: k in dead ==> k in keys
    ensures |Drop(keys, dead)| == |keys| - |dead|
  {
    if keys == [] {
      assert dead == {};
    } else if keys[0] in dead {
      var rest := dead - {keys[0]};
      assert keys[0] !in keys[1..];
      DropSize(keys[1..], rest);
      DropAbsent(keys[1..], rest, keys[0]);
      assert rest + {keys[0]} == dead;
    } else {
      DropSize(keys[1..], dead);
    }
  }

  lemma {:induction false} DropAbsent(keys: seq<string>, dead: set<string>, k: string)
    requires k !in keys
    ensures Drop(keys, dead + {k}) == Drop(keys, dead)
  {
    if keys != [] {
      DropAbsent(keys[1..], dead, k);
    }
  }

  /** A JavaScript `Map` with string keys. */
  datatype OMap<V> = OMap(keys: seq<string>, at: map<string, V>) {
    ghost predicate Valid() {
      Distinct(keys) && forall k :: k in keys <==> k in at
    }

    function Size(): nat {
      |keys|
    }

    predicate Has(k: string) {
      k in at
    }

    /** A new key goes last; an existing key keeps its place. */
    function Set(k: string, v: V): OMap<V> {
      OMap(if k in at then keys else keys + [k], at[k := v])
    }

    function Remove(dead: set<string>): OMap<V> {
      OMap(Drop(keys, dead), at - dead)
    }

    function Delete(k: string): OMap<V> {
      Remove({k})
    }
  }

  function Empty<V>(): OMap<V> {
    OMap([], map[])
  }

  lemma SetValid<V>(m: OMap<V>, k: string, v: V)
    requires m.Valid()
    ensures m.Set(k, v).Valid()
    ensures m.Set(k, v).at.Keys == m.at.Keys + {k}
  {
    var r := m.Set(k, v);
    assert k !in m.at ==> k !in m.keys;
    forall x ensures x in r.keys <==> x in r.at {
      assert x in r.keys <==> x in m.keys || x == k;
    }
  }

  lemma RemoveValid<V>(m: OMap<V>, dead: set<string>)
    requires m.Valid()
    ensures m.Remove(dead).Valid()
  {
    DropDistinct(m.keys, dead);
  }

  /** Removing keys of the map shrinks it by exactly that many entries. */
  lemma RemoveSize<V>(m: OMap<V>, dead: set<string>)
    requires m.Valid() && dead <= m.at.Keys
    ensures m.Remove(dead).Size() == m.Size() - |dead|
  {
    DropSize(m.keys, dead);
  }

  lemma RemoveTwice<V>(m: OMap<V>, a: set<string>, b: set<string>)
    ensures m.Remove(a).Remove(b) == m.Remove(a + b)
  {
    DropTwice(m.keys, a, b);
    assert m.at - a - b == m.at - (a + b);
  }

  lemma RemoveNothing<V>(m: OMap<V>)
    ensures m.Remove({}) == m
  {
    DropNothing(m.keys, {});
    assert m.at - {} == m.at;
  }

  function KeysBefore(keys: seq<string>, n: nat): set<string>
    requires n <= |keys|
  {
    set k | k in keys[..n]
  }

  lemma KeysBeforeStep(keys: seq<string>, n: nat)
    requires n < |keys|
    ensures KeysBefore(keys, n + 1) == KeysBefore(keys, n) + {keys[n]}
  {
    assert keys[..n + 1] == keys[..n] + [keys[n]];
  }

  /** Dropping the first n keys leaves the rest in order. */
  lemma DropPrefix(keys: seq<string>, n: nat)
    requires Distinct(keys) && n <= |keys|
    ensures Drop(keys, KeysBefore(keys, n)) == keys[n..]
    ensures |KeysBefore(keys, n)| == n
  {
    var dead := KeysBefore(keys, n);
    assert keys == keys[..n] + keys[n..];
    DropConcat(keys[..n], keys[n..], dead);
    DropAll(keys[..n], dead);
    forall k | k in keys[n..] ensures k !in dead {
    }
    DropNothing(keys[n..], dead);
    DropSize(keys, dead);
  }

  lemma {:induction false} DropAll(keys: seq<string>, dead: set<string>)
    requires forall k :: k in keys ==> k in dead
    ensures Drop(keys, dead) == []
  {
    if keys != [] {
      DropAll(keys[1..], dead);
    }
  }

  lemma RemoveOldest<V>(m: OMap<V>, n: nat)
    requires m.Valid() && n < |m.keys|
    ensures m.Remove(KeysBefore(m.keys, n)).Delete(m.keys[n]) == m.Remove(KeysBefore(m.keys, n + 1))
    ensures m.Remove(KeysBefore(m.keys, n + 1)).keys == m.keys[n + 1..]
  {
    var gone, next := KeysBefore(m.keys, n), KeysBefore(m.keys, n + 1);
    RemoveTwice(m, gone, {m.keys[n]});
    KeysBeforeStep(m.keys, n);
    assert gone + {m.keys[n]} == next;
    DropPrefix(m.keys, n + 1);
  }

  // ----- stable sort by a numeric key -----

  function Insert<T>(s: seq<T>, x: T, key: T -> int): (r: seq<T>)
    ensures |r| == |s| + 1
  {
    if s == [] || key(s[|s| - 1]) <= key(x) then s + [x]
    else Insert(s[..|s| - 1], x, key) + [s[|s| - 1]]
  }

  /** Elements in ascending key order, equal keys in their original order. */
  function SortBy<T>(s: seq<T>, key: T -> int): (r: seq<T>)
    ensures |r| == |s|
  {
    if s == [] then [] else Insert(SortBy(s[..|s| - 1], key), s[|s| - 1], key)
  }

  ghost predicate Ascending<T>(s: seq<T>, key: T -> int) {
    forall i, j :: 0 <= i < j < |s| ==> key(s[i]) <= key(s[j])
  }

  lemma InsertedMembers<T>(r: seq<T>, front: seq<T>, x: T, i: nat)
    requires multiset(r) == multiset(front) + multiset{x} && i < |r|
    ensures r[i] == x || exists j :: 0 <= j < |front| && front[j] == r[i]
  {
    assert r[i] in multiset(r);
    assert r[i] in front || r[i] == x;
  }

  lemma {:induction false} InsertSorted<T>(s: seq<T>, x: T, key: T -> int)
    requires Ascending(s, key)
    ensures Ascending(Insert(s, x, key), key)
    ensures multiset(Insert(s, x, key)) == multiset(s) + multiset{x}
  {
    if s == [] || key(s[|s| - 1]) <= key(x) {
    } else {
      var front, last := s[..|s| - 1], s[|s| - 1];
      InsertSorted(front, x, key);
      var r := Insert(front, x, key);
      assert s == front + [last];
      assert forall i :: 0 <= i < |front| ==> key(front[i]) <= key(last);
      forall i | 0 <= i < |r| ensures key(r[i]) <= key(last) {
        InsertedMembers(r, front, x, i);
      }
      hide Insert;
      AscendingThen(r, last, key);
    }
  }

  lemma AscendingThen<T>(s: seq<T>, last: T, key: T -> int)
    requires Ascending(s, key) && forall i :: 0 <= i < |s| ==> key(s[i]) <= key(last)
    ensures Ascending(s + [last], key)
  {
  }

  lemma {:induction false} SortByCorrect<T>(s: seq<T>, key: T -> int)
    ensures Ascending(SortBy(s, key), key)
    ensures multiset(SortBy(s, key)) == multiset(s)
  {
    if s != [] {
      SortByCorrect(s[..|s| - 1], key);
      InsertSorted(SortBy(s[..|s| - 1], key), s[|s| - 1], key);
      assert s == s[..|s| - 1] + [s[|s| - 1]];
    }
  }

  lemma SortByMembers<T>(s: seq<T>, key: T -> int)
    ensures forall x :: x in SortBy(s, key) <==> x in s
  {
    SortByCorrect(s, key);
    forall x ensures x in SortBy(s, key) <==> x in s {
      assert x in SortBy(s, key) <==> x in multiset(SortBy(s, key));
      assert x in s <==> x in multiset(s);
    }
  }

  /** The element `sort()[0]` picks: of least key, and the first such in the original order. */
  ghost predicate FirstLeast<T>(s: seq<T>, key: T -> int, i: nat) {
    && i < |s|
    && (forall j :: 0 <= j < |s| ==> key(s[i]) <= key(s[j]))
    && (forall j :: 0 <= j < i ==> key(s[i]) < key(s[j]))
  }

  lemma {:induction false} SortByHead<T>(s: seq<T>, key: T -> int) returns (i: nat)
    requires s != []
    ensures FirstLeast(s, key, i) && SortBy(s, key)[0] == s[i]
  {
    var front, last := s[..|s| - 1], s[|s| - 1];
    assert s == front + [last];
    if front == [] {
      i := 0;
      assert Insert([], last, key) == [last];
    } else {
      var f := SortByHead(front, key);
      i := FirstLeastExtends(front, last, key, f);
      SortedExtends(front, last, key, f);
    }
  }

  lemma SortedExtends<T>(front: seq<T>, last: T, key: T -> int, f: nat)
    requires f < |front| && SortBy(front, key)[0] == front[f]
    ensures SortBy(front + [last], key)[0] == if key(front[f]) <= key(last) then front[f] else last
  {
    var s := front + [last];
    assert s[..|s| - 1] == front;
    SortByCorrect(front, key);
    InsertHead(SortBy(front, key), last, key);
  }

  lemma FirstLeastExtends<T>(front: seq<T>, last: T, key: T -> int, f: nat) returns (i: nat)
    requires FirstLeast(front, key, f)
    ensures FirstLeast(front + [last], key, i)
    ensures i == if key(front[f]) <= key(last) then f else |front|
  {
    i := if key(front[f]) <= key(last) then f else |front|;
    forall j | 0 <= j < |front| ensures key((front + [last])[j]) == key(front[j]) {
    }
  }

  lemma {:induction false} InsertHead<T>(s: seq<T>, x: T, key: T -> int)
    requires s != [] && Ascending(s, key)
    ensures Insert(s, x, key)[0] == if key(s[0]) <= key(x) then s[0] else x
  {
    if key(s[|s| - 1]) > key(x) && |s| > 1 {
      InsertHead(s[..|s| - 1], x, key);
    }
  }

  lemma {:induction false} DistinctOnce<T>(s: seq<T>, x: T)
    requires Distinct(s)
    ensures multiset(s)[x] == if x in s then 1 else 0
  {
    if s != [] {
      DistinctOnce(s[1..], x);
      assert s == [s[0]] + s[1..];
      assert s[0] !in s[1..];
    }
  }

  /** A permutation of distinct elements is distinct. */
  lemma DistinctPermutes<T>(s: seq<T>, t: seq<T>)
    requires Distinct(s) && multiset(t) == multiset(s)
    ensures Distinct(t)
  {
    forall i, j | 0 <= i < j < |t| ensures t[i] != t[j] {
      if t[i] == t[j] {
        var x := t[i];
        assert t == t[..i] + [x] + t[i + 1..j] + [x] + t[j + 1..];
        assert multiset(t)[x] >= 2;
        DistinctOnce(s, x);
        assert false;
      }
    }
  }
}
