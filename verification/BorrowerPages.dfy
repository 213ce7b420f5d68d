// Enumerating borrowers page by page, against a server that returns the first n ids above a cursor:
// the loop that fetches all of them, and the scan that remembers its cursor between calls.

module BorrowerPages {
  import opened Floors
  import opened Options
  import opened Text
  import opened Ordered
  import Positions

  /** The zero address: 0x and forty zeros. */
  function ZeroCursorId(): string {
    "0x" + seq(40, i => '0')
  }

  // ----- the server -----

  /** The order of ids: by first differing character, a prefix before its extensions. */
  predicate Less(a: string, b: string) {
    if b == "" then false
    else if a == "" then true
    else a[0] < b[0] || (a[0] == b[0] && Less(a[1..], b[1..]))
  }

  lemma {:induction false} LessAsymmetric(a: string, b: string)
    ensures !(Less(a, b) && Less(b, a))
  {
    if a != "" && b != "" {
      LessAsymmetric(a[1..], b[1..]);
    }
  }

  /** The ids of the server: ascending, and above the cursor that stands for the start. */
  ghost predicate Listing(ids: seq<string>) {
    && (forall i, j {:trigger Less(ids[i], ids[j])} :: 0 <= i < j < |ids| ==> Less(ids[i], ids[j]))
    && (forall i {:trigger Less(ZeroCursorId(), ids[i])} :: 0 <= i < |ids| ==> Less(ZeroCursorId(), ids[i]))
  }

  predicate IsHexAddress(s: string) {
    && |s| == 42 && s[..2] == "0x"
    && forall i :: 2 <= i < 42 ==> '0' <= s[i] <= '9' || 'a' <= s[i] <= 'f'
  }

  lemma {:induction false} LessByExtension(a: string, b: string)
    requires |a| < |b| && forall i :: 0 <= i < |a| ==> a[i] <= b[i]
    ensures Less(a, b)
  {
    if a != "" {
      LessByExtension(a[1..], b[1..]);
    }
  }

  /** A position id, an address followed by more text, is above the start cursor. */
  lemma PositionIdsAboveZero(address: string, rest: string)
    requires IsHexAddress(address) && rest != ""
    ensures Less(ZeroCursorId(), address + rest)
  {
    var id := address + rest;
    assert address == "0x" + address[2..];
    LessByExtension(ZeroCursorId(), id);
  }

  function Above(ids: seq<string>, cursor: string): seq<string> {
    if ids == [] then []
    else if Less(cursor, ids[0]) then [ids[0]] + Above(ids[1..], cursor)
    else Above(ids[1..], cursor)
  }

  /** The first n ids above the cursor, in order. */
  function Page(ids: seq<string>, n: nat, cursor: string): seq<string> {
    var rest := Above(ids, cursor);
    if |rest| <= n then rest else rest[..n]
  }

  /** The cursor after the first k ids. */
  function CursorAt(ids: seq<string>, k: nat): string
    requires k <= |ids|
  {
    if k == 0 then ZeroCursorId() else ids[k - 1]
  }

  lemma {:induction false} AboveAll(ids: seq<string>, cursor: string)
    requires forall i :: 0 <= i < |ids| ==> Less(cursor, ids[i])
    ensures Above(ids, cursor) == ids
  {
    if ids != [] {
      AboveAll(ids[1..], cursor);
    }
  }

  lemma {:induction false} AboveSkips(skipped: seq<string>, rest: seq<string>, cursor: string)
    requires forall i :: 0 <= i < |skipped| ==> !Less(cursor, skipped[i])
    ensures Above(skipped + rest, cursor) == Above(rest, cursor)
  {
    if skipped == [] {
      assert skipped + rest == rest;
    } else {
      assert (skipped + rest)[1..] == skipped[1..] + rest;
      AboveSkips(skipped[1..], rest, cursor);
    }
  }

  /** Above the k-th cursor lie exactly the ids from k on. */
  lemma AboveCursor(ids: seq<string>, k: nat)
    requires Listing(ids) && k <= |ids|
    ensures Above(ids, CursorAt(ids, k)) == ids[k..]
  {
    var cursor := CursorAt(ids, k);
    var skipped, rest := ids[..k], ids[k..];
    forall i | 0 <= i < k ensures !Less(cursor, skipped[i]) {
      assert i < k - 1 ==> Less(ids[i], ids[k - 1]);
      LessAsymmetric(ids[i], cursor);
    }
    forall i | 0 <= i < |rest| ensures Less(cursor, rest[i]) {
      assert if k == 0 then Less(ZeroCursorId(), ids[i]) else Less(ids[k - 1], ids[k + i]);
    }
    assert ids == skipped + rest;
    AboveSkips(skipped, rest, cursor);
    AboveAll(rest, cursor);
  }

  lemma PageAt(ids: seq<string>, n: nat, k: nat)
    requires Listing(ids) && k <= |ids|
    ensures Page(ids, n, CursorAt(ids, k)) == ids[k..if k + n <= |ids| then k + n else |ids|]
  {
    AboveCursor(ids, k);
  }

  // ----- all borrowers -----

  function BeforeDash(id: string): string {
    if id == "" || id[0] == '-' then "" else [id[0]] + BeforeDash(id[1..])
  }

  function AddressOf(id: string): Address {
    Lower(BeforeDash(id))
  }

  function AddOnce(s: seq<Address>, a: Address): seq<Address> {
    if a in s then s else s + [a]
  }

  /** The addresses of the ids, each once, in the order of their first id. */
  function AddressesOf(ids: seq<string>): seq<Address> {
    if ids == [] then [] else AddOnce(AddressesOf(ids[..|ids| - 1]), AddressOf(ids[|ids| - 1]))
  }

  /** Each address of an id is there, once, and nothing else. */
  lemma {:induction false} AddressesAreExactlyTheIds(ids: seq<string>)
    ensures Distinct(AddressesOf(ids))
    ensures forall a :: a in AddressesOf(ids) <==> exists i :: 0 <= i < |ids| && AddressOf(ids[i]) == a
  {
    if ids != [] {
      var front, last := ids[..|ids| - 1], ids[|ids| - 1];
      AddressesAreExactlyTheIds(front);
      forall a ensures a in AddressesOf(ids) <==> exists i :: 0 <= i < |ids| && AddressOf(ids[i]) == a {
        if i :| 0 <= i < |ids| && AddressOf(ids[i]) == a {
          assert i < |front| ==> AddressOf(front[i]) == a;
        }
        if a in AddressesOf(front) {
          var i :| 0 <= i < |front| && AddressOf(front[i]) == a;
          assert AddressOf(ids[i]) == a;
        }
        assert AddressOf(ids[|ids| - 1]) == AddressOf(last);
      }
    }
  }

  lemma AddressesStep(before: seq<string>, page: seq<string>, i: nat)
    requires i < |page|
    ensures AddressesOf(before + page[..i + 1]) == AddOnce(AddressesOf(before + page[..i]), AddressOf(page[i]))
  {
    assert (before + page[..i + 1])[..|before| + i] == before + page[..i];
  }

  /** Enters the addresses of one page and remembers its last id. */
  method AddPage(known: seq<Address>, cursor: string, page: seq<string>, ghost before: seq<string>)
    returns (borrowers: seq<Address>, lastId: string)
    requires known == AddressesOf(before)
    ensures borrowers == AddressesOf(before + page)
    ensures lastId == if page == [] then cursor else page[|page| - 1]
  {
    hide AddressesOf;
    borrowers, lastId := known, cursor;
    assert before + page[..0] == before;
    for i := 0 to |page|
      invariant borrowers == AddressesOf(before + page[..i])
      invariant lastId == if i == 0 then cursor else page[i - 1]
    {
      AddressesStep(before, page, i);
      borrowers := AddOnce(borrowers, AddressOf(page[i]));
      lastId := page[i];
    }
    assert page[..|page|] == page;
  }

  lemma PageExtends(ids: seq<string>, pageSize: nat, k: nat)
    requires Listing(ids) && k <= |ids|
    ensures var page := Page(ids, pageSize, CursorAt(ids, k));
            && k + |page| <= |ids| && ids[..k] + page == ids[..k + |page|]
            && (page != [] ==> page[|page| - 1] == CursorAt(ids, k + |page|))
            && (|page| < pageSize || (pageSize > 0 && page == []) ==> k + |page| == |ids|)
  {
    PageAt(ids, pageSize, k);
  }

  /** Asks for page after page until one comes back short. */
  method FetchAllBorrowers(ids: seq<string>, pageSize: nat) returns (borrowers: seq<Address>)
    requires Listing(ids)
    ensures borrowers == if pageSize == 0 then [] else AddressesOf(ids)
  {
    borrowers := [];
    var lastId := ZeroCursorId();
    ghost var k := 0;
    assert ids[..0] == [] && ids[..|ids|] == ids;
    while true
      invariant k <= |ids| && lastId == CursorAt(ids, k) && borrowers == AddressesOf(ids[..k])
      invariant pageSize == 0 ==> k == 0
      decreases |ids| - k
    {
      var page := Page(ids, pageSize, lastId);
      PageExtends(ids, pageSize, k);
      if |page| == 0 {
        break;
      }
      borrowers, lastId := AddPage(borrowers, lastId, page, ids[..k]);
      k := k + |page|;
      if |page| < pageSize {
        break;
      }
    }
  }

  // ----- the scan with a remembered cursor -----

  function NextCursor(page: seq<string>, pageSize: nat): string {
    if |page| < pageSize || page == [] then ZeroCursorId() else page[|page| - 1]
  }

  /** The page's addresses that look like one, lower-cased, in order. */
  function ExtractBorrowers(page: seq<string>): seq<Address> {
    if page == [] then []
    else
      var rest, last := ExtractBorrowers(page[..|page| - 1]), AddressOf(page[|page| - 1]);
      if IsHexAddress(last) then rest + [last] else rest
  }

  /** The accounts of health factor below one, up to the first whose reading fails. */
  function BelowOne(borrowers: seq<Address>, healthFactor: Address -> Option<nat>): Option<seq<Address>> {
    if borrowers == [] then Some([])
    else
      var before := BelowOne(borrowers[..|borrowers| - 1], healthFactor);
      var last := borrowers[|borrowers| - 1];
      if before.None? || healthFactor(last).None? then None
      else if healthFactor(last).value < Positions.WAD then Some(before.value + [last])
      else before
  }

  class ViemAaveV3Protocol {
    const borrowerPageSize: nat
    var lastBorrowerCursorId: string
    var lastScanned: nat
    var lastLiquidatable: nat

    constructor (pageSize: nat := 50)
      ensures borrowerPageSize == pageSize && lastBorrowerCursorId == ZeroCursorId()
    {
      borrowerPageSize, lastBorrowerCursorId, lastScanned, lastLiquidatable := pageSize, ZeroCursorId(), 0, 0;
    }

    /** Scans one page; None when reading an account throws, and then the cursor stays. */
    method GetLiquidatablePositions(ids: seq<string>, healthFactor: Address -> Option<nat>)
      returns (positions: Option<seq<Address>>, ghost page: seq<string>)
      modifies this
      ensures page == Page(ids, borrowerPageSize, old(lastBorrowerCursorId))
      ensures positions == BelowOne(ExtractBorrowers(page), healthFactor)
      ensures lastBorrowerCursorId == if positions.None? then old(lastBorrowerCursorId)
                                      else NextCursor(page, borrowerPageSize)
      ensures positions.Some? ==> lastScanned == |ExtractBorrowers(page)| && lastLiquidatable == |positions.value|
    {
      var rows := Page(ids, borrowerPageSize, lastBorrowerCursorId);
      page := rows;
      var borrowers := ExtractBorrowers(rows);
      var found: seq<Address> := [];
      var i := 0;
      while i < |borrowers|
        invariant 0 <= i <= |borrowers| && BelowOne(borrowers[..i], healthFactor) == Some(found)
        invariant lastBorrowerCursorId == old(lastBorrowerCursorId)
      {
        assert borrowers[..i + 1][..i] == borrowers[..i];
        var hf := healthFactor(borrowers[i]);
        i := i + 1;
        if hf.None? {
          OneFailureFailsAll(borrowers, i, healthFactor);
          return None, rows;
        }
        if hf.value < Positions.WAD {
          found := found + [borrowers[i - 1]];
        }
      }
      assert borrowers[..|borrowers|] == borrowers;
      lastScanned, lastLiquidatable := |borrowers|, |found|;
      lastBorrowerCursorId := NextCursor(rows, borrowerPageSize);
      positions := Some(found);
    }
  }

  lemma {:induction false} OneFailureFailsAll(borrowers: seq<Address>, i: nat, healthFactor: Address -> Option<nat>)
    requires i <= |borrowers| && BelowOne(borrowers[..i], healthFactor).None?
    ensures BelowOne(borrowers, healthFactor).None?
    decreases |borrowers|
  {
    if i == |borrowers| {
      assert borrowers[..i] == borrowers;
    } else {
      assert borrowers[..|borrowers| - 1][..i] == borrowers[..i];
      OneFailureFailsAll(borrowers[..|borrowers| - 1], i, healthFactor);
    }
  }

  /** The ids seen by a run of calls, and the cursor after it; a call that throws (false) is no progress. */
  function Visit(ids: seq<string>, pageSize: nat, cursor: string, calls: seq<bool>): (seq<string>, string) {
    if calls == [] then ([], cursor)
    else
      var (seen, at) := Visit(ids, pageSize, cursor, calls[..|calls| - 1]);
      var page := Page(ids, pageSize, at);
      if calls[|calls| - 1] then (seen + page, NextCursor(page, pageSize)) else (seen, at)
  }

  function Succeeded(calls: seq<bool>): nat {
    if calls == [] then 0 else Succeeded(calls[..|calls| - 1]) + if calls[|calls| - 1] then 1 else 0
  }

  /** The number of successful calls that make one lap over n ids. */
  function LapCalls(n: nat, pageSize: nat): nat
    requires pageSize >= 1
  {
    n / pageSize + 1
  }

  function Repeat(ids: seq<string>, times: nat): seq<string> {
    if times == 0 then [] else Repeat(ids, times - 1) + ids
  }

  /** A run has seen so many whole laps and the first k ids of the current one. */
  ghost predicate Standing(ids: seq<string>, run: (seq<string>, string), laps: nat, k: nat) {
    && k <= |ids|
    && run.0 == Repeat(ids, laps) + ids[..k]
    && run.1 == CursorAt(ids, k)
  }

  /** One successful call moves a whole page on, or closes the lap when the rest is shorter than that. */
  lemma PageAdvances(ids: seq<string>, pageSize: nat, run: (seq<string>, string), laps: nat, k: nat)
    requires Listing(ids) && pageSize >= 1 && Standing(ids, run, laps, k)
    ensures var page := Page(ids, pageSize, run.1);
            var next := (run.0 + page, NextCursor(page, pageSize));
            if k + pageSize <= |ids| then Standing(ids, next, laps, k + pageSize) else Standing(ids, next, laps + 1, 0)
  {
    PageExtends(ids, pageSize, k);
    PageAt(ids, pageSize, k);
    var page := Page(ids, pageSize, run.1);
    assert run.0 + page == Repeat(ids, laps) + (ids[..k] + page);
    if k + pageSize > |ids| {
      assert ids[..k] + page == ids;
      assert Repeat(ids, laps + 1) + ids[..0] == Repeat(ids, laps + 1);
    }
  }

  lemma WithinLap(n: nat, pageSize: nat, within: nat)
    requires pageSize >= 1 && within < LapCalls(n, pageSize)
    ensures within * pageSize <= n
    ensures within + 1 < LapCalls(n, pageSize) <==> (within + 1) * pageSize <= n
  {
    var q, r := n / pageSize, n % pageSize;
    assert n == q * pageSize + r;
    MulMonotone(within, q, pageSize);
    if within + 1 <= q {
      MulMonotone(within + 1, q, pageSize);
    } else {
      assert within == q;
      assert (q + 1) * pageSize == q * pageSize + pageSize;
    }
  }

  /** Where a run stands after n successful calls: n / lap whole laps and n % lap pages. */
  ghost predicate StandsAfter(ids: seq<string>, pageSize: nat, run: (seq<string>, string), n: nat)
    requires pageSize >= 1
  {
    var lap := LapCalls(|ids|, pageSize);
    Standing(ids, run, n / lap, (n % lap) * pageSize)
  }

  lemma OneMoreSuccess(ids: seq<string>, pageSize: nat, run: (seq<string>, string), n: nat)
    requires Listing(ids) && pageSize >= 1 && StandsAfter(ids, pageSize, run, n)
    ensures var page := Page(ids, pageSize, run.1);
            StandsAfter(ids, pageSize, (run.0 + page, NextCursor(page, pageSize)), n + 1)
  {
    var lap := LapCalls(|ids|, pageSize);
    var within := n % lap;
    PageAdvances(ids, pageSize, run, n / lap, within * pageSize);
    WithinLap(|ids|, pageSize, within);
    NextInLap(n, lap);
    assert (within + 1) * pageSize == within * pageSize + pageSize;
    assert 0 * pageSize == 0;
  }

  /** After any run, with throwing calls anywhere in it: every whole lap of floor(N/pageSize)+1
      successful calls has visited every id exactly once, in order, and the next lap has visited
      exactly the ids before the cursor. */
  lemma {:induction false} LapsVisitEveryIdOnce(ids: seq<string>, pageSize: nat, calls: seq<bool>)
    requires Listing(ids) && pageSize >= 1
    ensures StandsAfter(ids, pageSize, Visit(ids, pageSize, ZeroCursorId(), calls), Succeeded(calls))
    decreases |calls|
  {
    if calls == [] {
      DivModUnique(0, LapCalls(|ids|, pageSize), 0, 0);
      assert 0 * pageSize == 0;
      assert Repeat(ids, 0) + ids[..0] == [];
    } else {
      var front := calls[..|calls| - 1];
      LapsVisitEveryIdOnce(ids, pageSize, front);
      if calls[|calls| - 1] {
        OneMoreSuccess(ids, pageSize, Visit(ids, pageSize, ZeroCursorId(), front), Succeeded(front));
      }
    }
  }

  lemma NextInLap(n: nat, lap: nat)
    requires lap >= 1
    ensures if n % lap + 1 < lap then (n + 1) / lap == n / lap && (n + 1) % lap == n % lap + 1
            else (n + 1) / lap == n / lap + 1 && (n + 1) % lap == 0
  {
    var q, r := n / lap, n % lap;
    assert n == q * lap + r;
    if r + 1 < lap {
      DivModUnique(n + 1, lap, q, r + 1);
    } else {
      assert (q + 1) * lap == q * lap + lap;
      DivModUnique(n + 1, lap, q + 1, 0);
    }
  }

  lemma DivModUnique(n: nat, d: nat, q: nat, r: nat)
    requires d >= 1 && n == q * d + r && r < d
    ensures n / d == q && n % d == r
  {
    var q', r' := n / d, n % d;
    assert n == q' * d + r';
    if q < q' {
      assert (q + 1) * d == q * d + d;
      MulMonotone(q + 1, q', d);
    } else if q' < q {
      assert (q' + 1) * d == q' * d + d;
      MulMonotone(q' + 1, q, d);
    }
  }
}
