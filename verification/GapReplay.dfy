// Replaying the blocks missed since the saved cursor: fixed chunks, retries, recursive halving when a
// response is too large, and a cursor saved while handling logs.

module GapReplay {
  import opened Options
  import opened Text

  const MAX_RETRIES := 5
  const DEFAULT_CHUNK := 2000
  const DEFAULT_REORG_DEPTH := 10

  // ----- the chain and what handling its logs must leave behind -----

  datatype ChainLog = ChainLog(block: nat, user: Option<Address>)

  /** The users of each block's watched events; None where no borrower can be extracted. */
  type Chain = nat -> seq<Option<Address>>

  function BlockLogs(chain: Chain, block: nat): seq<ChainLog> {
    seq(|chain(block)|, i requires 0 <= i < |chain(block)| => ChainLog(block, chain(block)[i]))
  }

  /** The logs of the blocks from..end, end excluded, in order. */
  function LogsBetween(chain: Chain, from: nat, end: nat): (logs: seq<ChainLog>)
    ensures forall l :: l in logs ==> from <= l.block < end && l in BlockLogs(chain, l.block)
    decreases end
  {
    if end <= from then [] else LogsBetween(chain, from, end - 1) + BlockLogs(chain, end - 1)
  }

  type Sighting = (Address, nat)

  function Sightings(logs: seq<ChainLog>): set<Sighting> {
    set l | l in logs && l.user.Some? && l.block > 0 :: (l.user.value, l.block)
  }

  lemma SightingsConcat(a: seq<ChainLog>, b: seq<ChainLog>)
    ensures Sightings(a + b) == Sightings(a) + Sightings(b)
  {
    forall x | x in Sightings(a) + Sightings(b) ensures x in Sightings(a + b) {
      var l :| (l in a || l in b) && l.user.Some? && l.block > 0 && (l.user.value, l.block) == x;
      assert l in a + b;
    }
  }

  lemma SightingOfOne(l: ChainLog)
    ensures Sightings([l]) == if l.user.Some? && l.block > 0 then {(l.user.value, l.block)} else {}
  {
    assert l in [l];
  }

  /** Every borrower sighting of the blocks from..end was added. */
  ghost predicate Covers(chain: Chain, from: nat, end: nat, added: set<Sighting>)
    decreases end
  {
    end <= from || (Covers(chain, from, end - 1, added) && Sightings(BlockLogs(chain, end - 1)) <= added)
  }

  /** The same, said of single logs: no log with a borrower in these blocks is missing. */
  lemma {:induction false} CoversMeans(chain: Chain, from: nat, end: nat, added: set<Sighting>)
    ensures Covers(chain, from, end, added) <==>
            forall l :: l in LogsBetween(chain, from, end) && l.user.Some? && l.block > 0
              ==> (l.user.value, l.block) in added
    decreases end
  {
    if from < end {
      CoversMeans(chain, from, end - 1, added);
      var logs, last := LogsBetween(chain, from, end), BlockLogs(chain, end - 1);
      assert logs == LogsBetween(chain, from, end - 1) + last;
      if Covers(chain, from, end, added) {
        forall l | l in logs && l.user.Some? && l.block > 0 ensures (l.user.value, l.block) in added {
          assert l in last ==> (l.user.value, l.block) in Sightings(last);
        }
      } else if Covers(chain, from, end - 1, added) {
        var x :| x in Sightings(last) && x !in added;
        var l :| l in last && l.user.Some? && l.block > 0 && (l.user.value, l.block) == x;
        assert l in logs;
      }
    }
  }

  lemma {:induction false} CoversSplit(chain: Chain, from: nat, mid: nat, end: nat, added: set<Sighting>)
    requires from <= mid <= end
    ensures Covers(chain, from, end, added) <==> Covers(chain, from, mid, added) && Covers(chain, mid, end, added)
    decreases end
  {
    if mid < end {
      CoversSplit(chain, from, mid, end - 1, added);
    }
  }

  lemma {:induction false} CoversMore(chain: Chain, from: nat, end: nat, added: set<Sighting>, more: set<Sighting>)
    requires Covers(chain, from, end, added) && added <= more
    ensures Covers(chain, from, end, more)
    decreases end
  {
    if from < end {
      CoversMore(chain, from, end - 1, added, more);
    }
  }

  lemma {:induction false} LogsCover(chain: Chain, from: nat, end: nat, added: set<Sighting>)
    requires Sightings(LogsBetween(chain, from, end)) <= added
    ensures Covers(chain, from, end, added)
    decreases end
  {
    if from < end {
      SightingsConcat(LogsBetween(chain, from, end - 1), BlockLogs(chain, end - 1));
      LogsCover(chain, from, end - 1, added);
    }
  }

  // ----- ranges handled successfully -----

  datatype Range = Range(from: nat, to: nat)

  /** The ranges follow each other without gap or overlap, from `from` up to just before `end`. */
  ghost predicate Tiles(ranges: seq<Range>, from: nat, end: nat) {
    if ranges == [] then from == end
    else ranges[0].from == from && from <= ranges[0].to && Tiles(ranges[1..], ranges[0].to + 1, end)
  }

  lemma {:induction false} TilesConcat(a: seq<Range>, b: seq<Range>, from: nat, mid: nat, end: nat)
    requires Tiles(a, from, mid) && Tiles(b, mid, end)
    ensures Tiles(a + b, from, end)
  {
    if a == [] {
      assert a + b == b;
    } else {
      assert (a + b)[1..] == a[1..] + b;
      TilesConcat(a[1..], b, a[0].to + 1, mid, end);
    }
  }

  /** Tiling ranges cover every block in between exactly once, in ascending order. */
  lemma {:induction false} TilesCoverOnce(ranges: seq<Range>, from: nat, end: nat, block: nat) returns (i: nat)
    requires Tiles(ranges, from, end) && from <= block < end
    ensures i < |ranges| && ranges[i].from <= block <= ranges[i].to
    ensures forall j :: 0 <= j < |ranges| && ranges[j].from <= block <= ranges[j].to ==> j == i
    ensures forall j, k :: 0 <= j < k < |ranges| ==> ranges[j].to < ranges[k].from
  {
    TilesAscend(ranges, from, end);
    if block <= ranges[0].to {
      i := 0;
    } else {
      var rest := TilesCoverOnce(ranges[1..], ranges[0].to + 1, end, block);
      i := rest + 1;
      assert ranges[1..][rest] == ranges[i];
    }
  }

  lemma {:induction false} TilesAscend(ranges: seq<Range>, from: nat, end: nat)
    requires Tiles(ranges, from, end)
    ensures from <= end
    ensures forall j :: 0 <= j < |ranges| ==> from <= ranges[j].from <= ranges[j].to < end
    ensures forall j, k :: 0 <= j < k < |ranges| ==> ranges[j].to < ranges[k].from
  {
    if ranges != [] {
      TilesAscend(ranges[1..], ranges[0].to + 1, end);
      forall j | 0 <= j < |ranges| ensures from <= ranges[j].from <= ranges[j].to < end {
        assert j > 0 ==> ranges[j] == ranges[1..][j - 1];
      }
      forall j, k | 0 <= j < k < |ranges| ensures ranges[j].to < ranges[k].from {
        assert ranges[k] == ranges[1..][k - 1];
        assert j > 0 ==> ranges[j] == ranges[1..][j - 1];
      }
    }
  }

  // ----- saving the cursor -----

  /** What was persisted at one moment: the cursor, and the sightings added to the watchlist by then. */
  datatype Checkpoint = Checkpoint(cursor: nat, added: set<Sighting>)

  /** Nothing between the replay's start and the saved cursor is missing. */
  ghost predicate Safe(chain: Chain, start: nat, c: Checkpoint) {
    Covers(chain, start + 1, c.cursor + 1, c.added)
  }

  /** Restarting from a safe checkpoint loses nothing: what was added before together with anything
      that covers the blocks after the cursor covers everything since the original start. */
  lemma RestartLosesNothing(chain: Chain, start: nat, c: Checkpoint, end: nat, later: set<Sighting>)
    requires Safe(chain, start, c) && start <= c.cursor < end
    requires Covers(chain, c.cursor + 1, end, later)
    ensures Covers(chain, start + 1, end, c.added + later)
  {
    CoversMore(chain, start + 1, c.cursor + 1, c.added, c.added + later);
    CoversMore(chain, c.cursor + 1, end, later, c.added + later);
    CoversSplit(chain, start + 1, c.cursor + 1, end, c.added + later);
  }

  function SafeHead(head: nat, reorgDepth: nat): nat {
    if head > reorgDepth then head - reorgDepth else 0
  }

  /** The fate of one attempt: `getLogs` fails, then while handling its logs reading the head fails,
      saving the cursor fails, or a callback throws; or all goes well. */
  datatype Attempt =
    | GetLogsFails(message: string)
    | HeadFails(message: string)
    | SaveFails(head: nat, message: string)
    | CallbackFails(head: nat, message: string)
    | GoesWell(head: nat)

  datatype Outcome = Done | Threw(message: string)

  predicate TooLarge(message: string) {
    Contains(message, "response too large") || Contains(message, "limit")
  }

  /** At most five attempts per node of the halving tree over n blocks. */
  function CallBudget(n: int): int {
    MAX_RETRIES * (2 * n - 1)
  }

  function Width(from: int, to: int): int {
    to - from
  }

  class EventDrivenWatchlist {
    const chain: Chain
    const attempts: nat -> Attempt   // the fate of the k-th attempt
    const reorgSafeDepth: nat
    const gapChunkBlocks: nat
    var gapReplayInFlight: bool
    var cursor: nat
    var added: set<Sighting>
    var calls: nat
    ghost var handled: seq<Range>
    ghost var checkpoints: seq<Checkpoint>

    constructor (chain: Chain, attempts: nat -> Attempt, cursor: nat,
                 reorgSafeDepth: nat := DEFAULT_REORG_DEPTH, gapChunkBlocks: nat := DEFAULT_CHUNK)
      ensures this.chain == chain && this.attempts == attempts && this.cursor == cursor
      ensures this.reorgSafeDepth == reorgSafeDepth && this.gapChunkBlocks == gapChunkBlocks
      ensures !gapReplayInFlight && added == {} && calls == 0 && handled == [] && checkpoints == []
    {
      this.chain, this.attempts, this.cursor := chain, attempts, cursor;
      this.reorgSafeDepth, this.gapChunkBlocks := reorgSafeDepth, gapChunkBlocks;
      gapReplayInFlight, added, calls, handled, checkpoints := false, {}, 0, [], [];
    }

    /** Adds the borrowers of the logs and finds the highest block. */
    method AddBorrowers(logs: seq<ChainLog>) returns (max: nat)
      modifies this`added
      ensures added == old(added) + Sightings(logs)
      ensures forall l :: l in logs ==> l.block <= max
      ensures max > 0 ==> exists l :: l in logs && l.block == max
    {
      max := 0;
      for i := 0 to |logs|
        invariant added == old(added) + Sightings(logs[..i])
        invariant forall j :: 0 <= j < i ==> logs[j].block <= max
        invariant max > 0 ==> exists j :: 0 <= j < i && logs[j].block == max
      {
        assert logs[..i + 1] == logs[..i] + [logs[i]];
        SightingsConcat(logs[..i], [logs[i]]);
        SightingOfOne(logs[i]);
        if logs[i].user.Some? && logs[i].block > 0 {
          added := added + {(logs[i].user.value, logs[i].block)};
        }
        if logs[i].block > max {
          max := logs[i].block;
        }
      }
      assert logs[..|logs|] == logs;
    }

    /** Adds the borrowers of the logs and saves the highest block when it is deep enough. */
    method HandleLogs(logs: seq<ChainLog>, fate: Attempt) returns (outcome: Outcome, ghost maxBlock: nat)
      requires !fate.GetLogsFails?
      modifies this`added, this`cursor, this`checkpoints
      ensures outcome == Done ==> added == old(added) + Sightings(logs)
      ensures old(added) <= added && (fate.GoesWell? ==> outcome == Done)
      ensures logs == [] ==> outcome == Done && maxBlock == 0
      ensures forall l :: l in logs ==> l.block <= maxBlock
      ensures maxBlock > 0 ==> exists l :: l in logs && l.block == maxBlock
      ensures checkpoints == old(checkpoints)
           || (0 < maxBlock && added == old(added) + Sightings(logs)
               && checkpoints == old(checkpoints) + [Checkpoint(maxBlock, added)])
      ensures cursor == if checkpoints == old(checkpoints) then old(cursor) else maxBlock
      ensures outcome == Done && !fate.HeadFails? && 0 < maxBlock <= SafeHead(fate.head, reorgSafeDepth) ==>
                checkpoints != old(checkpoints)
    {
      maxBlock := 0;
      if logs == [] {
        return Done, 0;
      }
      if fate.HeadFails? {
        maxBlock := HighestBlock(logs);
        return Threw(fate.message), maxBlock;
      }
      var safeHead := SafeHead(fate.head, reorgSafeDepth);
      var max := AddBorrowers(logs);
      maxBlock := max;
      if max > 0 && max <= safeHead {
        if fate.SaveFails? {
          return Threw(fate.message), maxBlock;
        }
        cursor := max;
        checkpoints := checkpoints + [Checkpoint(max, added)];
      }
      if fate.CallbackFails? {
        return Threw(fate.message), maxBlock;
      }
      return Done, maxBlock;
    }

    /** One pass through the `try` block for the blocks from..to. */
    method TryChunk(from: nat, to: nat, ghost start: nat) returns (outcome: Outcome, ghost saves: seq<Checkpoint>)
      requires start < from <= to
      requires Covers(chain, start + 1, from, added)
      modifies this`added, this`cursor, this`checkpoints, this`calls
      ensures calls == old(calls) + 1 && old(added) <= added && Covers(chain, start + 1, from, added)
      ensures outcome == Done ==> Covers(chain, start + 1, to + 1, added)
      ensures checkpoints == old(checkpoints) + saves && AllSafe(chain, start, saves)
    {
      hide Covers, TooLarge, AllSafe, Safe, LogsBetween;
      AllSafeNone(chain, start);
      saves := [];
      var fate := attempts(calls);
      calls := calls + 1;
      if fate.GetLogsFails? {
        return Threw(fate.message), saves;
      }
      var logs := LogsBetween(chain, from, to + 1);
      ghost var maxBlock: nat;
      outcome, maxBlock := HandleLogs(logs, fate);
      CoversMore(chain, start + 1, from, old(added), added);
      if checkpoints != old(checkpoints) {
        saves := [Checkpoint(maxBlock, added)];
        LogsCover(chain, from, to + 1, added);
        HandledIsSafe(chain, start, from, to, maxBlock, added);
        AllSafeOne(chain, start, saves[0]);
      } else if outcome == Done {
        LogsCover(chain, from, to + 1, added);
        HandledIsSafe(chain, start, from, to, to, added);
      }
    }

    /** Retries, halves a range whose response is too large, and gives up after five attempts. Whatever
        the failures: it terminates within the call budget, what it handled tiles a prefix of the range
        (all of it when it succeeds), and every cursor it saved on the way is safe. */
    method FetchChunkWithBackoff(from: nat, to: nat, ghost start: nat)
      returns (outcome: Outcome, ghost end: nat, ghost ranges: seq<Range>, ghost saves: seq<Checkpoint>)
      requires start < from <= to
      requires Covers(chain, start + 1, from, added)
      modifies this`added, this`cursor, this`checkpoints, this`calls, this`handled
      ensures from <= end <= to + 1 && (outcome == Done ==> end == to + 1)
      ensures handled == old(handled) + ranges && Tiles(ranges, from, end)
      ensures Covers(chain, start + 1, end, added) && old(added) <= added
      ensures checkpoints == old(checkpoints) + saves && AllSafe(chain, start, saves)
      ensures calls <= old(calls) + CallBudget(Width(from, to) + 1)
      decreases Width(from, to), 1
    {
      end, ranges, saves := from, [], [];
      outcome := Threw("");
      var attempt := 0;
      hide AllSafe, Covers, Tiles, TooLarge;
      AllSafeNone(chain, start);
      OneTile(from, to);
      while attempt < MAX_RETRIES
        invariant 0 <= attempt <= MAX_RETRIES && end == from && outcome.Threw? && ranges == []
        invariant handled == old(handled) && old(added) <= added && Covers(chain, start + 1, from, added)
        invariant calls <= old(calls) + attempt
        invariant checkpoints == old(checkpoints) + saves && AllSafe(chain, start, saves)
      {
        ghost var more: seq<Checkpoint>;
        outcome, more := TryChunk(from, to, start);
        AllSafeConcat(chain, start, saves, more);
        saves := saves + more;
        if outcome == Done {
          handled := handled + [Range(from, to)];
          ranges := [Range(from, to)];
          end := to + 1;
          return;
        }
        if TooLarge(outcome.message) && to > from {
          outcome, end, ranges, more := FetchHalves(from, to, start);
          AllSafeConcat(chain, start, saves, more);
          saves := saves + more;
          return;
        }
        if attempt == MAX_RETRIES - 1 {
          return;
        }
        attempt := attempt + 1;
      }
    }

    /** The two halves of a range whose response was too large; the second only after the first. */
    method FetchHalves(from: nat, to: nat, ghost start: nat)
      returns (outcome: Outcome, ghost end: nat, ghost ranges: seq<Range>, ghost saves: seq<Checkpoint>)
      requires start < from < to && Covers(chain, start + 1, from, added)
      modifies this`added, this`cursor, this`checkpoints, this`calls, this`handled
      ensures from <= end <= to + 1 && (outcome == Done ==> end == to + 1)
      ensures handled == old(handled) + ranges && Tiles(ranges, from, end)
      ensures Covers(chain, start + 1, end, added) && old(added) <= added
      ensures checkpoints == old(checkpoints) + saves && AllSafe(chain, start, saves)
      ensures calls <= old(calls) + CallBudget(Width(from, to) + 1) - MAX_RETRIES
      decreases Width(from, to), 0
    {
      var mid := from + (to - from) / 2;
      outcome, end, ranges, saves := FetchChunkWithBackoff(from, mid, start);
      if outcome != Done {
        return;
      }
      ghost var right, more;
      outcome, end, right, more := FetchChunkWithBackoff(mid + 1, to, start);
      TilesConcat(ranges, right, from, mid + 1, end);
      ranges, saves := ranges + right, saves + more;
    }

    /** The loop of a replay: chunk after chunk, until one of them fails. */
    method ReplayChunks(fromBlock: nat, safeHead: nat)
      returns (completed: bool, ghost end: nat, ghost ranges: seq<Range>, ghost saves: seq<Checkpoint>)
      requires gapChunkBlocks >= 1 && fromBlock < safeHead
      modifies this`added, this`cursor, this`checkpoints, this`calls, this`handled
      ensures handled == old(handled) + ranges && Tiles(ranges, fromBlock + 1, end)
      ensures Covers(chain, fromBlock + 1, end, added) && old(added) <= added
      ensures fromBlock < end && (completed ==> end == safeHead + 1)
      ensures checkpoints == old(checkpoints) + saves && AllSafe(chain, fromBlock, saves)
    {
      completed, end, ranges, saves := false, fromBlock + 1, [], [];
      var from := fromBlock + 1;
      assert Tiles(ranges, from, from) && Covers(chain, from, from, added);
      hide Covers, Tiles, TooLarge, AllSafe, Width;
      AllSafeNone(chain, fromBlock);
      while from <= safeHead
        invariant fromBlock < from <= safeHead + gapChunkBlocks
        invariant end == if from <= safeHead then from else safeHead + 1
        invariant handled == old(handled) + ranges && Tiles(ranges, fromBlock + 1, end)
        invariant Covers(chain, fromBlock + 1, end, added) && old(added) <= added
        invariant checkpoints == old(checkpoints) + saves && AllSafe(chain, fromBlock, saves)
        decreases safeHead + gapChunkBlocks - from
      {
        var to := if from + gapChunkBlocks - 1 < safeHead then from + gapChunkBlocks - 1 else safeHead;
        var outcome;
        ghost var tiles, more;
        outcome, end, tiles, more := FetchChunkWithBackoff(from, to, fromBlock);
        TilesConcat(ranges, tiles, fromBlock + 1, from, end);
        AllSafeConcat(chain, fromBlock, saves, more);
        ranges, saves := ranges + tiles, saves + more;
        if outcome != Done {
          return;
        }
        from := from + gapChunkBlocks;
      }
      completed := true;
    }

    /** `headAnswer` is what reading the current block number gives; None when it throws. */
    method ReplayGap(fromBlock: nat, headAnswer: Option<nat>)
      returns (completed: bool, ghost end: nat, ghost ranges: seq<Range>, ghost saves: seq<Checkpoint>)
      requires gapChunkBlocks >= 1
      modifies this
      ensures gapReplayInFlight == old(gapReplayInFlight)
      // what was handled tiles the gap from its first block, all of it when the replay completes
      ensures handled == old(handled) + ranges && Tiles(ranges, fromBlock + 1, end)
      ensures Covers(chain, fromBlock + 1, end, added) && old(added) <= added
      ensures completed ==> headAnswer.Some? && end == SafeHead(headAnswer.value, reorgSafeDepth) + 1
      // it only starts for a known cursor behind the safe head, one replay at a time
      ensures completed || end > fromBlock + 1 ==>
                && !old(gapReplayInFlight) && headAnswer.Some? && fromBlock != 0
                && fromBlock < SafeHead(headAnswer.value, reorgSafeDepth)
      // whenever a cursor was saved, nothing before it was missing
      ensures checkpoints == old(checkpoints) + saves && AllSafe(chain, fromBlock, saves)
    {
      completed, end, ranges, saves := false, fromBlock + 1, [], [];
      if gapReplayInFlight || headAnswer.None? {
        return;
      }
      gapReplayInFlight := true;
      var safeHead := SafeHead(headAnswer.value, reorgSafeDepth);
      if fromBlock == 0 || safeHead <= fromBlock {
        gapReplayInFlight := false;
        return;
      }
      completed, end, ranges, saves := ReplayChunks(fromBlock, safeHead);
      gapReplayInFlight := false;
    }

    /** Start-up and reconnection replay from the persisted cursor. */
    method ReplayGapFromCursor(headAnswer: Option<nat>) returns (completed: bool, ghost saves: seq<Checkpoint>)
      requires gapChunkBlocks >= 1
      modifies this
      ensures completed ==>
                && headAnswer.Some?
                && Covers(chain, old(cursor) + 1, SafeHead(headAnswer.value, reorgSafeDepth) + 1, added)
      ensures checkpoints == old(checkpoints) + saves && AllSafe(chain, old(cursor), saves)
    {
      ghost var end, ranges;
      completed, end, ranges, saves := ReplayGap(cursor, headAnswer);
    }
  }

  ghost predicate AllSafe(chain: Chain, start: nat, saves: seq<Checkpoint>) {
    forall i :: 0 <= i < |saves| ==> Safe(chain, start, saves[i])
  }

  lemma OneTile(from: nat, to: nat)
    requires from <= to
    ensures Tiles([], from, from) && Tiles([Range(from, to)], from, to + 1)
  {
    assert Tiles([Range(from, to)][1..], to + 1, to + 1);
  }

  lemma AllSafeNone(chain: Chain, start: nat)
    ensures AllSafe(chain, start, [])
  {
  }

  lemma AllSafeOne(chain: Chain, start: nat, c: Checkpoint)
    requires Safe(chain, start, c)
    ensures AllSafe(chain, start, [c])
  {
  }

  lemma AllSafeConcat(chain: Chain, start: nat, a: seq<Checkpoint>, b: seq<Checkpoint>)
    requires AllSafe(chain, start, a) && AllSafe(chain, start, b)
    ensures AllSafe(chain, start, a + b)
  {
  }

  /** Once the logs of from..to are added after everything before, any block of the range may be saved. */
  lemma HandledIsSafe(chain: Chain, start: nat, from: nat, to: nat, saved: nat, added: set<Sighting>)
    requires start < from <= saved <= to
    requires Covers(chain, start + 1, from, added) && Covers(chain, from, to + 1, added)
    ensures Covers(chain, start + 1, to + 1, added)
    ensures Safe(chain, start, Checkpoint(saved, added))
  {
    CoversSplit(chain, start + 1, from, to + 1, added);
    CoversSplit(chain, start + 1, saved + 1, to + 1, added);
  }

  lemma HighestBlock(logs: seq<ChainLog>) returns (max: nat)
    ensures forall l :: l in logs ==> l.block <= max
    ensures max > 0 ==> exists l :: l in logs && l.block == max
  {
    max := 0;
    if logs != [] {
      max := HighestBlock(logs[1..]);
      assert logs == [logs[0]] + logs[1..];
      if logs[0].block > max {
        max := logs[0].block;
      }
    }
  }

  // ----- live logs during a replay -----

  /** What is known when a live batch arrives: the replay has covered the blocks before `next`, the
      batch is from this chain, and of the blocks from `from` up to its highest one it is all. */
  ghost predicate Fits(
    chain: Chain, start: nat, next: nat, added: set<Sighting>, live: seq<ChainLog>, from: nat, m: nat)
  {
    && Covers(chain, start + 1, next, added)
    && (forall l :: l in live ==> l in BlockLogs(chain, l.block))
    && (forall l :: l in LogsBetween(chain, from, m + 1) ==> l in live)
  }

  /** Whatever fits the chain has, saving the highest block m of a live batch is safe exactly when the
      batch is known to be complete from a block that the replay has reached (`from` is m + 1 when nothing
      is known of that kind: then the replay must have passed m). */
  lemma LiveSaveSafeIff(
    known: Chain, start: nat, next: nat, added: set<Sighting>, live: seq<ChainLog>, from: nat, m: nat)
    requires start < next && from <= m + 1 && Fits(known, start, next, added, live, from, m)
    requires forall l :: l in live ==> l.block <= m
    ensures (forall chain :: Fits(chain, start, next, added, live, from, m)
                             ==> Safe(chain, start, Checkpoint(m, added + Sightings(live))))
            <==> from <= next
  {
    var all := added + Sightings(live);
    if from <= next {
      forall chain | Fits(chain, start, next, added, live, from, m) ensures Safe(chain, start, Checkpoint(m, all)) {
        CompleteIsSafe(chain, start, next, added, live, from, m);
      }
    } else {
      var user := NewUser(all, next);
      var chain := (b: nat) => if b == next then known(b) + [Some(user)] else known(b);
      OneMoreLogFits(known, chain, start, next, added, live, from, m, user);
      var missed := ChainLog(next, Some(user));
      assert BlockLogs(chain, next)[|known(next)|] == missed;
      assert (user, next) in Sightings(BlockLogs(chain, next));
      CoversSplit(chain, start + 1, next + 1, m + 1, all);
      assert !Safe(chain, start, Checkpoint(m, all));
    }
  }

  lemma CompleteIsSafe(
    chain: Chain, start: nat, next: nat, added: set<Sighting>, live: seq<ChainLog>, from: nat, m: nat)
    requires start < next && from <= next && Fits(chain, start, next, added, live, from, m)
    ensures Safe(chain, start, Checkpoint(m, added + Sightings(live)))
  {
    var all := added + Sightings(live);
    CoversMore(chain, start + 1, next, added, all);
    if m < next {
      if start <= m {
        CoversSplit(chain, start + 1, m + 1, next, all);
      }
    } else {
      BatchCovers(chain, start, next, added, live, from, m);
      hide Covers;
      CoversSplit(chain, start + 1, next, m + 1, all);
    }
  }

  lemma BatchCovers(
    chain: Chain, start: nat, next: nat, added: set<Sighting>, live: seq<ChainLog>, from: nat, m: nat)
    requires from <= next && Fits(chain, start, next, added, live, from, m)
    ensures Covers(chain, next, m + 1, added + Sightings(live))
  {
    hide Covers, LogsBetween;
    LaterLogs(chain, from, next, m + 1);
    CoversMeans(chain, next, m + 1, added + Sightings(live));
  }

  lemma {:induction false} LaterLogs(chain: Chain, from: nat, later: nat, end: nat)
    requires from <= later
    ensures forall l :: l in LogsBetween(chain, later, end) ==> l in LogsBetween(chain, from, end)
    decreases end
  {
    if later < end {
      LaterLogs(chain, from, later, end - 1);
    }
  }

  lemma OneMoreLogFits(known: Chain, chain: Chain, start: nat, next: nat, added: set<Sighting>, live: seq<ChainLog>,
      from: nat, m: nat, user: Address)
    requires next < from && Fits(known, start, next, added, live, from, m)
    requires forall b: nat :: chain(b) == if b == next then known(b) + [Some(user)] else known(b)
    ensures Fits(chain, start, next, added, live, from, m)
  {
    SameCovers(known, chain, start + 1, next, added);
    SameLogs(known, chain, from, m + 1);
    hide Covers, LogsBetween;
    forall l | l in live ensures l in BlockLogs(chain, l.block) {
      var i :| 0 <= i < |BlockLogs(known, l.block)| && BlockLogs(known, l.block)[i] == l;
      assert BlockLogs(chain, l.block)[i] == l;
    }
  }

  lemma {:induction false} SameCovers(a: Chain, b: Chain, from: nat, end: nat, added: set<Sighting>)
    requires forall k: nat :: from <= k < end ==> a(k) == b(k)
    ensures Covers(a, from, end, added) == Covers(b, from, end, added)
    decreases end
  {
    if from < end {
      SameCovers(a, b, from, end - 1, added);
      assert BlockLogs(a, end - 1) == BlockLogs(b, end - 1);
    }
  }

  lemma {:induction false} SameLogs(a: Chain, b: Chain, from: nat, end: nat)
    requires forall k: nat :: from <= k < end ==> a(k) == b(k)
    ensures LogsBetween(a, from, end) == LogsBetween(b, from, end)
    decreases end
  {
    if from < end {
      SameLogs(a, b, from, end - 1);
      assert BlockLogs(a, end - 1) == BlockLogs(b, end - 1);
    }
  }

  /** A user not sighted yet in a block: any text longer than all of them. */
  lemma NewUser(added: set<Sighting>, block: nat) returns (user: Address)
    ensures (user, block) !in added
  {
    var n := LongerThanAll(added);
    user := seq(n, i => 'u');
  }

  lemma {:induction false} LongerThanAll(added: set<Sighting>) returns (n: nat)
    ensures forall x :: x in added ==> |x.0| < n
    decreases added
  {
    n := 0;
    if added != {} {
      var x :| x in added;
      var rest := LongerThanAll(added - {x});
      n := if rest <= |x.0| then |x.0| + 1 else rest;
      forall y | y in added ensures |y.0| < n {
        assert y != x ==> y in added - {x};
      }
    }
  }

  function TwoBusyBlocks(): Chain {
    b => if b == 12 then [Some("0xa")] else if b == 20 then [Some("0xb")] else []
  }

  /** Live logs can skip blocks: the cursor is at 10, nothing of the gap has been replayed, and a live
      batch with all logs of block 20 is handled while the head is at 100. The code saves 20, the user of
      block 12 was never added, and a replay from the saved cursor starts after it. */
  method LiveLogsCanSkipBlocks() returns (w: EventDrivenWatchlist)
    ensures fresh(w) && w.chain == TwoBusyBlocks() && w.cursor == 20
    ensures w.checkpoints == [Checkpoint(20, w.added)] && ("0xa", 12) !in w.added
    ensures !Safe(w.chain, 10, w.checkpoints[0])
  {
    w := new EventDrivenWatchlist(TwoBusyBlocks(), k => GoesWell(100), 10);
    var live := LogsBetween(TwoBusyBlocks(), 20, 21);
    BlockTwenty();
    var _, maxBlock := w.HandleLogs(live, GoesWell(100));
    assert live[0] in live && maxBlock == 20;
    MissedBlockTwelve(w.added);
  }

  lemma BlockTwenty()
    ensures var live := LogsBetween(TwoBusyBlocks(), 20, 21);
            live == [ChainLog(20, Some("0xb"))] && Sightings(live) == {("0xb", 20)}
  {
    assert LogsBetween(TwoBusyBlocks(), 20, 20) == [];
    assert LogsBetween(TwoBusyBlocks(), 20, 21) == [] + BlockLogs(TwoBusyBlocks(), 20);
    SightingOfOne(ChainLog(20, Some("0xb")));
  }

  lemma MissedBlockTwelve(added: set<Sighting>)
    requires ("0xa", 12) !in added
    ensures !Safe(TwoBusyBlocks(), 10, Checkpoint(20, added))
  {
    var chain, missed := TwoBusyBlocks(), ChainLog(12, Some("0xa"));
    assert BlockLogs(chain, 12)[0] == missed;
    assert ("0xa", 12) in Sightings(BlockLogs(chain, 12));
    CoversSplit(chain, 11, 13, 21, added);
  }
}
