/**
 * Fetching logs of a block range in chunks, newest chunk first, to stay under an RPC range limit.
 * The chain is a sequence of logs; one RPC call answers with the logs of its chunk, in chain order,
 * or fails and is skipped.
 */
module ChunkedLogs {
  import opened Decimals

  datatype Log = Log(block: int, id: nat)

  /** A block range, both ends included. */
  datatype Chunk = Chunk(start: int, end: int)

  function InRange(chain: seq<Log>, from: int, upTo: int): seq<Log> {
    if chain == [] then []
    else (if from <= chain[0].block <= upTo then [chain[0]] else []) + InRange(chain[1..], from, upTo)
  }

  function StartOf(from: int, end: int, size: int): (start: int)
    requires size >= 1 && from <= end
    ensures from <= start <= end < start + size
  {
    if end - size + 1 > from then end - size + 1 else from
  }

  /** All chunks of a range, from the newest block down. */
  function ChunkList(from: int, upTo: int, size: int): seq<Chunk>
    requires size >= 1
    decreases upTo - from
  {
    if from <= upTo then [Chunk(StartOf(from, upTo, size), upTo)] + ChunkList(from, StartOf(from, upTo, size) - 1, size)
    else []
  }

  /** What one call brings; a chunk whose end is in `failed` brings nothing. */
  function Answer(chain: seq<Log>, c: Chunk, failed: set<int>): seq<Log> {
    if c.end in failed then [] else InRange(chain, c.start, c.end)
  }

  /** What the calls for some chunks bring, in call order. */
  function Gather(chain: seq<Log>, chunks: seq<Chunk>, failed: set<int>): seq<Log> {
    if chunks == [] then []
    else
      Answer(chain, chunks[0], failed) + Gather(chain, chunks[1..], failed)
  }

  /** The lowest block the chunks reach down to. */
  function Reached(upTo: int, chunks: seq<Chunk>): int {
    if chunks == [] then upTo + 1 else chunks[|chunks| - 1].start
  }

  // ---------------------------------------------------------------------------------------------
  // The chunks partition the range.
  // ---------------------------------------------------------------------------------------------

  predicate Tiles(chunks: seq<Chunk>, from: int, upTo: int, size: int) {
    && (forall i :: 0 <= i < |chunks| ==> 1 <= chunks[i].end - chunks[i].start + 1 <= size)
    && (forall i :: 0 <= i < |chunks| - 1 ==> chunks[i].end - chunks[i].start + 1 == size)
    && (forall i, j :: 0 <= i < |chunks| - 1 && j == i + 1 ==> chunks[j].end == chunks[i].start - 1)
    && (from <= upTo ==> chunks != [] && chunks[0].end == upTo && chunks[|chunks| - 1].start == from)
  }

  /** Chunks touch end to start going down, and none is empty or longer than the limit. */
  lemma {:induction false} ChunksTile(from: int, upTo: int, size: int)
    requires size >= 1
    ensures Tiles(ChunkList(from, upTo, size), from, upTo, size)
    decreases upTo - from
  {
    if upTo >= from {
      var start := StartOf(from, upTo, size);
      var rest := ChunkList(from, start - 1, size);
      ChunksTile(from, start - 1, size);
      assert ChunkList(from, upTo, size) == [Chunk(start, upTo)] + rest;
    }
  }

  predicate Holds(chunks: seq<Chunk>, i: int, b: int) {
    0 <= i < |chunks| && chunks[i].start <= b <= chunks[i].end
  }

  ghost predicate Covered(chunks: seq<Chunk>, b: int) {
    exists i :: Holds(chunks, i, b)
  }

  predicate AtMostOne(chunks: seq<Chunk>, b: int) {
    forall i, j :: 0 <= i < j < |chunks| ==> !Holds(chunks, i, b) || !Holds(chunks, j, b)
  }

  /** Every block of the range lies in exactly one chunk, and no other block in any. */
  lemma {:induction false} ChunksPartition(from: int, upTo: int, size: int, b: int)
    requires size >= 1
    ensures Covered(ChunkList(from, upTo, size), b) <==> from <= b <= upTo
    ensures AtMostOne(ChunkList(from, upTo, size), b)
    decreases upTo - from
  {
    if upTo >= from {
      var start := StartOf(from, upTo, size);
      var chunks, rest := ChunkList(from, upTo, size), ChunkList(from, start - 1, size);
      ChunksPartition(from, start - 1, size, b);
      assert chunks == [Chunk(start, upTo)] + rest;
      forall i
        ensures Holds(chunks, i, b) <==> (i == 0 && start <= b <= upTo) || Holds(rest, i - 1, b)
      {
        if 0 < i < |chunks| {
          assert chunks[i] == rest[i - 1];
        }
      }
      if start <= b <= upTo {
        assert Holds(chunks, 0, b);
      } else if from <= b < start {
        var i :| Holds(rest, i, b);
        assert Holds(chunks, i + 1, b);
      }
    }
  }

  /** There are as many chunks as it takes: the block count divided by the size, rounded up. */
  lemma {:induction false} ChunkCount(from: int, upTo: int, size: int)
    requires size >= 1 && from <= upTo + 1
    ensures |ChunkList(from, upTo, size)| == (upTo - from + 1 + size - 1) / size
    decreases upTo - from
  {
    var blocks := upTo - from + 1;
    if upTo < from {
      DivideSmall(blocks + size - 1, size);
    } else {
      var rest := ChunkList(from, StartOf(from, upTo, size) - 1, size);
      assert |ChunkList(from, upTo, size)| == 1 + |rest|;
      if upTo - size + 1 > from {
        ChunkCount(from, upTo - size, size);
        DivideOff(blocks + size - 1, size);
        assert (upTo - size) - from + 1 + size - 1 == blocks + size - 1 - size;
      } else {
        assert rest == [];
        DivideSmall(blocks - 1, size);
        assert blocks - 1 + size == blocks + size - 1;
      }
    }
  }

  lemma DivideOff(x: int, size: int)
    requires size >= 1
    ensures x / size == (x - size) / size + 1
  {
    DivisionIsUnique(x, size, (x - size) / size + 1, (x - size) % size);
  }

  lemma DivideSmall(r: int, size: int)
    requires 0 <= r < size
    ensures r / size == 0 && (r + size) / size == 1
  {
  }

  // ---------------------------------------------------------------------------------------------
  // The loop.
  // ---------------------------------------------------------------------------------------------

  /** The chunks asked for, with `got` already collected; a limit of 0 means no limit. */
  function Asked(chain: seq<Log>, chunks: seq<Chunk>, limit: nat, failed: set<int>, got: seq<Log>): seq<Chunk> {
    if chunks == [] then []
    else
      var more := got + Answer(chain, chunks[0], failed);
      if chunks[0].end !in failed && limit != 0 && |more| >= limit then [chunks[0]]
      else [chunks[0]] + Asked(chain, chunks[1..], limit, failed, more)
  }

  /** The logs collected in the end. */
  function Walk(chain: seq<Log>, chunks: seq<Chunk>, limit: nat, failed: set<int>, got: seq<Log>): seq<Log> {
    if chunks == [] then got
    else
      var more := got + Answer(chain, chunks[0], failed);
      if chunks[0].end !in failed && limit != 0 && |more| >= limit then more
      else Walk(chain, chunks[1..], limit, failed, more)
  }

  method ChunkedGetLogs(chain: seq<Log>, from: int, upTo: int, size: int, limit: nat, failed: set<int>)
    returns (results: seq<Log>)
    requires size >= 1
    ensures results == Walk(chain, ChunkList(from, upTo, size), limit, failed, [])
  {
    results := [];
    var chunkEnd := upTo;
    while chunkEnd >= from
      invariant Walk(chain, ChunkList(from, chunkEnd, size), limit, failed, results) ==
                Walk(chain, ChunkList(from, upTo, size), limit, failed, [])
      decreases chunkEnd - from
    {
      var chunkStart := if chunkEnd - size + 1 > from then chunkEnd - size + 1 else from;
      assert ChunkList(from, chunkEnd, size)[1..] == ChunkList(from, chunkStart - 1, size);
      if chunkEnd !in failed {
        results := results + InRange(chain, chunkStart, chunkEnd);
        if limit != 0 && |results| >= limit {
          break;
        }
      } else {
        assert results + [] == results;
      }
      chunkEnd := chunkStart - 1;
    }
  }

  lemma GatherFirst(chain: seq<Log>, c: Chunk, rest: seq<Chunk>, failed: set<int>)
    ensures Gather(chain, [c] + rest, failed) == Answer(chain, c, failed) + Gather(chain, rest, failed)
  {
  }

  lemma GatherOne(chain: seq<Log>, c: Chunk, failed: set<int>)
    ensures Gather(chain, [c], failed) == Answer(chain, c, failed)
  {
    GatherFirst(chain, c, [], failed);
    assert [c] + [] == [c];
  }

  /** The walk returns what the calls it makes bring, in order. */
  lemma {:induction false} WalkGathers(chain: seq<Log>, chunks: seq<Chunk>, limit: nat, failed: set<int>, got: seq<Log>)
    ensures Walk(chain, chunks, limit, failed, got) ==
            got + Gather(chain, Asked(chain, chunks, limit, failed, got), failed)
  {
    if chunks != [] {
      var more := got + Answer(chain, chunks[0], failed);
      var rest := Asked(chain, chunks[1..], limit, failed, more);
      if chunks[0].end in failed || limit == 0 || |more| < limit {
        WalkGathers(chain, chunks[1..], limit, failed, more);
        GatherFirst(chain, chunks[0], rest, failed);
        var later := Gather(chain, rest, failed);
        assert more + later == got + (Answer(chain, chunks[0], failed) + later);
      } else {
        GatherOne(chain, chunks[0], failed);
      }
    }
  }

  lemma {:induction false} AskedComeFirst(
      chain: seq<Log>, chunks: seq<Chunk>, limit: nat, failed: set<int>, got: seq<Log>)
    ensures Asked(chain, chunks, limit, failed, got) <= chunks
  {
    if chunks != [] {
      AskedComeFirst(chain, chunks[1..], limit, failed, got + Answer(chain, chunks[0], failed));
      assert chunks == [chunks[0]] + chunks[1..];
    }
  }

  lemma {:induction false} LeftOutAtTheLimit(
      chain: seq<Log>, chunks: seq<Chunk>, limit: nat, failed: set<int>, got: seq<Log>)
    requires Asked(chain, chunks, limit, failed, got) != chunks
    ensures limit != 0 && |Walk(chain, chunks, limit, failed, got)| >= limit
    ensures var asked := Asked(chain, chunks, limit, failed, got);
            asked != [] && asked[|asked| - 1].end !in failed
  {
    var more := got + Answer(chain, chunks[0], failed);
    if chunks[0].end in failed || limit == 0 || |more| < limit {
      assert chunks == [chunks[0]] + chunks[1..];
      LeftOutAtTheLimit(chain, chunks[1..], limit, failed, more);
    }
  }

  /**
   * The chunks asked for come first; the walk leaves chunks out only when its last call succeeded and
   * reached the limit.
   */
  lemma {:induction false} WalkLeavesOut(
      chain: seq<Log>, chunks: seq<Chunk>, limit: nat, failed: set<int>, got: seq<Log>)
    ensures Asked(chain, chunks, limit, failed, got) <= chunks
    ensures var asked := Asked(chain, chunks, limit, failed, got);
            asked != chunks ==>
              && limit != 0 && |Walk(chain, chunks, limit, failed, got)| >= limit
              && asked != [] && asked[|asked| - 1].end !in failed
  {
    AskedComeFirst(chain, chunks, limit, failed, got);
    if Asked(chain, chunks, limit, failed, got) != chunks {
      LeftOutAtTheLimit(chain, chunks, limit, failed, got);
    }
  }

  /** The walk goes on after a call only if that call failed or the results are still below the limit. */
  lemma {:induction false} WalkStopsAtTheLimit(
      chain: seq<Log>, chunks: seq<Chunk>, limit: nat, failed: set<int>, got: seq<Log>, k: nat)
    requires 0 < k < |Asked(chain, chunks, limit, failed, got)|
    ensures var asked := Asked(chain, chunks, limit, failed, got);
            limit == 0 || asked[k - 1].end in failed || |got + Gather(chain, asked[..k], failed)| < limit
  {
    var more := got + Answer(chain, chunks[0], failed);
    var asked, rest := Asked(chain, chunks, limit, failed, got), Asked(chain, chunks[1..], limit, failed, more);
    assert asked[..k] == [chunks[0]] + rest[..k - 1];
    GatherFirst(chain, chunks[0], rest[..k - 1], failed);
    if k > 1 {
      WalkStopsAtTheLimit(chain, chunks[1..], limit, failed, more, k - 1);
    }
  }

  /** A chunk is asked for exactly if what the chunks before it bring is below the limit. */
  lemma {:induction false} AskedExactlyBelowTheLimit(
      chain: seq<Log>, chunks: seq<Chunk>, limit: nat, failed: set<int>, got: seq<Log>, k: nat)
    requires |got| < limit && k < |chunks|
    ensures k < |Asked(chain, chunks, limit, failed, got)| <==> |got| + |Gather(chain, chunks[..k], failed)| < limit
    decreases k
  {
    if k > 0 {
      var more := got + Answer(chain, chunks[0], failed);
      assert chunks[..k] == [chunks[0]] + chunks[1..][..k - 1];
      GatherFirst(chain, chunks[0], chunks[1..][..k - 1], failed);
      if |more| < limit {
        AskedExactlyBelowTheLimit(chain, chunks[1..], limit, failed, more, k - 1);
      }
    }
  }

  // ---------------------------------------------------------------------------------------------
  // Without failures the loop is a range filter.
  // ---------------------------------------------------------------------------------------------

  lemma {:induction false} RangesJoin(chain: seq<Log>, from: int, mid: int, upTo: int)
    requires from <= mid <= upTo + 1
    ensures multiset(InRange(chain, from, upTo)) ==
            multiset(InRange(chain, mid, upTo)) + multiset(InRange(chain, from, mid - 1))
  {
    if chain != [] {
      RangesJoin(chain[1..], from, mid, upTo);
    }
  }

  lemma {:induction false} NothingAbove(chain: seq<Log>, from: int, upTo: int)
    requires from > upTo
    ensures InRange(chain, from, upTo) == []
  {
    if chain != [] {
      NothingAbove(chain[1..], from, upTo);
    }
  }

  lemma FirstChunk(from: int, upTo: int, size: int, chunks: seq<Chunk>)
    requires size >= 1 && chunks != [] && chunks <= ChunkList(from, upTo, size)
    ensures from <= upTo && chunks[0] == Chunk(StartOf(from, upTo, size), upTo)
    ensures chunks[1..] <= ChunkList(from, StartOf(from, upTo, size) - 1, size)
    ensures chunks == ChunkList(from, upTo, size)
            <==> chunks[1..] == ChunkList(from, StartOf(from, upTo, size) - 1, size)
    ensures Reached(upTo, chunks) == Reached(StartOf(from, upTo, size) - 1, chunks[1..])
  {
  }

  /** The first chunks of a range reach down to some block of it; all of them reach its first block. */
  lemma {:induction false} ChunksReach(from: int, upTo: int, size: int, chunks: seq<Chunk>)
    requires size >= 1 && chunks <= ChunkList(from, upTo, size)
    ensures Reached(upTo, chunks) <= upTo + 1
    ensures chunks != [] ==> from <= Reached(upTo, chunks)
    ensures chunks == ChunkList(from, upTo, size) && from <= upTo ==> Reached(upTo, chunks) == from
    decreases upTo - from
  {
    if chunks != [] {
      var start := StartOf(from, upTo, size);
      FirstChunk(from, upTo, size, chunks);
      ChunksReach(from, start - 1, size, chunks[1..]);
    }
  }

  /**
   * If no call failed, the calls for the first chunks bring exactly the logs from the lowest block they
   * reach up to `upTo`, each as often as the chain holds it.
   */
  lemma {:induction false} ChunksFilterARange(chain: seq<Log>, from: int, upTo: int, size: int, chunks: seq<Chunk>)
    requires size >= 1 && chunks <= ChunkList(from, upTo, size)
    ensures multiset(Gather(chain, chunks, {})) == multiset(InRange(chain, Reached(upTo, chunks), upTo))
    decreases upTo - from
  {
    if chunks == [] {
      NothingAbove(chain, upTo + 1, upTo);
    } else {
      var start, rest := StartOf(from, upTo, size), chunks[1..];
      FirstChunk(from, upTo, size, chunks);
      ChunksFilterARange(chain, from, start - 1, size, rest);
      FirstChunkReach(from, upTo, size, chunks);
      FirstChunkJoins(chain, chunks, start, upTo, Reached(upTo, chunks));
    }
  }

  lemma FirstChunkReach(from: int, upTo: int, size: int, chunks: seq<Chunk>)
    requires size >= 1 && chunks != [] && chunks <= ChunkList(from, upTo, size)
    ensures from <= upTo && Reached(upTo, chunks) <= StartOf(from, upTo, size)
  {
    FirstChunk(from, upTo, size, chunks);
    ChunksReach(from, StartOf(from, upTo, size) - 1, size, chunks[1..]);
  }

  lemma FirstChunkJoins(chain: seq<Log>, chunks: seq<Chunk>, start: int, upTo: int, low: int)
    requires chunks != [] && chunks[0] == Chunk(start, upTo) && low <= start <= upTo
    requires multiset(Gather(chain, chunks[1..], {})) == multiset(InRange(chain, low, start - 1))
    ensures multiset(Gather(chain, chunks, {})) == multiset(InRange(chain, low, upTo))
  {
    RangesJoin(chain, low, start, upTo);
    assert Gather(chain, chunks, {}) == InRange(chain, start, upTo) + Gather(chain, chunks[1..], {});
  }

  lemma {:induction false} FailuresElsewhere(chain: seq<Log>, chunks: seq<Chunk>, failed: set<int>)
    requires forall i :: 0 <= i < |chunks| ==> chunks[i].end !in failed
    ensures Gather(chain, chunks, failed) == Gather(chain, chunks, {})
  {
    if chunks != [] {
      FailuresElsewhere(chain, chunks[1..], failed);
    }
  }

  /** The chunks before number `k`, if none of them fails, bring as many logs as there are above chunk `k`. */
  lemma LogsAboveAChunk(chain: seq<Log>, from: int, upTo: int, size: int, k: nat, failed: set<int>)
    requires size >= 1 && k < |ChunkList(from, upTo, size)|
    requires forall i :: 0 <= i < k ==> ChunkList(from, upTo, size)[i].end !in failed
    ensures var all := ChunkList(from, upTo, size);
            |Gather(chain, all[..k], failed)| == |InRange(chain, all[k].end + 1, upTo)|
  {
    var all := ChunkList(from, upTo, size);
    FailuresElsewhere(chain, all[..k], failed);
    ChunksFilterARange(chain, from, upTo, size, all[..k]);
    ReachedAboveAChunk(from, upTo, size, k);
    var logs, range := Gather(chain, all[..k], {}), InRange(chain, all[k].end + 1, upTo);
    assert |multiset(logs)| == |logs| && |multiset(range)| == |range|;
  }

  lemma ReachedAboveAChunk(from: int, upTo: int, size: int, k: nat)
    requires size >= 1 && k < |ChunkList(from, upTo, size)|
    ensures Reached(upTo, ChunkList(from, upTo, size)[..k]) == ChunkList(from, upTo, size)[k].end + 1
  {
    ChunksTile(from, upTo, size);
    var all := ChunkList(from, upTo, size);
    if k > 0 {
      assert all[..k][k - 1] == all[k - 1];
    }
  }

  /**
   * Without failed calls the result holds exactly the logs of a final part of the range, each as often
   * as the chain holds it: the whole range, unless the limit was reached first.
   */
  lemma WalkFiltersTheRange(chain: seq<Log>, from: int, upTo: int, size: int, limit: nat) returns (low: int)
    requires size >= 1
    ensures from <= low
    ensures var results := Walk(chain, ChunkList(from, upTo, size), limit, {}, []);
            && multiset(results) == multiset(InRange(chain, low, upTo))
            && (low == from || (limit != 0 && |results| >= limit))
  {
    var all := ChunkList(from, upTo, size);
    var chunks := Asked(chain, all, limit, {}, []);
    WalkGathers(chain, all, limit, {}, []);
    WalkLeavesOut(chain, all, limit, {}, []);
    ChunksFilterARange(chain, from, upTo, size, chunks);
    ChunksReach(from, upTo, size, chunks);
    low := from;
    if from <= upTo {
      low := Reached(upTo, chunks);
    } else {
      NothingAbove(chain, from, upTo);
      NothingAbove(chain, upTo + 1, upTo);
    }
  }
}
