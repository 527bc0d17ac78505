/**
 * The block cursor a deposit scan carries from poll to poll.  A poll reads the chain's head, scans from
 * right after the cursor up to the head, and re-enqueues itself with the head as its new cursor.
 */
module ScanCursor {
  import opened Prelude
  import opened ChunkedLogs

  const LOOKBACK_BLOCKS := 200
  const CHUNK_SIZE := 2000
  const LOG_LIMIT: nat := 10

  /** What a queued poll knows; only the first poll of an order has a start block. */
  datatype Job = Job(startBlock: Option<int>, lastScanned: Option<int>)

  /** What the chain answers during one poll: its head if that call succeeds, its logs, and the chunks that fail. */
  datatype Poll = Poll(head: Option<int>, chain: seq<Log>, failed: set<int>)

  /** A cursor of 0 counts as no cursor. */
  predicate HasCursor(job: Job) {
    job.lastScanned.Some? && job.lastScanned.value != 0
  }

  function FromBlock(job: Job, head: int): int {
    if HasCursor(job) then job.lastScanned.value + 1
    else if job.startBlock.Some? then job.startBlock.value
    else head - LOOKBACK_BLOCKS
  }

  function Next(job: Job, p: Poll): Job {
    if p.head.None? then Job(None, job.lastScanned) else Job(None, p.head)
  }

  /** The chunks between the first block to scan and the head. */
  function Range(job: Job, p: Poll): seq<Chunk>
    requires p.head.Some?
  {
    ChunkList(FromBlock(job, p.head.value), p.head.value, CHUNK_SIZE)
  }

  function AskedBy(job: Job, p: Poll): seq<Chunk> {
    if p.head.None? then [] else Asked(p.chain, Range(job, p), LOG_LIMIT, p.failed, [])
  }

  /** The poll got an answer for a chunk that holds block `b`. */
  ghost predicate Scans(job: Job, p: Poll, b: int) {
    exists i :: Holds(AskedBy(job, p), i, b) && AskedBy(job, p)[i].end !in p.failed
  }

  /** No chunk of the poll failed and none was left out because of the limit. */
  ghost predicate Complete(job: Job, p: Poll) {
    p.head.Some? ==>
      && AskedBy(job, p) == Range(job, p)
      && forall i :: 0 <= i < |AskedBy(job, p)| ==> AskedBy(job, p)[i].end !in p.failed
  }

  function After(job: Job, polls: seq<Poll>): Job
    decreases |polls|
  {
    if polls == [] then job else After(Next(job, polls[0]), polls[1..])
  }

  /** Some poll of the run scanned block `b`. */
  ghost predicate Seen(job: Job, polls: seq<Poll>, b: int)
    decreases |polls|
  {
    polls != [] && (Scans(job, polls[0], b) || Seen(Next(job, polls[0]), polls[1..], b))
  }

  ghost predicate AllComplete(job: Job, polls: seq<Poll>)
    decreases |polls|
  {
    polls != [] ==> Complete(job, polls[0]) && AllComplete(Next(job, polls[0]), polls[1..])
  }

  predicate HeadsAtLeast(polls: seq<Poll>, low: int) {
    forall k :: 0 <= k < |polls| && polls[k].head.Some? ==> polls[k].head.value >= low
  }

  /** The queued job of one order, with one poll as the worker runs it. */
  class ScanJob {
    var data: Job

    constructor (startBlock: Option<int>)
      ensures data == Job(startBlock, None)
    {
      data := Job(startBlock, None);
    }

    /** Reads what is new since the cursor and moves the cursor to the head. */
    method ReadNew(p: Poll) returns (logs: seq<Log>)
      modifies this
      ensures data == Next(old(data), p)
      ensures p.head.None? ==> logs == []
      ensures p.head.Some? ==>
                logs == Walk(p.chain, Range(old(data), p), LOG_LIMIT, p.failed, [])
    {
      logs := [];
      match p.head
      case None =>
        data := Job(None, data.lastScanned);
      case Some(head) =>
        var fromBlock := if HasCursor(data) then data.lastScanned.value + 1
                         else if data.startBlock.Some? then data.startBlock.value
                         else head - LOOKBACK_BLOCKS;
        if fromBlock <= head {
          logs := ChunkedGetLogs(p.chain, fromBlock, head, CHUNK_SIZE, LOG_LIMIT, p.failed);
        }
        data := Job(None, Some(head));
    }
  }

  // ---------------------------------------------------------------------------------------------
  // One poll.
  // ---------------------------------------------------------------------------------------------

  lemma {:induction false} AskedIsPrefix(job: Job, p: Poll)
    requires p.head.Some?
    ensures AskedBy(job, p) <= Range(job, p)
  {
    WalkLeavesOut(p.chain, Range(job, p), LOG_LIMIT, p.failed, []);
  }

  /** A poll looks at no block outside its range. */
  lemma ScansItsRange(job: Job, p: Poll, b: int)
    requires Scans(job, p, b)
    ensures p.head.Some? && FromBlock(job, p.head.value) <= b <= p.head.value
  {
    var all := ChunkList(FromBlock(job, p.head.value), p.head.value, CHUNK_SIZE);
    AskedIsPrefix(job, p);
    var i :| Holds(AskedBy(job, p), i, b);
    assert Holds(all, i, b);
    ChunksPartition(FromBlock(job, p.head.value), p.head.value, CHUNK_SIZE, b);
  }

  lemma CompleteScans(job: Job, p: Poll, b: int)
    requires p.head.Some? && Complete(job, p) && FromBlock(job, p.head.value) <= b <= p.head.value
    ensures Scans(job, p, b)
  {
    ChunksPartition(FromBlock(job, p.head.value), p.head.value, CHUNK_SIZE, b);
    var i :| Holds(AskedBy(job, p), i, b);
  }

  predicate NoCallFails(job: Job, p: Poll)
    requires p.head.Some?
  {
    forall i :: 0 <= i < |Range(job, p)| ==> Range(job, p)[i].end !in p.failed
  }

  /** How many logs the chain holds in the blocks above chunk `i`, up to the head. */
  function LogsAbove(job: Job, p: Poll, i: nat): nat
    requires p.head.Some? && i < |Range(job, p)|
  {
    |InRange(p.chain, Range(job, p)[i].end + 1, p.head.value)|
  }

  /**
   * A block of the range is scanned exactly if the call for its chunk succeeds and the calls for the
   * chunks above bring fewer logs than the limit.
   */
  lemma BlockIsScanned(job: Job, p: Poll, i: nat, b: int)
    requires p.head.Some? && Holds(Range(job, p), i, b)
    ensures Scans(job, p, b) <==>
            Range(job, p)[i].end !in p.failed && |Gather(p.chain, Range(job, p)[..i], p.failed)| < LOG_LIMIT
  {
    var all, asked := Range(job, p), AskedBy(job, p);
    AskedIsPrefix(job, p);
    AskedExactlyBelowTheLimit(p.chain, all, LOG_LIMIT, p.failed, [], i);
    ChunksPartition(FromBlock(job, p.head.value), p.head.value, CHUNK_SIZE, b);
    if i < |asked| {
      assert Holds(asked, i, b);
    }
    if k :| Holds(asked, k, b) && asked[k].end !in p.failed {
      assert Holds(all, k, b) && k == i;
    }
  }

  /** The same by the logs on the chain, when no call fails: fewer than the limit lie above its chunk. */
  lemma BlockIsScannedByLogs(job: Job, p: Poll, i: nat, b: int)
    requires p.head.Some? && Holds(Range(job, p), i, b) && NoCallFails(job, p)
    ensures Scans(job, p, b) <==> LogsAbove(job, p, i) < LOG_LIMIT
  {
    BlockIsScanned(job, p, i, b);
    LogsAboveAChunk(p.chain, FromBlock(job, p.head.value), p.head.value, CHUNK_SIZE, i, p.failed);
  }

  /** Which chunk holds a block of the range. */
  lemma ChunkOf(job: Job, p: Poll, b: int) returns (i: nat)
    requires p.head.Some? && FromBlock(job, p.head.value) <= b <= p.head.value
    ensures Holds(Range(job, p), i, b)
  {
    ChunksPartition(FromBlock(job, p.head.value), p.head.value, CHUNK_SIZE, b);
    i :| Holds(Range(job, p), i, b);
  }

  /** Fewer logs lie above a newer chunk. */
  lemma LogsAboveGrows(chain: seq<Log>, low: int, high: int, head: int)
    requires low <= high <= head + 1
    ensures |InRange(chain, high, head)| <= |InRange(chain, low, head)|
  {
    RangesJoin(chain, low, high, head);
    assert |multiset(InRange(chain, high, head))| == |InRange(chain, high, head)|;
    assert |multiset(InRange(chain, low, head))| == |InRange(chain, low, head)|;
  }

  lemma ChunkEnds(job: Job, p: Poll, i: nat)
    requires p.head.Some? && i < |Range(job, p)|
    ensures Holds(Range(job, p), i, Range(job, p)[i].end)
    ensures FromBlock(job, p.head.value) <= Range(job, p)[i].end <= p.head.value
    ensures Range(job, p)[|Range(job, p)| - 1].end <= Range(job, p)[i].end
    decreases |Range(job, p)| - i
  {
    ChunksTile(FromBlock(job, p.head.value), p.head.value, CHUNK_SIZE);
    assert Holds(Range(job, p), i, Range(job, p)[i].end);
    ChunksPartition(FromBlock(job, p.head.value), p.head.value, CHUNK_SIZE, Range(job, p)[i].end);
    if i < |Range(job, p)| - 1 {
      ChunkEnds(job, p, i + 1);
    }
  }

  /**
   * A poll scans its whole range exactly if no call fails and fewer logs than the limit lie above the
   * oldest chunk of the range.
   */
  lemma ScansAllExactlyIfLogsFit(job: Job, p: Poll)
    requires p.head.Some? && FromBlock(job, p.head.value) <= p.head.value
    ensures Range(job, p) != []
    ensures (forall b :: FromBlock(job, p.head.value) <= b <= p.head.value ==> Scans(job, p, b)) <==>
            NoCallFails(job, p) && LogsAbove(job, p, |Range(job, p)| - 1) < LOG_LIMIT
  {
    var from, head := FromBlock(job, p.head.value), p.head.value;
    var all := Range(job, p);
    var last := |all| - 1;
    if forall b :: from <= b <= head ==> Scans(job, p, b) {
      forall i: nat | i < |all|
        ensures all[i].end !in p.failed
      {
        ChunkEnds(job, p, i);
        BlockIsScanned(job, p, i, all[i].end);
      }
      ChunkEnds(job, p, last);
      BlockIsScannedByLogs(job, p, last, all[last].end);
    } else if NoCallFails(job, p) && LogsAbove(job, p, last) < LOG_LIMIT {
      forall b | from <= b <= head
        ensures Scans(job, p, b)
      {
        var i := ChunkOf(job, p, b);
        ChunkEnds(job, p, i);
        LogsAboveGrows(p.chain, all[last].end + 1, all[i].end + 1, head);
        BlockIsScannedByLogs(job, p, i, b);
      }
    }
  }

  /** Every call of a poll is made, and answered, exactly under that condition. */
  lemma CompleteExactlyIfLogsFit(job: Job, p: Poll)
    requires p.head.Some?
    ensures Complete(job, p) <==>
            NoCallFails(job, p) && (Range(job, p) == [] || LogsAbove(job, p, |Range(job, p)| - 1) < LOG_LIMIT)
  {
    var all := Range(job, p);
    AskedIsPrefix(job, p);
    if all != [] && NoCallFails(job, p) {
      var last := |all| - 1;
      AskedExactlyBelowTheLimit(p.chain, all, LOG_LIMIT, p.failed, [], last);
      LogsAboveAChunk(p.chain, FromBlock(job, p.head.value), p.head.value, CHUNK_SIZE, last, p.failed);
    }
  }

  /** So scanning the whole range and making and answering every call are the same. */
  lemma ScansAllIffComplete(job: Job, p: Poll)
    requires p.head.Some?
    ensures Complete(job, p) <==> forall b :: FromBlock(job, p.head.value) <= b <= p.head.value ==> Scans(job, p, b)
  {
    CompleteExactlyIfLogsFit(job, p);
    if FromBlock(job, p.head.value) <= p.head.value {
      ScansAllExactlyIfLogsFit(job, p);
    }
  }

  // ---------------------------------------------------------------------------------------------
  // All polls.
  // ---------------------------------------------------------------------------------------------

  /** From a cursor on, polls leave no gap: heads may stall or move back. */
  lemma {:induction false} CursorLeavesNoGap(job: Job, polls: seq<Poll>, b: int)
    requires HasCursor(job) && HeadsAtLeast(polls, 1) && AllComplete(job, polls)
    requires job.lastScanned.value < b
    ensures HasCursor(After(job, polls))
    ensures b <= After(job, polls).lastScanned.value ==> Seen(job, polls, b)
    decreases |polls|
  {
    if polls != [] {
      var p := polls[0];
      assert HeadsAtLeast(polls[1..], 1) by {
        assert forall k :: 0 <= k < |polls[1..]| ==> polls[1..][k] == polls[k + 1];
      }
      if p.head.Some? && job.lastScanned.value + 1 <= b <= p.head.value {
        CompleteScans(job, p, b);
        CursorStays(Next(job, p), polls[1..]);
      } else {
        CursorLeavesNoGap(Next(job, p), polls[1..], b);
      }
    }
  }

  lemma {:induction false} CursorStays(job: Job, polls: seq<Poll>)
    requires HasCursor(job) && HeadsAtLeast(polls, 1)
    ensures HasCursor(After(job, polls))
    decreases |polls|
  {
    if polls != [] {
      assert HeadsAtLeast(polls[1..], 1) by {
        assert forall k :: 0 <= k < |polls[1..]| ==> polls[1..][k] == polls[k + 1];
      }
      CursorStays(Next(job, polls[0]), polls[1..]);
    }
  }

  /**
   * No gaps: from the first block of the first poll that got a head, up to the cursor carried in the
   * end, every block was scanned, whatever heads were reported, if no chunk failed or was cut off.
   */
  lemma ScanLeavesNoGap(job: Job, first: Poll, polls: seq<Poll>, b: int)
    requires first.head.Some? && HeadsAtLeast([first] + polls, 1) && AllComplete(job, [first] + polls)
    ensures HasCursor(After(job, [first] + polls))
    ensures FromBlock(job, first.head.value) <= b <= After(job, [first] + polls).lastScanned.value ==>
              Seen(job, [first] + polls, b)
  {
    var all := [first] + polls;
    assert all[0] == first && all[1..] == polls;
    assert HeadsAtLeast(polls, 1) by {
      assert forall k :: 0 <= k < |polls| ==> polls[k] == all[k + 1];
    }
    if FromBlock(job, first.head.value) <= b <= first.head.value {
      CompleteScans(job, first, b);
    }
    CursorStays(Next(job, first), polls);
    if first.head.value < b {
      CursorLeavesNoGap(Next(job, first), polls, b);
    }
  }

  /** A block at or below the cursor is never looked at again unless a later head is reported below it. */
  lemma {:induction false} LeftBehindForGood(job: Job, polls: seq<Poll>, b: int)
    requires HasCursor(job) && b <= job.lastScanned.value
    requires HeadsAtLeast(polls, 1) && HeadsAtLeast(polls, b)
    ensures !Seen(job, polls, b)
    decreases |polls|
  {
    if polls != [] {
      assert HeadsAtLeast(polls[1..], 1) && HeadsAtLeast(polls[1..], b) by {
        assert forall k :: 0 <= k < |polls[1..]| ==> polls[1..][k] == polls[k + 1];
      }
      if Scans(job, polls[0], b) {
        ScansItsRange(job, polls[0], b);
      }
      LeftBehindForGood(Next(job, polls[0]), polls[1..], b);
    }
  }

  // ---------------------------------------------------------------------------------------------
  // What the hypotheses keep out.
  // ---------------------------------------------------------------------------------------------

  lemma {:induction false} SeenAppend(job: Job, ps: seq<Poll>, qs: seq<Poll>, b: int)
    ensures Seen(job, ps + qs, b) <==> Seen(job, ps, b) || Seen(After(job, ps), qs, b)
    decreases |ps|
  {
    if ps == [] {
      assert ps + qs == qs;
    } else {
      assert (ps + qs)[1..] == ps[1..] + qs;
      SeenAppend(Next(job, ps[0]), ps[1..], qs, b);
    }
  }

  lemma SeenFirst(job: Job, p: Poll, later: seq<Poll>, b: int)
    ensures Seen(job, [p] + later, b) <==> Scans(job, p, b) || Seen(Next(job, p), later, b)
  {
    assert ([p] + later)[1..] == later;
  }

  /**
   * The log limit leaves blocks behind.  When no call fails, a block of the poll's range is ever seen,
   * in this poll or any later one whose head is not below it, exactly if fewer logs than the limit lie
   * above its chunk; it makes no difference that they may all be known already.
   */
  lemma LimitLeavesBlocksBehind(job: Job, p: Poll, i: nat, b: int, later: seq<Poll>)
    requires p.head.Some? && p.head.value >= 1 && Holds(Range(job, p), i, b) && NoCallFails(job, p)
    requires HeadsAtLeast(later, 1) && HeadsAtLeast(later, b)
    ensures Seen(job, [p] + later, b) <==> LogsAbove(job, p, i) < LOG_LIMIT
  {
    BlockIsScannedByLogs(job, p, i, b);
    SeenFirst(job, p, later, b);
    ChunksPartition(FromBlock(job, p.head.value), p.head.value, CHUNK_SIZE, b);
    LeftBehindForGood(Next(job, p), later, b);
  }

  predicate AllFail(polls: seq<Poll>) {
    forall k :: 0 <= k < |polls| ==> polls[k].head.None?
  }

  /** Failed head calls see nothing, keep the cursor, and drop the start block. */
  lemma {:induction false} FailedHeads(job: Job, fails: seq<Poll>, b: int)
    requires AllFail(fails)
    ensures !Seen(job, fails, b)
    ensures After(job, fails) == if fails == [] then job else Job(None, job.lastScanned)
    decreases |fails|
  {
    if fails != [] {
      FailedHeads(Next(job, fails[0]), fails[1..], b);
    }
  }

  /** From a complete poll on, a block up to its head is ever seen exactly if that poll starts at or below it. */
  lemma SeenFromTheFirstBlock(job: Job, p: Poll, later: seq<Poll>, b: int)
    requires p.head.Some? && p.head.value >= 1 && b <= p.head.value && Complete(job, p)
    requires HeadsAtLeast(later, 1) && HeadsAtLeast(later, b)
    ensures Seen(job, [p] + later, b) <==> FromBlock(job, p.head.value) <= b
  {
    SeenFirst(job, p, later, b);
    LeftBehindForGood(Next(job, p), later, b);
    if FromBlock(job, p.head.value) <= b {
      CompleteScans(job, p, b);
    } else if Scans(job, p, b) {
      ScansItsRange(job, p, b);
    }
  }

  /**
   * Failed head calls make a scan forget its order's start block: with any number of them before the
   * first complete poll, the start block is ever scanned exactly if there was none, or if the lookback
   * window of that poll happens to reach it.
   */
  lemma StartBlockIsForgotten(start: int, fails: seq<Poll>, p: Poll, later: seq<Poll>)
    requires AllFail(fails) && p.head.Some? && p.head.value >= 1 && p.head.value >= start
    requires Complete(After(Job(Some(start), None), fails), p)
    requires HeadsAtLeast(later, 1) && HeadsAtLeast(later, start)
    ensures Seen(Job(Some(start), None), fails + ([p] + later), start) <==>
            fails == [] || p.head.value - LOOKBACK_BLOCKS <= start
  {
    var job := Job(Some(start), None);
    SeenAppend(job, fails, [p] + later, start);
    FailedHeads(job, fails, start);
    SeenFromTheFirstBlock(After(job, fails), p, later, start);
  }

  /**
   * A head of 0 is no cursor: after one, the next complete poll, behind any number of failed head calls,
   * falls back to its lookback window, and a later block is ever seen exactly if that reaches it.
   */
  lemma CursorZeroIsForgotten(job: Job, zero: Poll, fails: seq<Poll>, p: Poll, later: seq<Poll>, b: int)
    requires zero.head == Some(0) && AllFail(fails) && p.head.Some? && 1 <= b <= p.head.value
    requires Complete(Job(None, Some(0)), p)
    requires HeadsAtLeast(later, b)
    ensures Seen(job, [zero] + (fails + ([p] + later)), b) <==> p.head.value - LOOKBACK_BLOCKS <= b
  {
    var job1 := Job(None, Some(0));
    SeenFirst(job, zero, fails + ([p] + later), b);
    if Scans(job, zero, b) {
      ScansItsRange(job, zero, b);
    }
    SeenAppend(job1, fails, [p] + later, b);
    FailedHeads(job1, fails, b);
    SeenFromTheFirstBlock(job1, p, later, b);
  }
}
