/**
 * One scan iteration from the queued job to the tables: the order's checks, the chain read through the
 * block cursor, and the settling of what was found.
 */
module DepositScan {
  import opened Prelude
  import opened Ledger
  import opened Deposits
  import opened TopupTables
  import opened ChunkedLogs
  import opened ScanCursor

  /** A scan ends for good, is queued again, or settles its order. */
  datatype Outcome = Stop | Again(next: ScanCursor.Job) | Finish(result: ScanResult)

  function Transfers(logs: seq<Log>, of: Log -> Transfer): seq<Transfer> {
    if logs == [] then [] else [of(logs[0])] + Transfers(logs[1..], of)
  }

  lemma {:induction false} TransfersAt(logs: seq<Log>, of: Log -> Transfer)
    ensures |Transfers(logs, of)| == |logs|
    ensures forall i :: 0 <= i < |logs| ==> Transfers(logs, of)[i] == of(logs[i])
  {
    if logs != [] {
      TransfersAt(logs[1..], of);
    }
  }

  /** A chain reports each log position once. */
  ghost predicate DistinctLogs(chain: seq<Log>, of: Log -> Transfer) {
    forall i, j :: 0 <= i < j < |chain| ==> KeyOf(of(chain[i])) != KeyOf(of(chain[j]))
  }

  // ---------------------------------------------------------------------------------------------
  // What is read from the chain names no log twice.
  // ---------------------------------------------------------------------------------------------

  lemma {:induction false} RangeIsPart(chain: seq<Log>, from: int, upTo: int)
    ensures multiset(InRange(chain, from, upTo)) <= multiset(chain)
  {
    if chain != [] {
      RangeIsPart(chain[1..], from, upTo);
      assert chain == [chain[0]] + chain[1..];
    }
  }

  /** Failed calls only take away. */
  lemma {:induction false} FailuresTakeAway(chain: seq<Log>, chunks: seq<Chunk>, failed: set<int>)
    ensures multiset(Gather(chain, chunks, failed)) <= multiset(Gather(chain, chunks, {}))
  {
    if chunks != [] {
      FailuresTakeAway(chain, chunks[1..], failed);
    }
  }

  lemma WalkIsPart(chain: seq<Log>, from: int, upTo: int, size: int, limit: nat, failed: set<int>)
    requires size >= 1
    ensures multiset(Walk(chain, ChunkList(from, upTo, size), limit, failed, [])) <= multiset(chain)
  {
    var all := ChunkList(from, upTo, size);
    var asked := Asked(chain, all, limit, failed, []);
    WalkGathers(chain, all, limit, failed, []);
    AskedComeFirst(chain, all, limit, failed, []);
    FailuresTakeAway(chain, asked, failed);
    ChunksFilterARange(chain, from, upTo, size, asked);
    RangeIsPart(chain, Reached(upTo, asked), upTo);
    assert [] + Gather(chain, asked, failed) == Gather(chain, asked, failed);
  }

  lemma {:induction false} DistinctOccurOnce(chain: seq<Log>, of: Log -> Transfer, l: Log)
    requires DistinctLogs(chain, of)
    ensures multiset(chain)[l] <= 1
  {
    if chain != [] {
      DistinctOccurOnce(chain[1..], of, l);
      assert chain == [chain[0]] + chain[1..];
      forall i | 0 <= i < |chain| - 1
        ensures chain[1..][i] != chain[0]
      {
        assert chain[1..][i] == chain[i + 1];
      }
    }
  }

  lemma TwoOccurrences(logs: seq<Log>, i: nat, j: nat)
    requires i < j < |logs| && logs[i] == logs[j]
    ensures multiset(logs)[logs[i]] >= 2
  {
    assert logs == logs[..j] + logs[j..];
    assert logs[i] == logs[..j][i] && logs[i] == logs[j..][0];
    assert logs[i] in multiset(logs[..j]) && logs[i] in multiset(logs[j..]);
  }

  lemma PartIsDistinct(logs: seq<Log>, chain: seq<Log>, of: Log -> Transfer)
    requires multiset(logs) <= multiset(chain) && DistinctLogs(chain, of)
    ensures DistinctKeys(Transfers(logs, of))
  {
    TransfersAt(logs, of);
    forall i, j | 0 <= i < j < |logs|
      ensures KeyOf(of(logs[i])) != KeyOf(of(logs[j]))
    {
      assert logs[i] in multiset(logs) && logs[j] in multiset(logs);
      assert logs[i] in multiset(chain) && logs[j] in multiset(chain);
      if logs[i] == logs[j] {
        TwoOccurrences(logs, i, j);
        DistinctOccurOnce(chain, of, logs[i]);
      } else {
        var k :| 0 <= k < |chain| && chain[k] == logs[i];
        var n :| 0 <= n < |chain| && chain[n] == logs[j];
        assert k < n || n < k;
      }
    }
  }

  // ---------------------------------------------------------------------------------------------
  // The iteration.
  // ---------------------------------------------------------------------------------------------

  function Read(job: ScanCursor.Job, p: Poll): seq<Log> {
    if p.head.None? then []
    else Walk(p.chain, Range(job, p), LOG_LIMIT, p.failed, [])
  }

  /** The order is still to be settled, and its network can be read. */
  predicate Due(orders: map<nat, Order>, o: nat, now: int, configured: bool) {
    o in orders && orders[o].status.Pending? && now - orders[o].createdAt <= TOPUP_SCAN_TTL_MS && configured
  }

  method FoundTransfers(logs: seq<Log>, of: Log -> Transfer) returns (transfers: seq<Transfer>)
    ensures transfers == Transfers(logs, of)
  {
    transfers := [];
    for i := 0 to |logs|
      invariant transfers + Transfers(logs[i..], of) == Transfers(logs, of)
    {
      assert logs[i..][1..] == logs[i + 1..];
      transfers := transfers + [of(logs[i])];
    }
    assert logs[|logs|..] == [];
  }

  lemma ReadIsDistinct(job: ScanCursor.Job, p: Poll, of: Log -> Transfer)
    requires DistinctLogs(p.chain, of)
    ensures DistinctKeys(Transfers(Read(job, p), of))
  {
    if p.head.Some? {
      WalkIsPart(p.chain, FromBlock(job, p.head.value), p.head.value, CHUNK_SIZE, LOG_LIMIT, p.failed);
    }
    PartIsDistinct(Read(job, p), p.chain, of);
  }

  /** The order is confirmed; if its agent exists, the new logs are recorded and what they are worth is credited. */
  ghost predicate SettledBy(before: State, after: State, o: nat, news: seq<Transfer>, result: ScanResult)
    requires before.unit >= 1 && o in before.orders
  {
    var agent := before.orders[o].agent;
    && after.orders == Transition(before.orders, o, Confirmed)
    && if agent in before.balances
       then
         && result == Deposited(Total(news, before.unit)) && IsWorth(result.total, RawTotal(news), before.unit)
         && after.ledger == before.ledger + DepositRows(agent, 0, before.balances[agent], news, before.unit)
         && after.balances == before.balances[agent := before.balances[agent] + Total(news, before.unit)]
       else result == NoAgent && after.ledger == before.ledger && after.balances == before.balances
  }

  method Settle(store: Store, o: nat, now: int, transfers: seq<Transfer>) returns (result: ScanResult)
    requires store.unit >= 1 && KeysUnique(store.ledger) && DistinctKeys(transfers) && Due(store.orders, o, now, true)
    modifies store
    ensures !result.Skipped? && (result.NothingNew? <==> NewLogs(old(store.ledger), transfers) == [])
    ensures result.NothingNew? ==> store.View() == old(store.View())
    ensures !result.NothingNew? ==>
              SettledBy(old(store.View()), store.View(), o, NewLogs(old(store.ledger), transfers), result)
    ensures KeysUnique(store.ledger)
  {
    result := store.ProcessScan(o, now, transfers);
  }

  /**
   * One run of a queued scan that nothing interleaves with.  It stops when the order is not due; it is
   * queued again, with the cursor moved on and the tables untouched, when there is no head or no new
   * log; otherwise it settles the order.
   */
  method ScanOnce(store: Store, job: ScanJob, o: nat, now: int, configured: bool, p: Poll, of: Log -> Transfer)
    returns (r: Outcome)
    requires store.unit >= 1 && KeysUnique(store.ledger) && DistinctLogs(p.chain, of)
    modifies store, job
    ensures r.Stop? <==>
              !(o in old(store.orders) && old(store.orders)[o].status.Pending? && configured
                && now - old(store.orders)[o].createdAt <= TOPUP_SCAN_TTL_MS)
    ensures r.Again? <==>
              && !r.Stop?
              && NewLogs(old(store.ledger), Transfers(Read(old(job.data), p), of)) == []
    ensures !r.Finish? ==> store.View() == old(store.View())
    ensures r.Stop? ==> job.data == old(job.data)
    ensures r.Again? ==> r.next == job.data == Next(old(job.data), p)
    ensures r.Finish? ==>
              SettledBy(old(store.View()), store.View(), o,
                        NewLogs(old(store.ledger), Transfers(Read(old(job.data), p), of)), r.result)
    ensures KeysUnique(store.ledger)
  {
    if o !in store.orders || !store.orders[o].status.Pending? {
      return Stop;
    }
    if now - store.orders[o].createdAt > TOPUP_SCAN_TTL_MS || !configured {
      return Stop;
    }
    ghost var before := job.data;
    var logs := job.ReadNew(p);
    assert logs == Read(before, p);
    var transfers := FoundTransfers(logs, of);
    ReadIsDistinct(before, p, of);
    var result := Settle(store, o, now, transfers);
    r := if result.NothingNew? then Again(job.data) else Finish(result);
  }

  /**
   * A deposit in the range of a complete poll is never missed: if its log is recorded neither by its
   * key nor by its hash, the iteration finds it among the new logs.
   */
  lemma CompletePollFindsDeposits(job: ScanCursor.Job, p: Poll, of: Log -> Transfer, ledger: seq<Row>, l: Log)
    requires p.head.Some? && Complete(job, p)
    requires l in p.chain && FromBlock(job, p.head.value) <= l.block <= p.head.value
    requires KeyOf(of(l)) !in Keys(ledger) && TxKey(of(l).tx) !in Keys(ledger)
    ensures of(l) in NewLogs(ledger, Transfers(Read(job, p), of))
  {
    var from, head := FromBlock(job, p.head.value), p.head.value;
    var all, logs := Range(job, p), Read(job, p);
    WalkGathers(p.chain, all, LOG_LIMIT, p.failed, []);
    FailuresElsewhere(p.chain, all, p.failed);
    ChunksFilterARange(p.chain, from, head, CHUNK_SIZE, all);
    ChunksReach(from, head, CHUNK_SIZE, all);
    InRangeHolds(p.chain, from, head, l);
    assert [] + Gather(p.chain, all, p.failed) == Gather(p.chain, all, p.failed);
    assert l in multiset(logs);
    TransfersAt(logs, of);
    var i :| 0 <= i < |logs| && logs[i] == l;
    assert Transfers(logs, of)[i] == of(l);
    NewLogsAreNew(ledger, Transfers(logs, of));
  }

  lemma {:induction false} InRangeHolds(chain: seq<Log>, from: int, upTo: int, l: Log)
    requires l in chain && from <= l.block <= upTo
    ensures l in multiset(InRange(chain, from, upTo))
  {
    if chain[0] != l {
      assert l in chain[1..];
      InRangeHolds(chain[1..], from, upTo, l);
    }
  }
}
