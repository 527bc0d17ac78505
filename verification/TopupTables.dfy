/**
 * The tables behind deposit scanning as one store, with the repository statements as methods and a
 * whole scan iteration as they run it when nothing else interleaves.
 */
module TopupTables {
  import opened Prelude
  import opened Decimals
  import opened Ledger
  import opened Deposits

  datatype ScanResult = Skipped | NothingNew | NoAgent | Deposited(total: int)

  /** What one turn of the batch loop does to the ledger, the total and the keys still to come. */
  lemma BatchStep(ledger: seq<Row>, agent: nat, running: int, rest: seq<Transfer>, total: int, unit: nat)
    requires unit >= 1 && rest != [] && DistinctKeys(rest) && KeysOf(rest) !! Keys(ledger)
    requires total >= 0 && total % unit == 0
    ensures
      var row := DepositRow(agent, 0, running, rest[0], unit);
      && KeyOf(rest[0]) !in Keys(ledger)
      && ledger + [row] + DepositRows(agent, 0, row.after, rest[1..], unit)
         == ledger + DepositRows(agent, 0, running, rest, unit)
      && Truncate(total + row.amount, unit) == total + row.amount
      && total + row.amount >= 0 && (total + row.amount) % unit == 0
      && Total(rest, unit) == row.amount + Total(rest[1..], unit)
      && DistinctKeys(rest[1..]) && KeysOf(rest[1..]) !! Keys(ledger + [row])
  {
    var row := DepositRow(agent, 0, running, rest[0], unit);
    TailWindow(rest);
    KeysSnoc(ledger, row);
    AmountHasWholePlaces(rest[0], unit);
    WholePlacesAdd(total, row.amount, unit);
    TruncateBounds(total + row.amount, unit);
  }

  predicate SameTables(s: State, t: State) {
    s.orders == t.orders && s.ledger == t.ledger && s.balances == t.balances
  }

  /** Some run of the concurrent system leads from one state to these tables. */
  ghost predicate IsRun(s: State, t: State)
    requires s.unit >= 1
  {
    exists es :: SameTables(Run(s, es), t)
  }

  lemma NoRun(s: State)
    requires s.unit >= 1
    ensures IsRun(s, s)
  {
    assert SameTables(Run(s, []), s);
  }

  class Store {
    const unit: nat
    var orders: map<nat, Order>
    var ledger: seq<Row>
    var balances: map<nat, int>

    constructor (unit: nat)
      ensures this.unit == unit && orders == map[] && ledger == [] && balances == map[]
    {
      this.unit, orders, ledger, balances := unit, map[], [], map[];
    }

    /** The store as the concurrent system sees it when no job is under way. */
    ghost function View(): State
      reads this
    {
      State(unit, orders, ledger, balances, [], [], [])
    }

    method ConfirmOrder(o: nat) returns (confirmed: bool)
      modifies this`orders
      ensures confirmed == (o in old(orders) && old(orders)[o].status.Pending?)
      ensures orders == Transition(old(orders), o, Confirmed)
      ensures confirmed ==> orders == old(orders)[o := old(orders)[o].(status := Confirmed)]
      ensures !confirmed ==> orders == old(orders)
    {
      confirmed := o in orders && orders[o].status.Pending?;
      if confirmed {
        orders := orders[o := orders[o].(status := Confirmed)];
      }
    }

    method RejectOrder(o: nat) returns (rejected: bool)
      modifies this`orders
      ensures rejected == (o in old(orders) && old(orders)[o].status.Pending?)
      ensures orders == Transition(old(orders), o, Rejected)
      ensures unit >= 1 ==> View() == Step(old(View()), Reject(o))
      ensures rejected ==> orders == old(orders)[o := old(orders)[o].(status := Rejected)]
      ensures !rejected ==> orders == old(orders)
    {
      rejected := o in orders && orders[o].status.Pending?;
      if rejected {
        orders := orders[o := orders[o].(status := Rejected)];
      }
    }

    /** Returns exactly the orders this statement expired. */
    method ExpirePendingOrders(cutoff: int) returns (expired: set<nat>)
      modifies this`orders
      ensures orders == ExpirePending(old(orders), cutoff)
      ensures expired == set o | o in orders && orders[o] != old(orders)[o]
      ensures unit >= 1 ==> View() == Step(old(View()), ExpireOlder(cutoff))
      ensures forall o :: o in expired <==>
                && o in old(orders) && old(orders)[o].status.Pending? && old(orders)[o].crypto
                && old(orders)[o].createdAt < cutoff
      ensures orders.Keys == old(orders).Keys
      ensures forall o :: o in expired ==> orders[o] == old(orders)[o].(status := Expired)
    {
      expired := set o | o in orders && orders[o].status.Pending? && orders[o].crypto && orders[o].createdAt < cutoff;
      orders := map o | o in orders :: if o in expired then orders[o].(status := Expired) else orders[o];
    }

    method DebitBalance(a: nat, amount: int) returns (debited: bool)
      modifies this`balances
      ensures debited == (a in old(balances) && old(balances)[a] >= amount)
      ensures balances == Debited(old(balances), a, amount)
      ensures unit >= 1 && amount >= 0 ==> balances == Step(old(View()), Debit(a, amount)).balances
      ensures debited ==> balances == old(balances)[a := old(balances)[a] - amount]
      ensures !debited ==> balances == old(balances)
    {
      debited := a in balances && balances[a] >= amount;
      if debited {
        balances := balances[a := balances[a] - amount];
      }
    }

    /** Empties a positive balance and says how much it held. */
    method DebitAllBalance(a: nat) returns (amount: Option<int>)
      modifies this`balances
      ensures amount.Some? <==> a in old(balances) && old(balances)[a] > 0
      ensures amount.Some? ==> amount.value == old(balances)[a] && balances == old(balances)[a := 0]
      ensures amount.None? ==> balances == old(balances)
      ensures unit >= 1 ==> balances == Step(old(View()), DebitAll(a)).balances
    {
      if a in balances && balances[a] > 0 {
        amount := Some(balances[a]);
        balances := balances[a := 0];
      } else {
        amount := None;
      }
    }

    method CreditBalance(a: nat, amount: int)
      modifies this`balances
      ensures balances == Credited(old(balances), a, amount)
      ensures a in old(balances) ==> balances == old(balances)[a := old(balances)[a] + amount]
      ensures a !in old(balances) ==> balances == old(balances)
    {
      if a in balances {
        balances := balances[a := balances[a] + amount];
      }
    }

    /** Appends a row; the unique index refuses a transaction key that is already recorded. */
    method InsertRow(row: Row) returns (inserted: bool)
      modifies this`ledger
      ensures inserted == (row.key.Some? ==> row.key.value !in Keys(old(ledger)))
      ensures ledger == if inserted then old(ledger) + [row] else old(ledger)
      ensures KeysUnique(old(ledger)) ==> KeysUnique(ledger)
    {
      KeysSnoc(ledger, row);
      inserted := row.key.None? || row.key.value !in Keys(ledger);
      if inserted {
        ledger := ledger + [row];
      }
    }

    /** The dedup filter over the fetched logs, keeping their order. */
    method FilterNew(logs: seq<Transfer>) returns (news: seq<Transfer>)
      ensures news == NewLogs(ledger, logs)
    {
      var existing := Keys(ledger);
      news := [];
      var i := |logs|;
      while i > 0
        invariant 0 <= i <= |logs|
        invariant news == NewLogs(ledger, logs[i..])
      {
        i := i - 1;
        assert logs[i..][1..] == logs[i + 1..];
        if KeyOf(logs[i]) !in existing && TxKey(logs[i].tx) !in existing {
          news := [logs[i]] + news;
        }
      }
      assert logs[0..] == logs;
    }

    /**
     * The loop that records a batch: one row per log from a running balance, and the total beside
     * it.  Both are rounded to 8 decimals at every turn; the total never loses anything by that.
     */
    method RecordBatch(agent: nat, before: int, news: seq<Transfer>) returns (total: int)
      requires unit >= 1 && DistinctKeys(news) && KeysOf(news) !! Keys(ledger)
      modifies this`ledger
      ensures ledger == old(ledger) + DepositRows(agent, 0, before, news, unit)
      ensures total == Total(news, unit) && IsWorth(total, RawTotal(news), unit)
      ensures KeysUnique(old(ledger)) ==> KeysUnique(ledger)
    {
      TotalIsWorth(news, unit);
      var running := before;
      total := 0;
      MultipleHasNoRemainder(0, unit);
      var i := 0;
      assert news[0..] == news;
      while i < |news|
        invariant 0 <= i <= |news|
        invariant ledger + DepositRows(agent, 0, running, news[i..], unit)
               == old(ledger) + DepositRows(agent, 0, before, news, unit)
        invariant total >= 0 && total % unit == 0
        invariant total + Total(news[i..], unit) == Total(news, unit)
        invariant KeysOf(news[i..]) !! Keys(ledger) && DistinctKeys(news[i..])
        invariant KeysUnique(old(ledger)) ==> KeysUnique(ledger)
      {
        BatchStep(ledger, agent, running, news[i..], total, unit);
        assert news[i..][1..] == news[i + 1..];
        var amount := AmountOf(news[i], unit);
        var after := Truncate(running + amount, unit);
        assert DepositRow(agent, 0, running, news[i], unit)
            == Row(agent, TopUp, amount, running, after, Some(KeyOf(news[i])), FromScan(0));
        var inserted := InsertRow(Row(agent, TopUp, amount, running, after, Some(KeyOf(news[i])), FromScan(0)));
        running := after;
        total := Truncate(total + amount, unit);
        i := i + 1;
      }
    }

    /**
     * One scan iteration after the chain was read.  When it credits, the order was pending, the
     * ledger grew by exactly the chained rows of the new logs and the agent by what those logs are worth.
     * The whole iteration is a run of the concurrent system.
     */
    method ProcessScan(o: nat, now: int, logs: seq<Transfer>) returns (r: ScanResult)
      requires unit >= 1 && KeysUnique(ledger) && DistinctKeys(logs)
      modifies this
      ensures r.Skipped? <==>
              !(o in old(orders) && old(orders)[o].status.Pending?
                && now - old(orders)[o].createdAt <= TOPUP_SCAN_TTL_MS)
      ensures r.Skipped? || r.NothingNew? ==> orders == old(orders)
      ensures !r.Skipped? ==> (r.NothingNew? <==> NewLogs(old(ledger), logs) == [])
      ensures r.NoAgent? ==> old(orders)[o].agent !in old(balances)
      ensures r.NoAgent? || r.Deposited? ==> orders == Transition(old(orders), o, Confirmed)
      ensures !r.Deposited? ==> ledger == old(ledger) && balances == old(balances)
      ensures r.Deposited? ==>
                var agent, news := old(orders)[o].agent, NewLogs(old(ledger), logs);
                && agent in old(balances) && news != []
                && r.total == Total(news, unit) && IsWorth(r.total, RawTotal(news), unit)
                && ledger == old(ledger) + DepositRows(agent, 0, old(balances)[agent], news, unit)
                && balances == old(balances)[agent := old(balances)[agent] + r.total]
      ensures KeysUnique(ledger)
      ensures IsRun(old(View()), View())
    {
      ghost var s0 := View();
      if o !in orders || !orders[o].status.Pending? || now - orders[o].createdAt > TOPUP_SCAN_TTL_MS {
        NoRun(s0);
        return Skipped;
      }
      var news := FilterNew(logs);
      NewLogsAreNew(ledger, logs);
      if news == [] {
        NoRun(s0);
        return NothingNew;
      }
      var agent := orders[o].agent;
      var confirmed := ConfirmOrder(o);
      if agent !in balances {
        ScanWithoutAgent(s0, o, now, logs);
        return NoAgent;
      }
      var before := balances[agent];
      var total := RecordBatch(agent, before, news);
      CreditBalance(agent, total);
      ghost var es := ScanAlone(s0, o, now, logs);
      assert SameTables(Run(s0, es), View());
      return Deposited(total);
    }
  }

  /** The steps of one scan that nothing interleaves with, up to reading the agent. */
  function Opening(o: nat, now: int, logs: seq<Transfer>): seq<Event> {
    [StartScan(o, now), Fetch(0, logs), Filter(0), Confirm(0), ReadAgent(0)]
  }

  ghost predicate Scannable(s: State, o: nat, now: int, logs: seq<Transfer>) {
    && s.unit >= 1 && s.jobs == [] && DistinctKeys(logs) && NewLogs(s.ledger, logs) != []
    && o in s.orders && s.orders[o].status.Pending? && now - s.orders[o].createdAt <= TOPUP_SCAN_TTL_MS
  }

  lemma FetchRun(s: State, o: nat, now: int, logs: seq<Transfer>)
    requires Scannable(s, o, now, logs)
    ensures Run(s, [StartScan(o, now), Fetch(0, logs)]) == s.(jobs := [Fetched(o, logs)])
  {
    var s1 := Step(s, StartScan(o, now));
    RunCons(s1, Fetch(0, logs), []);
    RunCons(s, StartScan(o, now), [Fetch(0, logs)]);
    assert [Fetch(0, logs)] + [] == [Fetch(0, logs)];
    assert [StartScan(o, now)] + [Fetch(0, logs)] == [StartScan(o, now), Fetch(0, logs)];
    assert s1.jobs == [Loaded(o)];
  }

  lemma ConfirmRun(s: State, o: nat, logs: seq<Transfer>)
    requires s.unit >= 1 && s.jobs == [Fetched(o, logs)] && NewLogs(s.ledger, logs) != []
    requires o in s.orders && s.orders[o].status.Pending?
    ensures
      var s' := Run(s, [Filter(0), Confirm(0), ReadAgent(0)]);
      var agent := s.orders[o].agent;
      var job := if agent in s.balances
                 then Writing(o, agent, NewLogs(s.ledger, logs), s.balances[agent], 0) else Done;
      s' == s.(orders := Transition(s.orders, o, Confirmed), jobs := [job])
  {
    var s1 := Step(s, Filter(0));
    var s2 := Step(s1, Confirm(0));
    assert s2.jobs == [Won(o, NewLogs(s.ledger, logs))];
    RunCons(s2, ReadAgent(0), []);
    RunCons(s1, Confirm(0), [ReadAgent(0)]);
    RunCons(s, Filter(0), [Confirm(0), ReadAgent(0)]);
    assert [ReadAgent(0)] + [] == [ReadAgent(0)] && [Confirm(0)] + [ReadAgent(0)] == [Confirm(0), ReadAgent(0)];
    assert [Filter(0)] + [Confirm(0), ReadAgent(0)] == [Filter(0), Confirm(0), ReadAgent(0)];
  }

  lemma OpeningRun(s: State, o: nat, now: int, logs: seq<Transfer>)
    requires Scannable(s, o, now, logs)
    ensures
      var s' := Run(s, Opening(o, now, logs));
      var agent := s.orders[o].agent;
      var job := if agent in s.balances
                 then Writing(o, agent, NewLogs(s.ledger, logs), s.balances[agent], 0) else Done;
      s' == s.(orders := Transition(s.orders, o, Confirmed), jobs := [job])
  {
    var first, more := [StartScan(o, now), Fetch(0, logs)], [Filter(0), Confirm(0), ReadAgent(0)];
    FetchRun(s, o, now, logs);
    ConfirmRun(s.(jobs := [Fetched(o, logs)]), o, logs);
    RunAppend(s, first, more);
    assert first + more == Opening(o, now, logs);
  }

  lemma ScanWithoutAgent(s: State, o: nat, now: int, logs: seq<Transfer>)
    requires Scannable(s, o, now, logs) && s.orders[o].agent !in s.balances
    ensures IsRun(s, s.(orders := Transition(s.orders, o, Confirmed)))
  {
    OpeningRun(s, o, now, logs);
    assert SameTables(Run(s, Opening(o, now, logs)), s.(orders := Transition(s.orders, o, Confirmed)));
  }

  lemma WriteLone(s: State, o: nat, agent: nat, rest: seq<Transfer>, running: int, total: int)
    requires s.unit >= 1 && s.jobs == [Writing(o, agent, rest, running, total)]
    requires rest != [] && KeyOf(rest[0]) !in Keys(s.ledger) && total >= 0 && total % s.unit == 0
    ensures
      var row := DepositRow(agent, 0, running, rest[0], s.unit);
      Step(s, Write(0)) ==
      s.(ledger := s.ledger + [row], jobs := [Writing(o, agent, rest[1..], row.after, total + row.amount)])
  {
    WriteOne(s, 0);
    var row := DepositRow(agent, 0, running, rest[0], s.unit);
    assert s.jobs[0 := Writing(o, agent, rest[1..], row.after, total + row.amount)]
        == [Writing(o, agent, rest[1..], row.after, total + row.amount)];
  }

  /** Writing the rest of a batch, one step per log, then crediting it. */
  lemma {:induction false} WritingRun(s: State, o: nat, agent: nat, rest: seq<Transfer>, running: int, total: int)
    returns (es: seq<Event>)
    requires s.unit >= 1 && s.jobs == [Writing(o, agent, rest, running, total)] && agent in s.balances
    requires DistinctKeys(rest) && KeysOf(rest) !! Keys(s.ledger)
    requires total >= 0 && total % s.unit == 0
    ensures Run(s, es).orders == s.orders
    ensures Run(s, es).ledger == s.ledger + DepositRows(agent, 0, running, rest, s.unit)
    ensures Run(s, es).balances == s.balances[agent := s.balances[agent] + (total + Total(rest, s.unit))]
    decreases |rest|
  {
    if rest == [] {
      es := [CreditTotal(0)];
      RunCons(s, CreditTotal(0), []);
      assert [CreditTotal(0)] + [] == es;
    } else {
      BatchStep(s.ledger, agent, running, rest, total, s.unit);
      WriteLone(s, o, agent, rest, running, total);
      var row := DepositRow(agent, 0, running, rest[0], s.unit);
      var more := WritingRun(Step(s, Write(0)), o, agent, rest[1..], row.after, total + row.amount);
      es := [Write(0)] + more;
      RunCons(s, Write(0), more);
    }
  }

  /** A scan that runs alone ends where its steps in the concurrent system end. */
  lemma ScanAlone(s: State, o: nat, now: int, logs: seq<Transfer>) returns (es: seq<Event>)
    requires Scannable(s, o, now, logs) && s.orders[o].agent in s.balances
    ensures Run(s, es).orders == Transition(s.orders, o, Confirmed)
    ensures Run(s, es).ledger == s.ledger +
            DepositRows(s.orders[o].agent, 0, s.balances[s.orders[o].agent], NewLogs(s.ledger, logs), s.unit)
    ensures Run(s, es).balances == s.balances[s.orders[o].agent :=
            s.balances[s.orders[o].agent] + Total(NewLogs(s.ledger, logs), s.unit)]
  {
    OpeningRun(s, o, now, logs);
    NewLogsAreNew(s.ledger, logs);
    MultipleHasNoRemainder(0, s.unit);
    var agent, news := s.orders[o].agent, NewLogs(s.ledger, logs);
    var opening := Opening(o, now, logs);
    var more := WritingRun(Run(s, opening), o, agent, news, s.balances[agent], 0);
    RunAppend(s, opening, more);
    es := opening + more;
  }
}
