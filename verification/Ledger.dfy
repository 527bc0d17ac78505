/**
 * The pay-agent ledger: append-only rows, looked up by transaction key, and the chain of running
 * balances a confirmed deposit writes.  Amounts are integers in base units (see `Decimals`).
 */
module Ledger {
  import opened Prelude
  import opened Decimals

  /** `LogKey` is the composite "hash:index"; `TxKey` is the bare hash older rows carry. */
  datatype Key = LogKey(tx: string, index: nat) | TxKey(hash: string)

  datatype Kind = TopUp | Payment | Usage

  /** Which producer wrote a row; `FromScan` names the job.  Kept for the proofs, not a column. */
  datatype Origin = FromScan(job: nat) | FromSync | Elsewhere

  datatype Row = Row(agent: nat, kind: Kind, amount: int, before: int, after: int, key: Option<Key>, origin: Origin)

  /** One Transfer event; `value` counts USDC at 6 decimals. */
  datatype Transfer = Transfer(tx: string, index: nat, value: nat)

  /** The chain counts a millionth of a USDC; `unit` base units make the 8th decimal of an amount. */
  const RAW_PER_USDC := 1_000_000

  function OneUsdc(unit: nat): int {
    100_000_000 * unit
  }

  /** An amount is as many USDC as a raw on-chain value. */
  predicate IsWorth(amount: int, raw: int, unit: nat) {
    amount * RAW_PER_USDC == raw * OneUsdc(unit)
  }

  function KeyOf(t: Transfer): Key {
    LogKey(t.tx, t.index)
  }

  /** A key names one log of one transaction, and never a bare hash. */
  lemma KeysNameLogs(t: Transfer, u: Transfer, hash: string)
    ensures KeyOf(t) == KeyOf(u) <==> t.tx == u.tx && t.index == u.index
    ensures KeyOf(t) != TxKey(hash)
  {
  }

  /** An on-chain value of 6 decimals as an amount: its last place is 100 times the 8th decimal. */
  function AmountOf(t: Transfer, unit: nat): int {
    t.value * (100 * unit)
  }

  lemma AmountIsWorth(t: Transfer, unit: nat)
    ensures IsWorth(AmountOf(t, unit), t.value, unit)
  {
    assert t.value * (100 * unit) * RAW_PER_USDC == t.value * (100 * unit * RAW_PER_USDC);
  }

  lemma AmountHasWholePlaces(t: Transfer, unit: nat)
    requires unit >= 1
    ensures AmountOf(t, unit) >= 0 && AmountOf(t, unit) % unit == 0
  {
    assert AmountOf(t, unit) == (t.value * 100) * unit;
    MultipleHasNoRemainder(t.value * 100, unit);
  }

  function Keys(ledger: seq<Row>): set<Key> {
    set i | 0 <= i < |ledger| && ledger[i].key.Some? :: ledger[i].key.value
  }

  /** The unique index on the transaction key; rows without a key are not compared. */
  ghost predicate KeysUnique(ledger: seq<Row>) {
    forall i, j :: 0 <= i < j < |ledger| && ledger[i].key.Some? ==> ledger[i].key != ledger[j].key
  }

  lemma KeysSnoc(ledger: seq<Row>, row: Row)
    ensures Keys(ledger + [row]) == Keys(ledger) + (if row.key.Some? then {row.key.value} else {})
    ensures KeysUnique(ledger + [row]) <==> KeysUnique(ledger) && (row.key.Some? ==> row.key.value !in Keys(ledger))
  {
    var more := ledger + [row];
    forall k
      ensures k in Keys(more) <==> k in Keys(ledger) || row.key == Some(k)
    {
      if k in Keys(ledger) {
        var i :| 0 <= i < |ledger| && ledger[i].key == Some(k);
        assert more[i].key == Some(k);
      }
      if row.key == Some(k) {
        assert more[|ledger|].key == Some(k);
      }
    }
    if row.key.Some? && row.key.value in Keys(ledger) {
      var i :| 0 <= i < |ledger| && ledger[i].key == row.key;
      assert more[i].key == more[|ledger|].key;
      assert !KeysUnique(more);
    }
    forall i, j | KeysUnique(more) && 0 <= i < j < |ledger| && ledger[i].key.Some?
      ensures ledger[i].key != ledger[j].key
    {
      assert more[i] == ledger[i] && more[j] == ledger[j];
    }
  }

  /** The logs that no ledger row covers yet, neither by composite key nor by bare hash. */
  function NewLogs(ledger: seq<Row>, logs: seq<Transfer>): seq<Transfer> {
    if logs == [] then []
    else
      var rest := NewLogs(ledger, logs[1..]);
      if KeyOf(logs[0]) in Keys(ledger) || TxKey(logs[0].tx) in Keys(ledger) then rest else [logs[0]] + rest
  }

  lemma {:induction false} NewLogsAreNew(ledger: seq<Row>, logs: seq<Transfer>)
    ensures forall t :: t in NewLogs(ledger, logs) <==>
              t in logs && KeyOf(t) !in Keys(ledger) && TxKey(t.tx) !in Keys(ledger)
    ensures DistinctKeys(logs) ==> DistinctKeys(NewLogs(ledger, logs))
  {
    if logs != [] {
      NewLogsAreNew(ledger, logs[1..]);
      assert DistinctKeys(logs) ==> DistinctKeys(logs[1..]);
      assert logs == [logs[0]] + logs[1..];
    }
  }

  /** The filter takes logs one by one and keeps their order. */
  lemma {:induction false} NewLogsAppend(ledger: seq<Row>, logs: seq<Transfer>, more: seq<Transfer>)
    ensures NewLogs(ledger, logs + more) == NewLogs(ledger, logs) + NewLogs(ledger, more)
  {
    if logs == [] {
      assert logs + more == more;
    } else {
      assert (logs + more)[1..] == logs[1..] + more;
      NewLogsAppend(ledger, logs[1..], more);
    }
  }

  ghost predicate DistinctKeys(logs: seq<Transfer>) {
    forall i, j :: 0 <= i < j < |logs| ==> KeyOf(logs[i]) != KeyOf(logs[j])
  }

  /** The row one deposit log becomes, given the balance the job carries along. */
  function DepositRow(agent: nat, job: nat, before: int, t: Transfer, unit: nat): Row
    requires unit >= 1
  {
    Row(agent, TopUp, AmountOf(t, unit), before, Truncate(before + AmountOf(t, unit), unit),
        Some(KeyOf(t)), FromScan(job))
  }

  /** The rows of one confirmed batch, in order, each starting from the balance the previous one left. */
  function DepositRows(agent: nat, job: nat, before: int, news: seq<Transfer>, unit: nat): seq<Row>
    requires unit >= 1
    decreases |news|
  {
    if news == [] then []
    else
      var row := DepositRow(agent, job, before, news[0], unit);
      [row] + DepositRows(agent, job, row.after, news[1..], unit)
  }

  function Total(news: seq<Transfer>, unit: nat): int {
    if news == [] then 0 else AmountOf(news[0], unit) + Total(news[1..], unit)
  }

  /** What arrived with a batch, in raw on-chain units. */
  function RawTotal(news: seq<Transfer>): int {
    Tally(news, (t: Transfer) => t.value)
  }

  /** The total credited for a batch is worth what arrived with it. */
  lemma {:induction false} TotalIsWorth(news: seq<Transfer>, unit: nat)
    ensures IsWorth(Total(news, unit), RawTotal(news), unit)
  {
    if news != [] {
      AmountIsWorth(news[0], unit);
      TotalIsWorth(news[1..], unit);
      WorthAdds(AmountOf(news[0], unit), news[0].value, Total(news[1..], unit), RawTotal(news[1..]), unit);
    }
  }

  lemma WorthAdds(amount: int, raw: int, amount': int, raw': int, unit: nat)
    requires IsWorth(amount, raw, unit) && IsWorth(amount', raw', unit)
    ensures IsWorth(amount + amount', raw + raw', unit)
  {
    assert (raw + raw') * OneUsdc(unit) == raw * OneUsdc(unit) + raw' * OneUsdc(unit);
  }

  /**
   * The rows of a batch chain: the first starts from the balance that was read, each one starts
   * where its predecessor ended, and each is a top-up worth what its log brought, in order.
   */
  lemma {:induction false} DepositRowsChain(agent: nat, job: nat, before: int, news: seq<Transfer>, unit: nat)
    requires unit >= 1
    ensures
      var rows := DepositRows(agent, job, before, news, unit);
      && |rows| == |news|
      && (rows != [] ==> rows[0].before == before)
      && (forall i :: 0 <= i < |rows| - 1 ==> rows[i].after == rows[i + 1].before)
      && (forall i :: 0 <= i < |rows| ==>
            && rows[i].kind == TopUp && rows[i].agent == agent
            && rows[i].amount == AmountOf(news[i], unit) && IsWorth(rows[i].amount, news[i].value, unit)
            && rows[i].key == Some(KeyOf(news[i])))
    decreases |news|
  {
    if news != [] {
      var row := DepositRow(agent, job, before, news[0], unit);
      AmountIsWorth(news[0], unit);
      DepositRowsChain(agent, job, row.after, news[1..], unit);
    }
  }

  /** One row adds up exactly if and only if it starts from at most 8 decimals; it always ends on them. */
  lemma DepositRowAddsUp(agent: nat, job: nat, before: int, t: Transfer, unit: nat)
    requires unit >= 1 && before >= 0
    ensures
      var row := DepositRow(agent, job, before, t, unit);
      && row.after % unit == 0 && row.after >= 0
      && (before % unit == 0 <==> row.after == before + row.amount)
      && row.after <= before + row.amount
  {
    AmountHasWholePlaces(t, unit);
    CutSum(before, AmountOf(t, unit), unit);
  }

  lemma {:induction false} WholeRowsAddUp(agent: nat, job: nat, before: int, news: seq<Transfer>, unit: nat)
    requires unit >= 1 && before >= 0 && before % unit == 0
    ensures
      var rows := DepositRows(agent, job, before, news, unit);
      && (forall i :: 0 <= i < |rows| ==> rows[i].after == rows[i].before + rows[i].amount)
      && (rows != [] ==> rows[|rows| - 1].after == before + Total(news, unit))
    decreases |news|
  {
    if news != [] {
      DepositRowAddsUp(agent, job, before, news[0], unit);
      WholeRowsAddUp(agent, job, DepositRow(agent, job, before, news[0], unit).after, news[1..], unit);
    }
  }

  /**
   * Every row of a batch adds up exactly, and the last balance is the first plus the credited total,
   * if and only if the balance that was read has at most 8 decimals.
   */
  lemma DepositRowsAddUp(agent: nat, job: nat, before: int, news: seq<Transfer>, unit: nat)
    requires unit >= 1 && news != [] && before >= 0
    ensures
      var rows := DepositRows(agent, job, before, news, unit);
      && |rows| == |news|
      && (before % unit == 0 <==> forall i :: 0 <= i < |rows| ==> rows[i].after == rows[i].before + rows[i].amount)
      && (before % unit == 0 <==> rows[|rows| - 1].after == before + Total(news, unit))
  {
    var row := DepositRow(agent, job, before, news[0], unit);
    var rest := DepositRows(agent, job, row.after, news[1..], unit);
    assert DepositRows(agent, job, before, news, unit) == [row] + rest;
    DepositRowsChain(agent, job, before, news, unit);
    DepositRowAddsUp(agent, job, before, news[0], unit);
    WholeRowsAddUp(agent, job, row.after, news[1..], unit);
    assert Total(news, unit) == row.amount + Total(news[1..], unit);
    assert ([row] + rest)[0] == row;
    assert rest == [] ==> news[1..] == [];
    assert rest == [] ==> Total(news[1..], unit) == 0;
    if before % unit == 0 {
      WholeRowsAddUp(agent, job, before, news, unit);
    }
  }
}
