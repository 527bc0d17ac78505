/**
 * The share of the platform's profit that the provider of an API key earns on each paid request.
 * Amounts count base units, `unit` of them make one millionth, the last place a share keeps.
 *
 * A usage handler first credits the provider in one atomic statement, which returns the new balance,
 * and later inserts the ledger row; handlers and withdrawals interleave in any way.
 */
module RevenueShare {
  import opened Decimals
  import opened Prelude

  // ---------------------------------------------------------------------------------------------
  // The amount.
  // ---------------------------------------------------------------------------------------------

  /** A percentage of the profit, cut off after six decimals. */
  function Share(consumerCost: int, upstreamCost: int, percent: nat, unit: nat): int
    requires unit >= 1
  {
    Truncate((consumerCost - upstreamCost) * percent, 100 * unit) / 100
  }

  /** What the handler credits; 0 stands for no credit at all. */
  function Owed(consumerCost: int, upstreamCost: int, percent: nat, unit: nat): int
    requires unit >= 1
  {
    if consumerCost - upstreamCost > 0 && Share(consumerCost, upstreamCost, percent, unit) > 0
    then Share(consumerCost, upstreamCost, percent, unit) else 0
  }

  lemma ShareOfProfit(profit: nat, percent: nat, unit: nat)
    requires unit >= 1
    ensures var s := Truncate(profit * percent, 100 * unit) / 100;
            && s >= 0 && s % unit == 0
            && 100 * s <= profit * percent < 100 * s + 100 * unit
  {
    Quotient(profit * percent, unit);
  }

  lemma Quotient(exact: nat, unit: nat)
    requires unit >= 1
    ensures var s := Truncate(exact, 100 * unit) / 100;
            s >= 0 && s % unit == 0 && 100 * s <= exact < 100 * s + 100 * unit
  {
    var cut, q := Truncate(exact, 100 * unit), exact / (100 * unit);
    TruncateBounds(exact, 100 * unit);
    HundredFold(exact, unit);
    DivisionIsUnique(cut, 100, q * unit, 0);
    MultipleHasNoRemainder(q, unit);
  }

  lemma HundredFold(exact: nat, unit: nat)
    requires unit >= 1
    ensures Truncate(exact, 100 * unit) == 100 * (exact / (100 * unit) * unit)
    ensures exact / (100 * unit) * unit >= 0
  {
  }

  lemma PercentOf(profit: nat, percent: nat)
    requires percent <= 100
    ensures profit * percent <= 100 * profit
  {
  }

  /**
   * The share has six decimals, lies below the exact share by less than one millionth, and never
   * eats into the upstream cost.  Nothing is credited exactly when the exact share is below one
   * millionth.
   */
  lemma ShareIsFair(consumerCost: nat, upstreamCost: nat, percent: nat, unit: nat)
    requires unit >= 1 && percent <= 100
    ensures var owed := Owed(consumerCost, upstreamCost, percent, unit);
            && 0 <= owed && owed % unit == 0
            && (consumerCost >= upstreamCost ==> upstreamCost + owed <= consumerCost)
            && (consumerCost > upstreamCost ==>
                  100 * owed <= (consumerCost - upstreamCost) * percent < 100 * owed + 100 * unit)
    ensures Owed(consumerCost, upstreamCost, percent, unit) == 0 <==>
            consumerCost <= upstreamCost || (consumerCost - upstreamCost) * percent < 100 * unit
  {
    if consumerCost > upstreamCost {
      ShareOfProfit(consumerCost - upstreamCost, percent, unit);
      PercentOf(consumerCost - upstreamCost, percent);
      var s := Share(consumerCost, upstreamCost, percent, unit);
      assert s > 0 ==> s >= unit by {
        if 0 < s < unit {
          DivisionIsUnique(s, unit, 0, s);
        }
      }
    } else {
      MultipleHasNoRemainder(0, unit);
    }
  }

  // ---------------------------------------------------------------------------------------------
  // The provider's balance and ledger.
  // ---------------------------------------------------------------------------------------------

  datatype Row = Row(amount: int, before: int, after: int)

  datatype Phase = Waiting | Recorded | Lost

  /**
   * A handler from its credit on: the credited share and the balance the credit returned.
   * `debited` is what had been withdrawn before the credit; no code reads it.
   */
  datatype Handler = Handler(share: int, updated: int, phase: Phase, debited: int)

  /** Handlers stand in the order of their credits, rows in the order of their inserts. */
  datatype State = State(balance: int, debited: int, handlers: seq<Handler>, rows: seq<Row>)

  datatype Event =
    | Credit(share: int)
    | Debit(amount: int)
    | Insert(h: nat)
    | Fail(h: nat)

  function RowFor(h: Handler): Row {
    Row(h.share, h.updated - h.share, h.updated)
  }

  function Step(s: State, e: Event): State {
    match e
    case Credit(share) =>
      if share <= 0 then s
      else s.(balance := s.balance + share,
              handlers := s.handlers + [Handler(share, s.balance + share, Waiting, s.debited)])
    case Debit(amount) =>
      if 0 <= amount <= s.balance then s.(balance := s.balance - amount, debited := s.debited + amount) else s
    case Insert(h) =>
      if h < |s.handlers| && s.handlers[h].phase.Waiting?
      then s.(handlers := s.handlers[h := s.handlers[h].(phase := Recorded)], rows := s.rows + [RowFor(s.handlers[h])])
      else s
    case Fail(h) =>
      if h < |s.handlers| && s.handlers[h].phase.Waiting?
      then s.(handlers := s.handlers[h := s.handlers[h].(phase := Lost)])
      else s
  }

  function Run(s: State, es: seq<Event>): State {
    if es == [] then s else Step(Run(s, es[..|es| - 1]), es[|es| - 1])
  }

  function Opening(start: int): State {
    State(start, 0, [], [])
  }

  function Shares(hs: seq<Handler>): int {
    Tally(hs, (h: Handler) => h.share)
  }

  function RowsOf(h: Handler): seq<Row> {
    if h.phase.Recorded? then [RowFor(h)] else []
  }

  /** The rows there are, put in the order of the credits. */
  function InCreditOrder(hs: seq<Handler>): seq<Row> {
    if hs == [] then [] else RowsOf(hs[0]) + InCreditOrder(hs[1..])
  }

  /** The balance a credit started from, taking withdrawals into account. */
  ghost predicate Follows(start: int, s: State, k: nat)
    requires k < |s.handlers|
  {
    var h := s.handlers[k];
    && h.share > 0
    && h.updated == start + Shares(s.handlers[..k]) + h.share - h.debited
    && 0 <= h.debited <= s.debited
    && (k > 0 ==> s.handlers[k - 1].debited <= h.debited)
  }

  ghost predicate Inv(start: int, s: State) {
    && s.balance == start + Shares(s.handlers) - s.debited
    && (start >= 0 ==> s.balance >= 0)
    && s.debited >= 0
    && (forall k: nat :: k < |s.handlers| ==> Follows(start, s, k))
    && multiset(s.rows) == multiset(InCreditOrder(s.handlers))
  }

  lemma CreditKeeps(start: int, s: State, share: int)
    requires Inv(start, s)
    ensures Inv(start, Step(s, Credit(share)))
  {
    var s' := Step(s, Credit(share));
    if share > 0 {
      var h := Handler(share, s.balance + share, Waiting, s.debited);
      TallySnoc(s.handlers, h, (h: Handler) => h.share);
      OrderSnoc(s.handlers, h);
      forall k: nat | k < |s'.handlers|
        ensures Follows(start, s', k)
      {
        assert s'.handlers[..k] == s.handlers[..k];
        if k < |s.handlers| {
          assert Follows(start, s, k);
        } else {
          assert s.handlers[..k] == s.handlers;
          if k > 0 {
            assert Follows(start, s, k - 1);
          }
        }
      }
    }
  }

  lemma DebitKeeps(start: int, s: State, amount: int)
    requires Inv(start, s)
    ensures Inv(start, Step(s, Debit(amount)))
  {
    var s' := Step(s, Debit(amount));
    forall k: nat | k < |s'.handlers|
      ensures Follows(start, s', k)
    {
      assert Follows(start, s, k);
    }
  }

  lemma StillFollows(start: int, s: State, s': State, h: nat, phase: Phase, k: nat)
    requires h < |s.handlers| && k < |s.handlers| && Follows(start, s, k)
    requires s'.handlers == s.handlers[h := s.handlers[h].(phase := phase)] && s'.debited == s.debited
    ensures Follows(start, s', k)
  {
    if h < k {
      assert s'.handlers[..k] == s.handlers[..k][h := s.handlers[..k][h].(phase := phase)];
      SharesKeep(s.handlers[..k], h, phase);
    } else {
      assert s'.handlers[..k] == s.handlers[..k];
    }
  }

  lemma SharesKeep(hs: seq<Handler>, h: nat, phase: Phase)
    requires h < |hs|
    ensures Shares(hs[h := hs[h].(phase := phase)]) == Shares(hs)
  {
    TallyUpdate(hs, h, hs[h].(phase := phase), (h: Handler) => h.share);
  }

  lemma {:induction false} OrderSnoc(hs: seq<Handler>, h: Handler)
    ensures InCreditOrder(hs + [h]) == InCreditOrder(hs) + RowsOf(h)
  {
    if hs == [] {
      assert hs + [h] == [h];
    } else {
      assert (hs + [h])[1..] == hs[1..] + [h];
      OrderSnoc(hs[1..], h);
    }
  }

  ghost function BagOf(hs: seq<Handler>): multiset<Row> {
    if hs == [] then multiset{} else multiset(RowsOf(hs[0])) + BagOf(hs[1..])
  }

  lemma {:induction false} BagIsOrder(hs: seq<Handler>)
    ensures BagOf(hs) == multiset(InCreditOrder(hs))
  {
    if hs != [] {
      BagIsOrder(hs[1..]);
    }
  }

  lemma {:induction false} BagUpdate(hs: seq<Handler>, h: nat, phase: Phase)
    requires h < |hs| && hs[h].phase.Waiting? && !phase.Waiting?
    ensures BagOf(hs[h := hs[h].(phase := phase)]) == BagOf(hs) + multiset(RowsOf(hs[h].(phase := phase)))
  {
    var hs' := hs[h := hs[h].(phase := phase)];
    if h == 0 {
      assert hs'[1..] == hs[1..];
    } else {
      assert hs'[1..] == hs[1..][h - 1 := hs[1..][h - 1].(phase := phase)];
      BagUpdate(hs[1..], h - 1, phase);
    }
  }

  /** Recording one more waiting handler adds its row, wherever in the order it stands. */
  lemma OrderUpdate(hs: seq<Handler>, h: nat, phase: Phase)
    requires h < |hs| && hs[h].phase.Waiting? && !phase.Waiting?
    ensures multiset(InCreditOrder(hs[h := hs[h].(phase := phase)])) ==
            multiset(InCreditOrder(hs)) + multiset(RowsOf(hs[h].(phase := phase)))
  {
    BagUpdate(hs, h, phase);
    BagIsOrder(hs);
    BagIsOrder(hs[h := hs[h].(phase := phase)]);
  }

  /** One handler leaves `Waiting`: its row, if that makes one, is the one row added. */
  lemma PhaseKeeps(start: int, s: State, h: nat, phase: Phase)
    requires Inv(start, s) && h < |s.handlers| && s.handlers[h].phase.Waiting? && !phase.Waiting?
    ensures Inv(start, s.(handlers := s.handlers[h := s.handlers[h].(phase := phase)],
                          rows := s.rows + RowsOf(s.handlers[h].(phase := phase))))
  {
    var s' := s.(handlers := s.handlers[h := s.handlers[h].(phase := phase)],
                 rows := s.rows + RowsOf(s.handlers[h].(phase := phase)));
    OrderUpdate(s.handlers, h, phase);
    SharesKeep(s.handlers, h, phase);
    forall k: nat | k < |s'.handlers|
      ensures Follows(start, s', k)
    {
      StillFollows(start, s, s', h, phase, k);
    }
  }

  lemma InsertKeeps(start: int, s: State, h: nat)
    requires Inv(start, s)
    ensures Inv(start, Step(s, Insert(h)))
  {
    if h < |s.handlers| && s.handlers[h].phase.Waiting? {
      PhaseKeeps(start, s, h, Recorded);
    }
  }

  lemma FailKeeps(start: int, s: State, h: nat)
    requires Inv(start, s)
    ensures Inv(start, Step(s, Fail(h)))
  {
    if h < |s.handlers| && s.handlers[h].phase.Waiting? {
      PhaseKeeps(start, s, h, Lost);
      assert s.rows + [] == s.rows;
    }
  }

  lemma StepKeeps(start: int, s: State, e: Event)
    requires Inv(start, s)
    ensures Inv(start, Step(s, e))
  {
    match e
    case Credit(share) => CreditKeeps(start, s, share);
    case Debit(amount) => DebitKeeps(start, s, amount);
    case Insert(h) => InsertKeeps(start, s, h);
    case Fail(h) => FailKeeps(start, s, h);
  }

  lemma {:induction false} RunKeeps(start: int, es: seq<Event>)
    ensures Inv(start, Run(Opening(start), es))
    decreases |es|
  {
    if es != [] {
      RunKeeps(start, es[..|es| - 1]);
      StepKeeps(start, Run(Opening(start), es[..|es| - 1]), es[|es| - 1]);
    }
  }

  // ---------------------------------------------------------------------------------------------
  // Main results, over every interleaving.
  // ---------------------------------------------------------------------------------------------

  /** Shares credited by handlers whose row is not in the table. */
  function Missing(hs: seq<Handler>): int {
    Tally(hs, (h: Handler) => if h.phase.Recorded? then 0 else h.share)
  }

  function Amounts(rows: seq<Row>): int {
    Tally(rows, (r: Row) => r.amount)
  }

  /** The balance is never negative, and rows plus missing rows account for every unit of it. */
  lemma NothingIsCreated(start: nat, es: seq<Event>)
    ensures var s := Run(Opening(start), es);
            && s.balance >= 0
            && s.balance == start + Amounts(s.rows) + Missing(s.handlers) - s.debited
  {
    RunKeeps(start, es);
    BalanceIsAccountedFor(start, es);
  }

  lemma BalanceIsAccountedFor(start: int, es: seq<Event>)
    ensures var s := Run(Opening(start), es);
            s.balance == start + Amounts(s.rows) + Missing(s.handlers) - s.debited
  {
    var s := Run(Opening(start), es);
    RunKeeps(start, es);
    RecordedPlusMissing(s.handlers);
    SameBagSameSum(s.rows, InCreditOrder(s.handlers));
  }

  lemma {:induction false} RecordedPlusMissing(hs: seq<Handler>)
    ensures Amounts(InCreditOrder(hs)) + Missing(hs) == Shares(hs)
  {
    if hs != [] {
      RecordedPlusMissing(hs[1..]);
      var rest := InCreditOrder(hs[1..]);
      assert [] + rest == rest;
      TallyAppend([RowFor(hs[0])], rest, (r: Row) => r.amount);
      assert Amounts([RowFor(hs[0])]) == hs[0].share;
    }
  }

  lemma {:induction false} SameBagSameSum(xs: seq<Row>, ys: seq<Row>)
    requires multiset(xs) == multiset(ys)
    ensures Amounts(xs) == Amounts(ys)
  {
    if xs == [] {
      assert |multiset(ys)| == |ys|;
    } else {
      assert xs == [xs[0]] + xs[1..];
      assert xs[0] in multiset(ys);
      var i :| 0 <= i < |ys| && ys[i] == xs[0];
      WithoutOne(ys, i);
      SameBagSameSum(xs[1..], ys[..i] + ys[i + 1..]);
    }
  }

  lemma WithoutOne(ys: seq<Row>, i: nat)
    requires i < |ys|
    ensures multiset(ys[..i] + ys[i + 1..]) == multiset(ys) - multiset{ys[i]}
    ensures Amounts(ys) == ys[i].amount + Amounts(ys[..i] + ys[i + 1..])
  {
    var f := (r: Row) => r.amount;
    assert ys == ys[..i] + ys[i..] && ys[i..] == [ys[i]] + ys[i + 1..];
    TallyAppend(ys[..i], ys[i..], f);
    TallyAppend(ys[..i], ys[i + 1..], f);
  }

  /**
   * The table holds exactly the rows of the recorded handlers.  In credit order each row starts where
   * the row before it ended, less what was withdrawn in between: without a gap exactly if nothing was.
   */
  lemma RowsFollowTheCredits(start: int, es: seq<Event>, k: nat)
    requires k + 1 < |Run(Opening(start), es).handlers|
    ensures var s := Run(Opening(start), es);
            var row, next := RowFor(s.handlers[k]), RowFor(s.handlers[k + 1]);
            var withdrawn := s.handlers[k + 1].debited - s.handlers[k].debited;
            && multiset(s.rows) == multiset(InCreditOrder(s.handlers))
            && withdrawn >= 0 && next.before == row.after - withdrawn
            && (next.before == row.after <==> withdrawn == 0)
  {
    var s := Run(Opening(start), es);
    RunKeeps(start, es);
    assert Follows(start, s, k) && Follows(start, s, k + 1);
    SharesUpTo(s.handlers, k);
  }

  lemma SharesUpTo(hs: seq<Handler>, k: nat)
    requires k < |hs|
    ensures Shares(hs[..k + 1]) == Shares(hs[..k]) + hs[k].share
  {
    assert hs[..k + 1] == hs[..k] + [hs[k]];
    TallySnoc(hs[..k], hs[k], (h: Handler) => h.share);
  }

  ghost predicate AllRecorded(s: State) {
    forall h :: 0 <= h < |s.handlers| ==> s.handlers[h].phase.Recorded?
  }

  /** Without withdrawals each handler starts from what was credited before it. */
  ghost predicate CreditsOnly(start: int, hs: seq<Handler>) {
    forall k :: 0 <= k < |hs| ==> hs[k].share > 0 && hs[k].updated == start + Shares(hs[..k]) + hs[k].share
  }

  lemma NoWithdrawals(start: int, s: State)
    requires Inv(start, s) && s.debited == 0
    ensures CreditsOnly(start, s.handlers)
  {
    forall k: nat | k < |s.handlers|
      ensures s.handlers[k].share > 0
      ensures s.handlers[k].updated == start + Shares(s.handlers[..k]) + s.handlers[k].share
    {
      assert Follows(start, s, k);
    }
  }

  /** Rows lead from one balance to another, each by its own positive amount. */
  predicate Chain(rows: seq<Row>, from: int, final: int) {
    if rows == [] then from == final
    else
      && rows[0].before == from && rows[0].amount > 0 && rows[0].after == from + rows[0].amount
      && Chain(rows[1..], rows[0].after, final)
  }

  lemma {:induction false} HandlersChain(start: int, hs: seq<Handler>)
    requires CreditsOnly(start, hs) && forall k :: 0 <= k < |hs| ==> hs[k].phase.Recorded?
    ensures |InCreditOrder(hs)| == |hs|
    ensures Chain(InCreditOrder(hs), start, start + Shares(hs))
    decreases |hs|
  {
    if hs != [] {
      assert hs[..0] == [];
      forall k | 0 <= k < |hs| - 1
        ensures hs[1..][k].phase.Recorded? && hs[1..][k].share > 0
        ensures hs[1..][k].updated == hs[0].updated + Shares(hs[1..][..k]) + hs[1..][k].share
      {
        assert hs[..k + 1][1..] == hs[1..][..k] && hs[1..][k] == hs[k + 1];
      }
      HandlersChain(hs[0].updated, hs[1..]);
      assert InCreditOrder(hs) == [RowFor(hs[0])] + InCreditOrder(hs[1..]);
    }
  }

  lemma {:induction false} NoneMissing(hs: seq<Handler>)
    requires forall h :: 0 <= h < |hs| ==> hs[h].phase.Recorded?
    ensures Missing(hs) == 0
  {
    if hs != [] {
      NoneMissing(hs[1..]);
    }
  }

  lemma ChainFromInv(start: int, s: State)
    requires Inv(start, s) && s.debited == 0 && AllRecorded(s)
    ensures Chain(InCreditOrder(s.handlers), start, s.balance)
    ensures |InCreditOrder(s.handlers)| == |s.handlers|
  {
    NoWithdrawals(start, s);
    HandlersChain(start, s.handlers);
  }

  /**
   * When every balance change is a share credit and every handler has inserted its row, the rows in
   * credit order run from the opening to the final balance without a gap, strictly upward, so sorting
   * by the balance after them recovers that order; their amounts add up to the change.
   */
  lemma CreditsChain(start: int, es: seq<Event>)
    requires Run(Opening(start), es).debited == 0 && AllRecorded(Run(Opening(start), es))
    ensures var s := Run(Opening(start), es);
            var ordered := InCreditOrder(s.handlers);
            && multiset(s.rows) == multiset(ordered) && |ordered| == |s.handlers|
            && Chain(ordered, start, s.balance)
            && Amounts(s.rows) == s.balance - start
  {
    var s := Run(Opening(start), es);
    RunKeeps(start, es);
    ChainFromInv(start, s);
    BalanceIsAccountedFor(start, es);
    NoneMissing(s.handlers);
  }

  // ---------------------------------------------------------------------------------------------
  // The rows as stored.
  // ---------------------------------------------------------------------------------------------

  /** Which handlers, counted in the order of their credits, inserted a row, in the order of the inserts. */
  function Inserted(s: State, es: seq<Event>): seq<nat> {
    if es == [] then []
    else
      var before, rest := Run(s, es[..|es| - 1]), Inserted(s, es[..|es| - 1]);
      match es[|es| - 1]
      case Insert(h) => if h < |before.handlers| && before.handlers[h].phase.Waiting? then rest + [h] else rest
      case _ => rest
  }

  /** The rows are those of the given handlers, in that order. */
  ghost predicate RowsComeFrom(s: State, ins: seq<nat>) {
    && |ins| == |s.rows|
    && forall k :: 0 <= k < |ins| ==>
         && ins[k] < |s.handlers| && s.handlers[ins[k]].phase.Recorded?
         && s.rows[k] == RowFor(s.handlers[ins[k]])
  }

  lemma {:induction false} StoredInInsertOrder(s: State, es: seq<Event>)
    requires s.rows == []
    ensures RowsComeFrom(Run(s, es), Inserted(s, es))
    decreases |es|
  {
    if es != [] {
      StoredInInsertOrder(s, es[..|es| - 1]);
    }
  }

  /** Each credited handler inserted its row, in the order of the credits. */
  predicate InsertedInCreditOrder(s: State, ins: seq<nat>) {
    |ins| == |s.handlers| && forall k :: 0 <= k < |ins| ==> ins[k] == k
  }

  lemma {:induction false} ChainAddsUp(rows: seq<Row>, from: int, final: int)
    requires Chain(rows, from, final)
    ensures Amounts(rows) == final - from
  {
    if rows != [] {
      ChainAddsUp(rows[1..], rows[0].after, final);
    }
  }

  lemma {:induction false} ChainReaches(rows: seq<Row>, from: int, final: int, k: nat)
    requires Chain(rows, from, final) && k < |rows|
    ensures rows[k].before == from + Amounts(rows[..k])
  {
    if k > 0 {
      ChainReaches(rows[1..], rows[0].after, final, k - 1);
      assert rows[..k][1..] == rows[1..][..k - 1];
    }
  }

  lemma {:induction false} NothingMissing(hs: seq<Handler>)
    requires Missing(hs) == 0 && forall k :: 0 <= k < |hs| ==> hs[k].share > 0
    ensures forall k :: 0 <= k < |hs| ==> hs[k].phase.Recorded?
  {
    if hs != [] {
      MissingIsNatural(hs[1..]);
      NothingMissing(hs[1..]);
    }
  }

  lemma {:induction false} MissingIsNatural(hs: seq<Handler>)
    requires forall k :: 0 <= k < |hs| ==> hs[k].share > 0
    ensures Missing(hs) >= 0
  {
    if hs != [] {
      MissingIsNatural(hs[1..]);
    }
  }

  /** Each credit raises the sum, so a handler is found by what was credited before it. */
  lemma {:induction false} SharesGrow(hs: seq<Handler>, i: nat, j: nat)
    requires i < j <= |hs| && forall k :: 0 <= k < |hs| ==> hs[k].share > 0
    ensures Shares(hs[..i]) < Shares(hs[..j])
    decreases j
  {
    SharesUpTo(hs, j - 1);
    if i < j - 1 {
      SharesGrow(hs, i, j - 1);
    }
  }

  lemma {:induction false} AmountsOfHandlers(s: State, ins: seq<nat>, k: nat)
    requires RowsComeFrom(s, ins) && k <= |ins| && k <= |s.handlers| && forall i :: 0 <= i < k ==> ins[i] == i
    ensures Amounts(s.rows[..k]) == Shares(s.handlers[..k])
  {
    if k > 0 {
      AmountsOfHandlers(s, ins, k - 1);
      assert s.rows[..k] == s.rows[..k - 1] + [s.rows[k - 1]];
      TallySnoc(s.rows[..k - 1], s.rows[k - 1], (r: Row) => r.amount);
      SharesUpTo(s.handlers, k - 1);
    }
  }

  /** In a chain the row at a position belongs to the handler at that position. */
  lemma {:induction false} ChainFollowsCredits(start: int, s: State, ins: seq<nat>, k: nat)
    requires CreditsOnly(start, s.handlers) && RowsComeFrom(s, ins) && Chain(s.rows, start, s.balance)
    requires k <= |ins| && |ins| == |s.handlers|
    ensures forall i :: 0 <= i < k ==> ins[i] == i
  {
    if k > 0 {
      ChainFollowsCredits(start, s, ins, k - 1);
      AmountsOfHandlers(s, ins, k - 1);
      ChainReaches(s.rows, start, s.balance, k - 1);
      var h := ins[k - 1];
      assert s.rows[k - 1].before == start + Shares(s.handlers[..h]);
      if h < k - 1 {
        SharesGrow(s.handlers, h, k - 1);
      } else if h > k - 1 {
        SharesGrow(s.handlers, k - 1, h);
      }
    }
  }

  lemma {:induction false} OrderOfRecorded(hs: seq<Handler>)
    requires forall k :: 0 <= k < |hs| ==> hs[k].phase.Recorded?
    ensures |InCreditOrder(hs)| == |hs|
    ensures forall k :: 0 <= k < |hs| ==> InCreditOrder(hs)[k] == RowFor(hs[k])
  {
    if hs != [] {
      OrderOfRecorded(hs[1..]);
      assert InCreditOrder(hs) == [RowFor(hs[0])] + InCreditOrder(hs[1..]);
    }
  }

  /** A chain leaves no handler out and takes them in the order of their credits. */
  lemma ChainIsInOrder(start: int, s: State, ins: seq<nat>)
    requires Inv(start, s) && s.debited == 0 && RowsComeFrom(s, ins)
    requires s.balance == start + Amounts(s.rows) + Missing(s.handlers)
    requires Chain(s.rows, start, s.balance)
    ensures InsertedInCreditOrder(s, ins)
  {
    NoWithdrawals(start, s);
    ChainAddsUp(s.rows, start, s.balance);
    NothingMissing(s.handlers);
    OrderOfRecorded(s.handlers);
    assert |multiset(s.rows)| == |s.rows| && |multiset(InCreditOrder(s.handlers))| == |s.handlers|;
    ChainFollowsCredits(start, s, ins, |ins|);
  }

  lemma InOrderIsCreditOrder(s: State, ins: seq<nat>)
    requires RowsComeFrom(s, ins) && InsertedInCreditOrder(s, ins)
    ensures AllRecorded(s) && s.rows == InCreditOrder(s.handlers)
  {
    assert forall k :: 0 <= k < |s.handlers| ==> ins[k] == k && s.handlers[k].phase.Recorded?;
    OrderOfRecorded(s.handlers);
  }

  /**
   * When every balance change is a share credit, the rows as stored lead from the opening to the final
   * balance without a gap exactly if each handler inserted its row, in the order of the credits.
   */
  lemma StoredRowsChainExactlyInOrder(start: int, es: seq<Event>)
    requires Run(Opening(start), es).debited == 0
    ensures var s := Run(Opening(start), es);
            && (Chain(s.rows, start, s.balance) <==> InsertedInCreditOrder(s, Inserted(Opening(start), es)))
            && (Chain(s.rows, start, s.balance) <==> AllRecorded(s) && s.rows == InCreditOrder(s.handlers))
  {
    var s, ins := Run(Opening(start), es), Inserted(Opening(start), es);
    RunKeeps(start, es);
    StoredInInsertOrder(Opening(start), es);
    BalanceIsAccountedFor(start, es);
    if Chain(s.rows, start, s.balance) {
      ChainIsInOrder(start, s, ins);
    }
    if InsertedInCreditOrder(s, ins) {
      InOrderIsCreditOrder(s, ins);
    }
    if AllRecorded(s) {
      ChainFromInv(start, s);
    }
  }

  /** The order of inserts is not the order of credits: two handlers can leave rows that do not chain as stored. */
  lemma StoredOrderMayNotChain(start: int, x: int, y: int)
    requires x > 0 && y > 0
    ensures var s := Run(Opening(start), [Credit(x), Credit(y), Insert(1), Insert(0)]);
            && AllRecorded(s) && |s.rows| == 2 && !Chain(s.rows, start, s.balance)
            && s.rows[0].before == s.rows[1].after && s.rows[0].after != s.rows[1].before
  {
    var es := [Credit(x), Credit(y), Insert(1), Insert(0)];
    assert es[..3] == [Credit(x), Credit(y), Insert(1)];
    assert es[..3][..2] == [Credit(x), Credit(y)] && [Credit(x), Credit(y)][..1] == [Credit(x)];
    assert [Credit(x)][..0] == [];
    assert Run(Opening(start), []) == Opening(start);
    var s1 := Run(Opening(start), [Credit(x)]);
    assert s1 == Step(Opening(start), Credit(x));
    var s2 := Run(Opening(start), [Credit(x), Credit(y)]);
    assert s2 == Step(s1, Credit(y));
    var s3 := Run(Opening(start), es[..3]);
    assert s3 == Step(s2, Insert(1));
  }

  /** A handler whose insert failed has no row afterwards, whatever comes: its share stays missing. */
  lemma {:induction false} FailedInsertStaysMissing(s: State, es: seq<Event>, h: nat)
    requires h < |s.handlers| && s.handlers[h].phase.Waiting?
    ensures
      var s' := Run(Step(s, Fail(h)), es);
      && h < |s'.handlers| && s'.handlers[h] == s.handlers[h].(phase := Lost)
      && s.rows <= s'.rows
      && (es == [] ==> s'.rows == s.rows && s'.balance == s.balance)
    decreases |es|
  {
    if es != [] {
      FailedInsertStaysMissing(s, es[..|es| - 1], h);
    }
  }

  // ---------------------------------------------------------------------------------------------
  // The provider row and its statements.
  // ---------------------------------------------------------------------------------------------

  class Provider {
    const unit: nat
    var active: bool
    var revenueSharePercent: nat
    var balance: int
    var rows: seq<Row>
    ghost var debited: int
    ghost var handlers: seq<Handler>

    ghost function View(): State
      reads this
    {
      State(balance, debited, handlers, rows)
    }

    constructor (unit: nat, percent: nat, start: int)
      ensures this.unit == unit && active && revenueSharePercent == percent && View() == Opening(start)
    {
      this.unit, active, revenueSharePercent, balance, rows := unit, true, percent, start, [];
      debited, handlers := 0, [];
    }

    method CreditBalance(amount: int) returns (updated: int)
      requires amount > 0
      modifies this`balance, this`handlers
      ensures View() == Step(old(View()), Credit(amount))
      ensures updated == balance && handlers == old(handlers) + [Handler(amount, updated, Waiting, debited)]
    {
      balance := balance + amount;
      handlers := handlers + [Handler(amount, balance, Waiting, debited)];
      return balance;
    }

    /** Fails, changing nothing, when the balance is too small. */
    method DebitBalance(amount: nat) returns (updated: Option<int>)
      modifies this`balance, this`debited
      ensures View() == Step(old(View()), Debit(amount))
      ensures updated == if amount <= old(balance) then Some(balance) else None
    {
      if balance >= amount {
        balance := balance - amount;
        debited := debited + amount;
        updated := Some(balance);
      } else {
        updated := None;
      }
    }

    method InsertRow(row: Row, ghost h: nat)
      requires h < |handlers| && handlers[h].phase.Waiting? && row == RowFor(handlers[h])
      modifies this`rows, this`handlers
      ensures View() == Step(old(View()), Insert(h))
    {
      rows := rows + [row];
      handlers := handlers[h := handlers[h].(phase := Recorded)];
    }

    /** One usage handler with nothing in between: credit, then the row computed back from the new balance. */
    method RecordShare(consumerCost: int, upstreamCost: int) returns (share: int)
      requires unit >= 1
      modifies this`balance, this`rows, this`handlers
      ensures share == if active then Owed(consumerCost, upstreamCost, revenueSharePercent, unit) else 0
      ensures share == 0 ==> View() == old(View())
      ensures share != 0 ==>
                && View() == Run(old(View()), [Credit(share), Insert(|old(handlers)|)])
                && rows == old(rows) + [Row(share, old(balance), old(balance) + share)]
    {
      share := 0;
      if active {
        var profit := consumerCost - upstreamCost;
        if profit > 0 {
          var cut := Truncate(profit * revenueSharePercent, 100 * unit) / 100;
          if cut > 0 {
            share := cut;
            ghost var s0 := View();
            var updated := CreditBalance(share);
            InsertRow(Row(share, updated - share, updated), |s0.handlers|);
            TwoSteps(s0, Credit(share), Insert(|s0.handlers|));
          }
        }
      }
    }
  }

  lemma TwoSteps(s: State, e: Event, f: Event)
    ensures Run(s, [e, f]) == Step(Step(s, e), f)
  {
    assert [e, f][..1] == [e] && [e][..0] == [];
    assert Run(s, [e]) == Step(Run(s, []), e);
  }
}
