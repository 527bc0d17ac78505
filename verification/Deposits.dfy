/**
 * Deposit scanning as a concurrent system.  Scan jobs, sync jobs, expiry, rejection and balance
 * movements act on shared tables; each step is one statement (one atomic table operation) of one
 * job, and a run is any interleaving.
 */
module Deposits {
  import opened Prelude
  import opened Decimals
  import opened Ledger

  const TOPUP_SCAN_TTL_MS := 3_600_000 // one hour

  datatype Status = Pending | Confirmed | Rejected | Expired

  datatype Order = Order(status: Status, agent: nat, createdAt: int, crypto: bool)

  /** One log as a sync records it: received or sent. */
  datatype SyncItem = SyncItem(kind: Kind, log: Transfer)

  datatype Job =
    | Loaded(order: nat)                                   // order was pending and young enough
    | Fetched(order: nat, logs: seq<Transfer>)
    | Filtered(order: nat, news: seq<Transfer>)            // dedup lookup found these to be new
    | Won(order: nat, news: seq<Transfer>)                 // this job's compare-and-set confirmed the order
    | Writing(order: nat, agent: nat, rest: seq<Transfer>, running: int, total: int)
    | Syncing(agent: nat, items: seq<SyncItem>, snapshot: int)
    | Checked(agent: nat, item: SyncItem, items: seq<SyncItem>, snapshot: int)
    | Done
    | Aborted(order: nat, agent: nat, total: int)          // an INSERT hit the unique index and threw
    | SyncAborted

  datatype Credit = Credit(order: nat, agent: nat, amount: int)

  datatype Move = Move(agent: nat, amount: int)

  datatype State = State(
    unit: nat,                     // base units in the 8th decimal
    orders: map<nat, Order>,
    ledger: seq<Row>,
    balances: map<nat, int>,
    jobs: seq<Job>,
    credits: seq<Credit>,          // credits made by scan jobs, in order
    moves: seq<Move>)              // every other successful balance change, in order

  datatype Event =
    | StartScan(order: nat, now: int)
    | Fetch(job: nat, logs: seq<Transfer>)
    | Filter(job: nat)
    | Confirm(job: nat)
    | ReadAgent(job: nat)
    | Write(job: nat)
    | CreditTotal(job: nat)
    | StartSync(agent: nat, items: seq<SyncItem>)
    | Lookup(job: nat)
    | Insert(job: nat)
    | ConfirmByHand(order: nat)
    | Reject(order: nat)
    | ExpireOlder(cutoff: int)
    | Debit(agent: nat, amount: nat)
    | DebitAll(agent: nat)
    | CreditElsewhere(agent: nat, amount: nat)

  /** The compare-and-set every transition of an order goes through. */
  function Transition(orders: map<nat, Order>, o: nat, to: Status): map<nat, Order> {
    if o in orders && orders[o].status.Pending? then orders[o := orders[o].(status := to)] else orders
  }

  /** One UPDATE that expires all pending crypto orders created before the cutoff. */
  function ExpirePending(orders: map<nat, Order>, cutoff: int): map<nat, Order> {
    map o | o in orders ::
      if orders[o].status.Pending? && orders[o].crypto && orders[o].createdAt < cutoff
      then orders[o].(status := Expired) else orders[o]
  }

  /** A debit succeeds exactly when the funds are there. */
  function Debited(balances: map<nat, int>, a: nat, amount: int): map<nat, int> {
    if a in balances && balances[a] >= amount then balances[a := balances[a] - amount] else balances
  }

  function Credited(balances: map<nat, int>, a: nat, amount: int): map<nat, int> {
    if a in balances then balances[a := balances[a] + amount] else balances
  }

  function At(s: State, j: nat): Job {
    if j < |s.jobs| then s.jobs[j] else Done
  }

  function Put(s: State, j: nat, job: Job): State {
    if j < |s.jobs| then s.(jobs := s.jobs[j := job]) else s
  }

  /** One atomic step; an event that is not enabled changes nothing. */
  ghost function Step(s: State, e: Event): State
    requires s.unit >= 1
    ensures Step(s, e).unit == s.unit
  {
    match e
    case StartScan(o, now) =>
      if o in s.orders && s.orders[o].status.Pending? && now - s.orders[o].createdAt <= TOPUP_SCAN_TTL_MS
      then s.(jobs := s.jobs + [Loaded(o)]) else s
    case Fetch(j, logs) =>
      // a chain reports each log position once
      if At(s, j).Loaded? && DistinctKeys(logs) then Put(s, j, Fetched(At(s, j).order, logs)) else s
    case Filter(j) =>
      if !At(s, j).Fetched? then s else
      var news := NewLogs(s.ledger, At(s, j).logs);
      Put(s, j, if news == [] then Done else Filtered(At(s, j).order, news))
    case Confirm(j) =>
      if !At(s, j).Filtered? then s else
      var Filtered(o, news) := At(s, j);
      if o in s.orders && s.orders[o].status.Pending?
      then Put(s, j, Won(o, news)).(orders := Transition(s.orders, o, Confirmed))
      else Put(s, j, Done)
    case ReadAgent(j) =>
      if !At(s, j).Won? then s else
      var Won(o, news) := At(s, j);
      if o in s.orders && s.orders[o].agent in s.balances
      then Put(s, j, Writing(o, s.orders[o].agent, news, s.balances[s.orders[o].agent], 0))
      else Put(s, j, Done)
    case Write(j) =>
      if !At(s, j).Writing? || At(s, j).rest == [] then s else
      var Writing(o, a, rest, running, total) := At(s, j);
      var row := DepositRow(a, j, running, rest[0], s.unit);
      if KeyOf(rest[0]) in Keys(s.ledger) then Put(s, j, Aborted(o, a, total))
      else
        Put(s, j, Writing(o, a, rest[1..], row.after, Truncate(total + row.amount, s.unit))).(
          ledger := s.ledger + [row])
    case CreditTotal(j) =>
      if !At(s, j).Writing? || At(s, j).rest != [] then s else
      var Writing(o, a, rest, running, total) := At(s, j);
      Put(s, j, Done).(balances := Credited(s.balances, a, total), credits := s.credits + [Credit(o, a, total)])
    case StartSync(a, items) =>
      if a in s.balances then s.(jobs := s.jobs + [Syncing(a, items, s.balances[a])]) else s
    case Lookup(j) =>
      if !At(s, j).Syncing? then s else
      var Syncing(a, items, snapshot) := At(s, j);
      if items == [] then Put(s, j, Done)
      else if KeyOf(items[0].log) in Keys(s.ledger) then Put(s, j, Syncing(a, items[1..], snapshot))
      else Put(s, j, Checked(a, items[0], items[1..], snapshot))
    case Insert(j) =>
      if !At(s, j).Checked? then s else
      var Checked(a, item, items, snapshot) := At(s, j);
      if KeyOf(item.log) in Keys(s.ledger) then Put(s, j, SyncAborted)
      else
        var row := Row(a, item.kind, AmountOf(item.log, s.unit), snapshot, snapshot, Some(KeyOf(item.log)), FromSync);
        Put(s, j, Syncing(a, items, snapshot)).(ledger := s.ledger + [row])
    case ConfirmByHand(o) => s.(orders := Transition(s.orders, o, Confirmed))
    case Reject(o) => s.(orders := Transition(s.orders, o, Rejected))
    case ExpireOlder(cutoff) => s.(orders := ExpirePending(s.orders, cutoff))
    case Debit(a, amount) =>
      if a in s.balances && s.balances[a] >= amount
      then s.(balances := Debited(s.balances, a, amount), moves := s.moves + [Move(a, 0 - amount)]) else s
    case DebitAll(a) =>
      if a in s.balances && s.balances[a] > 0
      then s.(balances := s.balances[a := 0], moves := s.moves + [Move(a, -s.balances[a])]) else s
    case CreditElsewhere(a, amount) =>
      if a in s.balances
      then s.(balances := Credited(s.balances, a, amount), moves := s.moves + [Move(a, amount)]) else s
  }

  ghost function Run(s: State, es: seq<Event>): State
    requires s.unit >= 1
    ensures Run(s, es).unit == s.unit
    decreases |es|
  {
    if es == [] then s else Run(Step(s, es[0]), es[1..])
  }

  ghost predicate Init(s: State) {
    s.unit >= 1 && s.jobs == [] && s.credits == [] && s.moves == [] && KeysUnique(s.ledger)
    && (forall i :: 0 <= i < |s.ledger| ==> !s.ledger[i].origin.FromScan?)
    && (forall a :: a in s.balances ==> s.balances[a] >= 0)
  }

  // ---------------------------------------------------------------------------------------------
  // Orders leave pending once, and only the job that moved one to confirmed may credit it.
  // ---------------------------------------------------------------------------------------------

  lemma SettledOrderStep(s: State, e: Event, o: nat)
    requires s.unit >= 1 && o in s.orders && !s.orders[o].status.Pending?
    ensures o in Step(s, e).orders && Step(s, e).orders[o] == s.orders[o]
  {
  }

  /** Whatever happens afterwards, an order that left pending keeps the status it left to. */
  lemma {:induction false} SettledOrderStays(s: State, es: seq<Event>, o: nat)
    requires s.unit >= 1 && o in s.orders && !s.orders[o].status.Pending?
    ensures o in Run(s, es).orders && Run(s, es).orders[o] == s.orders[o]
    decreases |es|
  {
    if es != [] {
      SettledOrderStep(s, es[0], o);
      SettledOrderStays(Step(s, es[0]), es[1..], o);
    }
  }

  /** The event, if it finds the order pending, can take it to the status. */
  predicate LeadsTo(e: Event, order: Order, o: nat, status: Status) {
    match status
    case Pending => false
    case Rejected => e == Reject(o)
    case Expired => e.ExpireOlder? && order.crypto && order.createdAt < e.cutoff
    case Confirmed => e == ConfirmByHand(o) || e.Confirm?
  }

  lemma PendingStep(s: State, e: Event, o: nat)
    requires s.unit >= 1 && o in s.orders && s.orders[o].status.Pending?
    ensures
      o in Step(s, e).orders && var order := Step(s, e).orders[o];
      && order == s.orders[o].(status := order.status)
      && (order.status.Pending? || LeadsTo(e, s.orders[o], o, order.status))
      && (order.status.Pending? ==>
            !LeadsTo(e, s.orders[o], o, Rejected) && !LeadsTo(e, s.orders[o], o, Expired) && e != ConfirmByHand(o))
  {
  }

  /**
   * In every run an order is rejected only by a rejection, expires only by a sweep whose cutoff it lies
   * before, and only if it is a crypto order, and is confirmed only by hand or by a job; and it is still
   * pending only if none of the first three reached it.
   */
  lemma {:induction false} EachStatusHasItsCause(s: State, es: seq<Event>, o: nat)
    requires s.unit >= 1 && o in s.orders && s.orders[o].status.Pending?
    ensures
      o in Run(s, es).orders && var order := Run(s, es).orders[o];
      && order == s.orders[o].(status := order.status)
      && (!order.status.Pending? ==> exists i :: 0 <= i < |es| && LeadsTo(es[i], s.orders[o], o, order.status))
      && (order.status.Pending? ==> forall i :: 0 <= i < |es| ==>
            && !LeadsTo(es[i], s.orders[o], o, Rejected) && !LeadsTo(es[i], s.orders[o], o, Expired)
            && es[i] != ConfirmByHand(o))
    decreases |es|
  {
    if es != [] {
      var s' := Step(s, es[0]);
      PendingStep(s, es[0], o);
      if s'.orders[o].status.Pending? {
        EachStatusHasItsCause(s', es[1..], o);
        var order := Run(s, es).orders[o];
        if !order.status.Pending? {
          var i :| 0 <= i < |es[1..]| && LeadsTo(es[1..][i], s.orders[o], o, order.status);
          assert es[i + 1] == es[1..][i];
        } else {
          assert es == [es[0]] + es[1..];
        }
      } else {
        SettledOrderStays(s', es[1..], o);
        assert LeadsTo(es[0], s.orders[o], o, s'.orders[o].status);
      }
    }
  }

  /** The job holds the right to credit an order, or lost it to an exception after winning it. */
  predicate Claims(job: Job, o: nat) {
    (job.Won? || job.Writing? || job.Aborted?) && job.order == o
  }

  ghost predicate CreditInv(s: State) {
    && (forall j, k, o :: 0 <= j < k < |s.jobs| && Claims(s.jobs[j], o) ==> !Claims(s.jobs[k], o))
    && (forall j, o :: 0 <= j < |s.jobs| && Claims(s.jobs[j], o) ==> o in s.orders && s.orders[o].status.Confirmed?)
    && (forall i, j :: 0 <= i < |s.credits| && 0 <= j < |s.jobs| ==> !Claims(s.jobs[j], s.credits[i].order))
    && (forall i :: 0 <= i < |s.credits| ==>
          s.credits[i].order in s.orders && s.orders[s.credits[i].order].status.Confirmed?)
    && (forall i, j :: 0 <= i < j < |s.credits| ==> s.credits[i].order != s.credits[j].order)
  }

  /** A job that keeps its claim, or drops it, and orders that only leave pending. */
  lemma PutKeepsCreditInv(s: State, s': State, j: nat)
    requires CreditInv(s) && j < |s.jobs| && s'.jobs == s.jobs[j := At(s', j)] && s'.credits == s.credits
    requires forall o :: Claims(At(s', j), o) ==> Claims(s.jobs[j], o)
    requires s'.orders == s.orders
    ensures CreditInv(s')
  {
  }

  /** Orders may leave pending; the jobs and the credits made so far stand. */
  lemma TransitionKeepsCreditInv(s: State, s': State)
    requires CreditInv(s) && s'.jobs == s.jobs && s'.credits == s.credits
    requires forall o :: o in s.orders && s.orders[o].status.Confirmed? ==>
               o in s'.orders && s'.orders[o] == s.orders[o]
    ensures CreditInv(s')
  {
  }

  lemma ScanMoveKeepsCreditInv(s: State, e: Event)
    requires s.unit >= 1 && CreditInv(s) && (e.Fetch? || e.Filter? || e.ReadAgent? || e.Write?)
    ensures CreditInv(Step(s, e))
  {
    if Step(s, e) != s {
      PutKeepsCreditInv(s, Step(s, e), e.job);
    }
  }

  lemma SyncMoveKeepsCreditInv(s: State, e: Event)
    requires s.unit >= 1 && CreditInv(s) && (e.Lookup? || e.Insert?)
    ensures CreditInv(Step(s, e))
  {
    if Step(s, e) != s {
      PutKeepsCreditInv(s, Step(s, e), e.job);
    }
  }

  lemma StartKeepsCreditInv(s: State, s': State, job: Job)
    requires CreditInv(s) && s'.jobs == s.jobs + [job] && s'.credits == s.credits && s'.orders == s.orders
    requires forall o :: !Claims(job, o)
    ensures CreditInv(s')
  {
  }

  lemma WinKeepsCreditInv(s: State, e: Event)
    requires s.unit >= 1 && CreditInv(s) && e.Confirm?
    ensures CreditInv(Step(s, e))
  {
    var s' := Step(s, e);
    if At(s, e.job).Filtered? {
      var o := At(s, e.job).order;
      if o in s.orders && s.orders[o].status.Pending? {
        assert forall k :: 0 <= k < |s.jobs| ==> !Claims(s.jobs[k], o);
        assert forall k :: 0 <= k < |s.jobs| && k != e.job ==> s'.jobs[k] == s.jobs[k];
        assert s'.jobs[e.job].Won? && s'.jobs[e.job].order == o;
      } else {
        PutKeepsCreditInv(s, s', e.job);
      }
    }
  }

  lemma CreditKeepsCreditInv(s: State, e: Event)
    requires s.unit >= 1 && CreditInv(s) && e.CreditTotal?
    ensures CreditInv(Step(s, e))
  {
    var s' := Step(s, e);
    if At(s, e.job).Writing? && At(s, e.job).rest == [] {
      var o := At(s, e.job).order;
      assert Claims(s.jobs[e.job], o);
      assert forall k :: 0 <= k < |s.jobs| && k != e.job ==> !Claims(s.jobs[k], o);
      assert forall i :: 0 <= i < |s.credits| ==> s'.credits[i] == s.credits[i];
      assert s'.credits[|s.credits|].order == o;
    }
  }

  lemma CreditInvStep(s: State, e: Event)
    requires s.unit >= 1 && CreditInv(s)
    ensures CreditInv(Step(s, e))
  {
    var s' := Step(s, e);
    match e
    case Confirm(_) => WinKeepsCreditInv(s, e);
    case CreditTotal(_) => CreditKeepsCreditInv(s, e);
    case StartScan(o, now) => if s' != s { StartKeepsCreditInv(s, s', Loaded(o)); }
    case StartSync(a, items) => if s' != s { StartKeepsCreditInv(s, s', Syncing(a, items, s.balances[a])); }
    case Fetch(_, _) => ScanMoveKeepsCreditInv(s, e);
    case Filter(_) => ScanMoveKeepsCreditInv(s, e);
    case ReadAgent(_) => ScanMoveKeepsCreditInv(s, e);
    case Write(_) => ScanMoveKeepsCreditInv(s, e);
    case Lookup(_) => SyncMoveKeepsCreditInv(s, e);
    case Insert(_) => SyncMoveKeepsCreditInv(s, e);
    case _ => TransitionKeepsCreditInv(s, s');
  }

  lemma {:induction false} CreditInvRun(s: State, es: seq<Event>)
    requires s.unit >= 1 && CreditInv(s)
    ensures CreditInv(Run(s, es))
    decreases |es|
  {
    if es != [] {
      CreditInvStep(s, es[0]);
      CreditInvRun(Step(s, es[0]), es[1..]);
    }
  }

  /** Under every interleaving an order is credited at most once, and only if it ended confirmed. */
  lemma OrdersAreCreditedOnce(s: State, es: seq<Event>)
    requires Init(s)
    ensures forall i, j :: 0 <= i < j < |Run(s, es).credits| ==>
              Run(s, es).credits[i].order != Run(s, es).credits[j].order
    ensures forall i :: 0 <= i < |Run(s, es).credits| ==>
              && Run(s, es).credits[i].order in Run(s, es).orders
              && Run(s, es).orders[Run(s, es).credits[i].order].status.Confirmed?
  {
    CreditInvRun(s, es);
  }

  // ---------------------------------------------------------------------------------------------
  // The ledger holds each transaction key once, whatever overlaps.
  // ---------------------------------------------------------------------------------------------

  lemma KeysUniqueStep(s: State, e: Event)
    requires s.unit >= 1 && KeysUnique(s.ledger)
    ensures KeysUnique(Step(s, e).ledger)
  {
  }

  lemma {:induction false} KeysStayUnique(s: State, es: seq<Event>)
    requires s.unit >= 1 && KeysUnique(s.ledger)
    ensures KeysUnique(Run(s, es).ledger)
    decreases |es|
  {
    if es != [] {
      KeysUniqueStep(s, es[0]);
      KeysStayUnique(Step(s, es[0]), es[1..]);
    }
  }

  // ---------------------------------------------------------------------------------------------
  // Conservation: balances, credits and ledger rows agree at every moment of every run.
  // ---------------------------------------------------------------------------------------------

  /** What a ledger row records as deposited to agent `a` by a scan. */
  function Deposited(a: nat): Row -> int {
    (row: Row) => if row.agent == a && row.origin.FromScan? then row.amount else 0
  }

  /** What a job has written to the ledger for agent `a` and not credited. */
  function Uncredited(a: nat): Job -> int {
    (job: Job) => if (job.Writing? || job.Aborted?) && job.agent == a then job.total else 0
  }

  function CreditedTo(a: nat): Credit -> int {
    (c: Credit) => if c.agent == a then c.amount else 0
  }

  function MovedOn(a: nat): Move -> int {
    (m: Move) => if m.agent == a then m.amount else 0
  }

  /** Totals carried by jobs are non-negative, at most 8 decimals, and for agents that exist. */
  ghost predicate TotalsInv(s: State) {
    && s.unit >= 1
    && (forall j :: 0 <= j < |s.jobs| && (s.jobs[j].Writing? || s.jobs[j].Aborted?) ==>
          s.jobs[j].agent in s.balances && s.jobs[j].total >= 0 && s.jobs[j].total % s.unit == 0)
    && (forall a :: a in s.balances ==> s.balances[a] >= 0)
  }

  ghost predicate Conserved(s: State, initial: map<nat, int>, a: nat) {
    && s.balances.Keys == initial.Keys
    && Tally(s.ledger, Deposited(a)) == Tally(s.credits, CreditedTo(a)) + Tally(s.jobs, Uncredited(a))
    && (a in initial ==>
          s.balances[a] == initial[a] + Tally(s.credits, CreditedTo(a)) + Tally(s.moves, MovedOn(a)))
  }

  lemma WriteConserves(s: State, e: Event, initial: map<nat, int>, a: nat)
    requires TotalsInv(s) && Conserved(s, initial, a) && e.Write?
    ensures TotalsInv(Step(s, e)) && Conserved(Step(s, e), initial, a)
  {
    if At(s, e.job).Writing? && At(s, e.job).rest != [] {
      var s' := Step(s, e);
      var Writing(o, agent, rest, running, total) := At(s, e.job);
      var row := DepositRow(agent, e.job, running, rest[0], s.unit);
      TallyUpdate(s.jobs, e.job, s'.jobs[e.job], Uncredited(a));
      if KeyOf(rest[0]) !in Keys(s.ledger) {
        AmountHasWholePlaces(rest[0], s.unit);
        WholePlacesAdd(total, row.amount, s.unit);
        TruncateBounds(total + row.amount, s.unit);
        TallySnoc(s.ledger, row, Deposited(a));
      }
    }
  }

  lemma CreditConserves(s: State, e: Event, initial: map<nat, int>, a: nat)
    requires TotalsInv(s) && Conserved(s, initial, a) && e.CreditTotal?
    ensures TotalsInv(Step(s, e)) && Conserved(Step(s, e), initial, a)
  {
    if At(s, e.job).Writing? && At(s, e.job).rest == [] {
      var Writing(o, agent, rest, running, total) := At(s, e.job);
      TallyUpdate(s.jobs, e.job, Done, Uncredited(a));
      TallySnoc(s.credits, Credit(o, agent, total), CreditedTo(a));
    }
  }

  lemma MoveConserves(s: State, e: Event, initial: map<nat, int>, a: nat)
    requires TotalsInv(s) && Conserved(s, initial, a) && (e.Debit? || e.DebitAll? || e.CreditElsewhere?)
    ensures TotalsInv(Step(s, e)) && Conserved(Step(s, e), initial, a)
  {
    var s' := Step(s, e);
    if s' != s {
      TallySnoc(s.moves, s'.moves[|s.moves|], MovedOn(a));
    }
  }

  /** A job that carries nothing uncredited before or after, or carries the same. */
  lemma JobConserves(s: State, s': State, j: nat, initial: map<nat, int>, a: nat)
    requires TotalsInv(s) && Conserved(s, initial, a) && j < |s.jobs|
    requires s' == s.(jobs := s'.jobs, orders := s'.orders) && s'.jobs == s.jobs[j := At(s', j)]
    requires !s.jobs[j].Writing? && !s.jobs[j].Aborted? && !At(s', j).Aborted?
    requires At(s', j).Writing? ==> At(s', j).agent in s.balances && At(s', j).total == 0
    ensures TotalsInv(s') && Conserved(s', initial, a)
  {
    MultipleHasNoRemainder(0, s.unit);
    TallyUpdate(s.jobs, j, At(s', j), Uncredited(a));
  }

  lemma ScanMoveConserves(s: State, e: Event, initial: map<nat, int>, a: nat)
    requires TotalsInv(s) && Conserved(s, initial, a)
    requires e.Fetch? || e.Filter? || e.Confirm? || e.ReadAgent? || e.Lookup?
    ensures TotalsInv(Step(s, e)) && Conserved(Step(s, e), initial, a)
  {
    if Step(s, e) != s {
      JobConserves(s, Step(s, e), e.job, initial, a);
    }
  }

  lemma SyncInsertConserves(s: State, e: Event, initial: map<nat, int>, a: nat)
    requires TotalsInv(s) && Conserved(s, initial, a) && e.Insert?
    ensures TotalsInv(Step(s, e)) && Conserved(Step(s, e), initial, a)
  {
    var s' := Step(s, e);
    if s' != s {
      TallyUpdate(s.jobs, e.job, At(s', e.job), Uncredited(a));
      if s'.ledger != s.ledger {
        TallySnoc(s.ledger, s'.ledger[|s.ledger|], Deposited(a));
      }
    }
  }

  lemma ConservedStep(s: State, e: Event, initial: map<nat, int>, a: nat)
    requires TotalsInv(s) && Conserved(s, initial, a)
    ensures TotalsInv(Step(s, e)) && Conserved(Step(s, e), initial, a)
  {
    var s' := Step(s, e);
    match e
    case Write(_) => WriteConserves(s, e, initial, a);
    case CreditTotal(_) => CreditConserves(s, e, initial, a);
    case Debit(_, _) => MoveConserves(s, e, initial, a);
    case DebitAll(_) => MoveConserves(s, e, initial, a);
    case CreditElsewhere(_, _) => MoveConserves(s, e, initial, a);
    case Insert(_) => SyncInsertConserves(s, e, initial, a);
    case StartScan(_, _) => if s' != s { TallySnoc(s.jobs, s'.jobs[|s.jobs|], Uncredited(a)); }
    case StartSync(_, _) => if s' != s { TallySnoc(s.jobs, s'.jobs[|s.jobs|], Uncredited(a)); }
    case ConfirmByHand(_) =>
    case Reject(_) =>
    case ExpireOlder(_) =>
    case _ => ScanMoveConserves(s, e, initial, a);
  }

  lemma {:induction false} ConservedRun(s: State, es: seq<Event>, initial: map<nat, int>, a: nat)
    requires TotalsInv(s) && Conserved(s, initial, a)
    ensures TotalsInv(Run(s, es)) && Conserved(Run(s, es), initial, a)
    decreases |es|
  {
    if es != [] {
      ConservedStep(s, es[0], initial, a);
      ConservedRun(Step(s, es[0]), es[1..], initial, a);
    }
  }

  lemma {:induction false} TallyZero<T>(xs: seq<T>, f: T -> int)
    requires forall i :: 0 <= i < |xs| ==> f(xs[i]) == 0
    ensures Tally(xs, f) == 0
  {
    if xs != [] {
      TallyZero(xs[1..], f);
    }
  }

  /**
   * At every moment of every interleaving an agent's balance is non-negative and equals its start
   * plus deposit credits plus all other movements; and the deposits recorded in the ledger equal
   * the credits made plus what jobs have recorded but not credited, to the last base unit.
   */
  lemma MoneyIsConserved(s: State, es: seq<Event>, a: nat)
    requires Init(s) && a in s.balances
    ensures a in Run(s, es).balances && Run(s, es).balances[a] >= 0
    ensures Run(s, es).balances[a] ==
            s.balances[a] + Tally(Run(s, es).credits, CreditedTo(a)) + Tally(Run(s, es).moves, MovedOn(a))
    ensures Tally(Run(s, es).ledger, Deposited(a)) ==
            Tally(Run(s, es).credits, CreditedTo(a)) + Tally(Run(s, es).jobs, Uncredited(a))
  {
    TallyZero(s.ledger, Deposited(a));
    ConservedRun(s, es, s.balances, a);
  }

  // ---------------------------------------------------------------------------------------------
  // The rows of one job chain, however other jobs' rows fall between them.
  // ---------------------------------------------------------------------------------------------

  /** The rows a job wrote, in ledger order. */
  function RowsOf(ledger: seq<Row>, j: nat): seq<Row> {
    if ledger == [] then []
    else
      var last := ledger[|ledger| - 1];
      RowsOf(ledger[..|ledger| - 1], j) + if last.origin == FromScan(j) then [last] else []
  }

  lemma RowsOfSnoc(ledger: seq<Row>, row: Row, j: nat)
    ensures RowsOf(ledger + [row], j) == RowsOf(ledger, j) + if row.origin == FromScan(j) then [row] else []
  {
  }

  ghost predicate Chained(rows: seq<Row>) {
    forall i :: 0 <= i < |rows| - 1 ==> rows[i].after == rows[i + 1].before
  }

  ghost predicate ChainInv(s: State, j: nat) {
    && Chained(RowsOf(s.ledger, j))
    && (RowsOf(s.ledger, j) != [] ==> j < |s.jobs|)
    && (j < |s.jobs| && RowsOf(s.ledger, j) != [] ==>
          var rows := RowsOf(s.ledger, j);
          s.jobs[j].Done? || s.jobs[j].Aborted? || (s.jobs[j].Writing? && s.jobs[j].running == rows[|rows| - 1].after))
  }

  lemma ChainSnoc(rows: seq<Row>, row: Row)
    requires Chained(rows) && (rows != [] ==> rows[|rows| - 1].after == row.before)
    ensures Chained(rows + [row])
  {
  }

  /** The job's own write: its row starts from the running balance and leaves the new one. */
  lemma WriteKeepsChainInv(s: State, j: nat)
    requires s.unit >= 1 && ChainInv(s, j) && Step(s, Write(j)).ledger != s.ledger
    ensures ChainInv(Step(s, Write(j)), j)
  {
    var s' := Step(s, Write(j));
    var row := DepositRow(At(s, j).agent, j, At(s, j).running, At(s, j).rest[0], s.unit);
    assert s'.ledger == s.ledger + [row];
    RowsOfSnoc(s.ledger, row, j);
    ChainSnoc(RowsOf(s.ledger, j), row);
    assert s'.jobs[j].Writing? && s'.jobs[j].running == row.after;
  }

  /** Steps that add no row of the job leave it where it was, or end it. */
  lemma OtherKeepsChainInv(s: State, s': State, j: nat)
    requires ChainInv(s, j) && RowsOf(s'.ledger, j) == RowsOf(s.ledger, j) && |s.jobs| <= |s'.jobs|
    requires j < |s.jobs| && (s.jobs[j].Writing? || s.jobs[j].Aborted? || s.jobs[j].Done?) ==>
               s'.jobs[j] == s.jobs[j] || s'.jobs[j].Done? || s'.jobs[j].Aborted?
    ensures ChainInv(s', j)
  {
  }

  lemma OthersLeaveRows(s: State, e: Event, j: nat)
    requires s.unit >= 1 && e != Write(j)
    ensures RowsOf(Step(s, e).ledger, j) == RowsOf(s.ledger, j)
  {
    var s' := Step(s, e);
    if s'.ledger != s.ledger {
      assert e.Write? || e.Insert?;
      RowsOfSnoc(s.ledger, s'.ledger[|s.ledger|], j);
    }
  }

  lemma WrittenJobMovesOn(s: State, e: Event, j: nat)
    requires s.unit >= 1 && j < |s.jobs| && (s.jobs[j].Writing? || s.jobs[j].Aborted? || s.jobs[j].Done?)
    requires e == Write(j) ==> Step(s, e).ledger == s.ledger
    ensures j < |Step(s, e).jobs|
    ensures Step(s, e).jobs[j] == s.jobs[j] || Step(s, e).jobs[j].Done? || Step(s, e).jobs[j].Aborted?
  {
  }

  lemma JobsOnlyGrow(s: State, e: Event)
    requires s.unit >= 1
    ensures |s.jobs| <= |Step(s, e).jobs|
  {
  }

  lemma ChainInvStep(s: State, e: Event, j: nat)
    requires s.unit >= 1 && ChainInv(s, j)
    ensures ChainInv(Step(s, e), j)
  {
    if e == Write(j) && Step(s, e).ledger != s.ledger {
      WriteKeepsChainInv(s, j);
    } else {
      if e != Write(j) {
        OthersLeaveRows(s, e, j);
      }
      if j < |s.jobs| && (s.jobs[j].Writing? || s.jobs[j].Aborted? || s.jobs[j].Done?) {
        WrittenJobMovesOn(s, e, j);
      }
      JobsOnlyGrow(s, e);
      OtherKeepsChainInv(s, Step(s, e), j);
    }
  }

  lemma {:induction false} ChainInvRun(s: State, es: seq<Event>, j: nat)
    requires s.unit >= 1 && ChainInv(s, j)
    ensures ChainInv(Run(s, es), j)
    decreases |es|
  {
    if es != [] {
      ChainInvStep(s, es[0], j);
      ChainInvRun(Step(s, es[0]), es[1..], j);
    }
  }

  lemma {:induction false} NoRows(ledger: seq<Row>, j: nat)
    requires forall i :: 0 <= i < |ledger| ==> !ledger[i].origin.FromScan?
    ensures RowsOf(ledger, j) == []
    decreases |ledger|
  {
    if ledger != [] {
      NoRows(ledger[..|ledger| - 1], j);
    }
  }

  /** In every run from the start each row of a job starts from the balance its previous row ended with. */
  lemma RowsOfAJobChain(s: State, es: seq<Event>, j: nat)
    requires Init(s)
    ensures Chained(RowsOf(Run(s, es).ledger, j))
  {
    NoRows(s.ledger, j);
    ChainInvRun(s, es, j);
  }

  // ---------------------------------------------------------------------------------------------
  // When no two jobs hold one key between lookup and insert, no INSERT ever throws.
  // ---------------------------------------------------------------------------------------------

  function KeysOf(logs: seq<Transfer>): set<Key> {
    set t | t in logs :: KeyOf(t)
  }

  /** The keys a job has looked up as new and not written yet. */
  function Window(job: Job): set<Key> {
    match job
    case Filtered(_, news) => KeysOf(news)
    case Won(_, news) => KeysOf(news)
    case Writing(_, _, rest, _, _) => KeysOf(rest)
    case Checked(_, item, _, _) => {KeyOf(item.log)}
    case _ => {}
  }

  ghost predicate Disjoint(s: State) {
    forall j, k :: 0 <= j < k < |s.jobs| ==> Window(s.jobs[j]) !! Window(s.jobs[k])
  }

  ghost predicate DisjointRun(s: State, es: seq<Event>)
    requires s.unit >= 1
    decreases |es|
  {
    es == [] || (Disjoint(s) && DisjointRun(Step(s, es[0]), es[1..]))
  }

  ghost predicate Orderly(job: Job) {
    match job
    case Fetched(_, logs) => DistinctKeys(logs)
    case Filtered(_, news) => DistinctKeys(news)
    case Won(_, news) => DistinctKeys(news)
    case Writing(_, _, rest, _, _) => DistinctKeys(rest)
    case Aborted(_, _, _) => false
    case SyncAborted => false
    case _ => true
  }

  ghost predicate WindowInv(s: State) {
    && (forall j :: 0 <= j < |s.jobs| ==> Orderly(s.jobs[j]))
    && (forall j :: 0 <= j < |s.jobs| ==> Window(s.jobs[j]) !! Keys(s.ledger))
  }

  lemma PutKeepsWindowInv(s: State, s': State, j: nat)
    requires WindowInv(s) && j < |s.jobs| && s'.jobs == s.jobs[j := At(s', j)] && s'.ledger == s.ledger
    requires Orderly(At(s', j)) && Window(At(s', j)) !! Keys(s.ledger)
    ensures WindowInv(s')
  {
  }

  lemma AppendKeepsWindowInv(s: State, s': State, j: nat, row: Row)
    requires WindowInv(s) && Disjoint(s) && j < |s.jobs|
    requires s'.jobs == s.jobs[j := At(s', j)] && s'.ledger == s.ledger + [row]
    requires row.key.Some? && row.key.value in Window(s.jobs[j])
    requires Orderly(At(s', j)) && Window(At(s', j)) <= Window(s.jobs[j]) - {row.key.value}
    ensures WindowInv(s')
  {
  }

  lemma TailWindow(logs: seq<Transfer>)
    requires logs != [] && DistinctKeys(logs)
    ensures KeyOf(logs[0]) in KeysOf(logs)
    ensures DistinctKeys(logs[1..]) && KeysOf(logs[1..]) <= KeysOf(logs) - {KeyOf(logs[0])}
  {
  }

  lemma FilterKeepsWindowInv(s: State, e: Event)
    requires s.unit >= 1 && WindowInv(s) && e.Filter?
    ensures WindowInv(Step(s, e))
  {
    if At(s, e.job).Fetched? {
      NewLogsAreNew(s.ledger, At(s, e.job).logs);
      assert Orderly(s.jobs[e.job]);
      PutKeepsWindowInv(s, Step(s, e), e.job);
    }
  }

  lemma WriteKeepsWindowInv(s: State, e: Event)
    requires s.unit >= 1 && WindowInv(s) && Disjoint(s) && e.Write?
    ensures WindowInv(Step(s, e))
  {
    if At(s, e.job).Writing? && At(s, e.job).rest != [] {
      assert Orderly(s.jobs[e.job]);
      TailWindow(At(s, e.job).rest);
      assert KeyOf(At(s, e.job).rest[0]) in Window(s.jobs[e.job]);
      var s' := Step(s, e);
      AppendKeepsWindowInv(s, s', e.job, s'.ledger[|s.ledger|]);
    }
  }

  lemma InsertKeepsWindowInv(s: State, e: Event)
    requires s.unit >= 1 && WindowInv(s) && Disjoint(s) && e.Insert?
    ensures WindowInv(Step(s, e))
  {
  }

  lemma MoveKeepsWindowInv(s: State, e: Event)
    requires s.unit >= 1 && WindowInv(s)
    requires e.Fetch? || e.Confirm? || e.ReadAgent? || e.CreditTotal? || e.Lookup?
    ensures WindowInv(Step(s, e))
  {
    if Step(s, e) != s {
      assert Orderly(s.jobs[e.job]);
      PutKeepsWindowInv(s, Step(s, e), e.job);
    }
  }

  lemma WindowInvStep(s: State, e: Event)
    requires s.unit >= 1 && WindowInv(s) && Disjoint(s)
    ensures WindowInv(Step(s, e))
  {
    match e
    case Filter(_) => FilterKeepsWindowInv(s, e);
    case Write(_) => WriteKeepsWindowInv(s, e);
    case Insert(_) => InsertKeepsWindowInv(s, e);
    case Fetch(_, _) => MoveKeepsWindowInv(s, e);
    case Confirm(_) => MoveKeepsWindowInv(s, e);
    case ReadAgent(_) => MoveKeepsWindowInv(s, e);
    case CreditTotal(_) => MoveKeepsWindowInv(s, e);
    case Lookup(_) => MoveKeepsWindowInv(s, e);
    case _ =>
  }

  lemma {:induction false} WindowInvRun(s: State, es: seq<Event>)
    requires s.unit >= 1 && WindowInv(s) && DisjointRun(s, es)
    ensures WindowInv(Run(s, es))
    decreases |es|
  {
    if es != [] {
      WindowInvStep(s, es[0]);
      WindowInvRun(Step(s, es[0]), es[1..]);
    }
  }

  /**
   * If no two jobs ever hold the same key between their lookup and their insert, no job aborts; so
   * once no batch is half written, the deposits in the ledger are exactly the deposits credited.
   */
  lemma DisjointScansCreditEverything(s: State, es: seq<Event>, a: nat)
    requires Init(s) && DisjointRun(s, es) && a in s.balances
    ensures forall j :: 0 <= j < |Run(s, es).jobs| ==> !Run(s, es).jobs[j].Aborted? && !Run(s, es).jobs[j].SyncAborted?
    ensures (forall j :: 0 <= j < |Run(s, es).jobs| ==> !Run(s, es).jobs[j].Writing?) ==>
              Tally(Run(s, es).ledger, Deposited(a)) == Tally(Run(s, es).credits, CreditedTo(a))
  {
    var s' := Run(s, es);
    WindowInvRun(s, es);
    assert forall j :: 0 <= j < |s'.jobs| ==> Orderly(s'.jobs[j]);
    MoneyIsConserved(s, es, a);
    if forall j :: 0 <= j < |s'.jobs| ==> !s'.jobs[j].Writing? {
      TallyZero(s'.jobs, Uncredited(a));
    }
  }

  // ---------------------------------------------------------------------------------------------
  // Runs put together, and what stays as it is.
  // ---------------------------------------------------------------------------------------------

  lemma RunAppend(s: State, es: seq<Event>, fs: seq<Event>)
    requires s.unit >= 1
    ensures Run(s, es + fs) == Run(Run(s, es), fs)
    decreases |es|
  {
    if es == [] {
      assert es + fs == fs;
    } else {
      assert (es + fs)[1..] == es[1..] + fs;
      RunAppend(Step(s, es[0]), es[1..], fs);
    }
  }

  lemma RunCons(s: State, e: Event, es: seq<Event>)
    requires s.unit >= 1
    ensures Run(s, [e] + es) == Run(Step(s, e), es)
  {
  }

  /** A filtered job whose order is still pending wins it and starts writing from the agent's balance. */
  lemma WinAndRead(s: State, j: nat)
    requires s.unit >= 1 && j < |s.jobs| && s.jobs[j].Filtered?
    requires s.jobs[j].order in s.orders && s.orders[s.jobs[j].order].status.Pending?
    requires s.orders[s.jobs[j].order].agent in s.balances
    ensures
      var o := s.jobs[j].order;
      Run(s, [Confirm(j), ReadAgent(j)]) ==
      s.(orders := Transition(s.orders, o, Confirmed),
         jobs := s.jobs[j := Writing(o, s.orders[o].agent, s.jobs[j].news, s.balances[s.orders[o].agent], 0)])
  {
    var s1 := Step(s, Confirm(j));
    RunCons(s, Confirm(j), [ReadAgent(j)]);
    RunCons(s1, ReadAgent(j), []);
    assert [Confirm(j)] + [ReadAgent(j)] == [Confirm(j), ReadAgent(j)];
    assert [ReadAgent(j)] + [] == [ReadAgent(j)];
    assert s1.jobs[j] == Won(s.jobs[j].order, s.jobs[j].news);
  }

  /** One write of a job whose next key is not recorded: the row is appended and the total stays exact. */
  lemma WriteOne(s: State, j: nat)
    requires s.unit >= 1 && j < |s.jobs| && s.jobs[j].Writing? && s.jobs[j].rest != []
    requires KeyOf(s.jobs[j].rest[0]) !in Keys(s.ledger)
    requires s.jobs[j].total >= 0 && s.jobs[j].total % s.unit == 0
    ensures
      var Writing(o, agent, rest, running, total) := s.jobs[j];
      var row := DepositRow(agent, j, running, rest[0], s.unit);
      && Step(s, Write(j)) ==
         s.(ledger := s.ledger + [row],
            jobs := s.jobs[j := Writing(o, agent, rest[1..], row.after, total + row.amount)])
      && total + row.amount >= 0 && (total + row.amount) % s.unit == 0
      && Keys(s.ledger + [row]) == Keys(s.ledger) + {KeyOf(rest[0])}
  {
    var Writing(o, agent, rest, running, total) := s.jobs[j];
    var row := DepositRow(agent, j, running, rest[0], s.unit);
    AmountHasWholePlaces(rest[0], s.unit);
    WholePlacesAdd(total, row.amount, s.unit);
    TruncateBounds(total + row.amount, s.unit);
    KeysSnoc(s.ledger, row);
  }

  /** The event is a statement of this job. */
  predicate Concerns(e: Event, j: nat) {
    match e
    case Fetch(k, _) => k == j
    case Filter(k) => k == j
    case Confirm(k) => k == j
    case ReadAgent(k) => k == j
    case Write(k) => k == j
    case CreditTotal(k) => k == j
    case Lookup(k) => k == j
    case Insert(k) => k == j
    case _ => false
  }

  lemma OthersLeaveTheJob(s: State, e: Event, j: nat)
    requires s.unit >= 1 && j < |s.jobs|
    ensures j < |Step(s, e).jobs|
    ensures !Concerns(e, j) ==> Step(s, e).jobs[j] == s.jobs[j]
  {
  }

  /** A new job has found nothing yet. */
  lemma NewJobs(s: State, e: Event, j: nat)
    requires s.unit >= 1 && |s.jobs| <= j < |Step(s, e).jobs|
    ensures Step(s, e).jobs[j].Loaded? || Step(s, e).jobs[j].Syncing?
  {
    assert e.StartScan? || e.StartSync?;
  }

  /** A credit from elsewhere raises the balance of an existing agent, and no other balance. */
  lemma CreditElsewhereCredits(s: State, a: nat, amount: nat, other: nat)
    requires s.unit >= 1 && other in s.balances
    ensures
      var s' := Step(s, CreditElsewhere(a, amount));
      other in s'.balances && s'.balances[other] == s.balances[other] + if other == a then amount else 0
  {
  }

  lemma BalancesKeepAgents(s: State, e: Event)
    requires s.unit >= 1
    ensures Step(s, e).balances.Keys == s.balances.Keys
  {
  }

  lemma KeysOnlyGrow(s: State, e: Event)
    requires s.unit >= 1
    ensures Keys(s.ledger) <= Keys(Step(s, e).ledger)
  {
    var s' := Step(s, e);
    if s'.ledger != s.ledger {
      KeysSnoc(s.ledger, s'.ledger[|s.ledger|]);
    }
  }

  lemma AbortedStep(s: State, e: Event, j: nat)
    requires s.unit >= 1 && j < |s.jobs| && s.jobs[j].Aborted?
    ensures j < |Step(s, e).jobs| && Step(s, e).jobs[j] == s.jobs[j]
  {
  }

  /** An aborted job stays aborted, and what the ledger records stays recorded. */
  lemma {:induction false} AbortedStays(s: State, es: seq<Event>, j: nat, key: Key)
    requires s.unit >= 1 && j < |s.jobs| && s.jobs[j].Aborted? && key in Keys(s.ledger)
    ensures j < |Run(s, es).jobs| && Run(s, es).jobs[j] == s.jobs[j] && key in Keys(Run(s, es).ledger)
    decreases |es|
  {
    if es != [] {
      AbortedStep(s, es[0], j);
      KeysOnlyGrow(s, es[0]);
      AbortedStays(Step(s, es[0]), es[1..], j, key);
    }
  }

  /**
   * The loss is permanent: after any continuation the order still has no credit, and no later scan
   * takes the recorded log for a new one.
   */
  lemma AbortedDepositIsLost(s: State, es: seq<Event>, j: nat, x: Transfer, logs: seq<Transfer>)
    requires s.unit >= 1 && CreditInv(s) && j < |s.jobs| && s.jobs[j].Aborted? && KeyOf(x) in Keys(s.ledger)
    ensures forall i :: 0 <= i < |Run(s, es).credits| ==> Run(s, es).credits[i].order != s.jobs[j].order
    ensures x !in NewLogs(Run(s, es).ledger, logs)
  {
    CreditInvRun(s, es);
    AbortedStays(s, es, j, KeyOf(x));
    assert Claims(Run(s, es).jobs[j], s.jobs[j].order);
    NewLogsAreNew(Run(s, es).ledger, logs);
  }
}
