/**
 * The periodic jobs that record on-chain transfers of an agent, among everything else that works on the
 * tables: each looks one log up by its key and, if nothing is found, inserts a row for it.
 */
module SyncJobs {
  import opened Prelude
  import opened Ledger
  import opened Deposits

  /** The row names the agent and the log, is worth what the log moved, and claims no change of balance. */
  predicate Records(row: Row, item: SyncItem, unit: nat) {
    && row.kind == item.kind && IsWorth(row.amount, item.log.value, unit)
    && row.key == Some(KeyOf(item.log)) && row.before == row.after
  }

  // ---------------------------------------------------------------------------------------------
  // Whatever a finished job was given is recorded.
  // ---------------------------------------------------------------------------------------------

  /** The job still has the item in front of it, or the item's log is recorded; an aborted job gave up. */
  ghost predicate Covers(s: State, j: nat, item: SyncItem) {
    j < |s.jobs| &&
    match s.jobs[j]
    case Syncing(_, items, _) => item in items || KeyOf(item.log) in Keys(s.ledger)
    case Checked(_, next, items, _) => item == next || item in items || KeyOf(item.log) in Keys(s.ledger)
    case Done => KeyOf(item.log) in Keys(s.ledger)
    case SyncAborted => true
    case _ => false
  }

  lemma OthersKeepCover(s: State, e: Event, j: nat, item: SyncItem)
    requires s.unit >= 1 && Covers(s, j, item) && !Concerns(e, j)
    ensures Covers(Step(s, e), j, item)
  {
    OthersLeaveTheJob(s, e, j);
    KeysOnlyGrow(s, e);
  }

  lemma LookupKeepsCover(s: State, j: nat, item: SyncItem)
    requires s.unit >= 1 && Covers(s, j, item)
    ensures Covers(Step(s, Lookup(j)), j, item)
  {
    if s.jobs[j].Syncing? && s.jobs[j].items != [] {
      assert s.jobs[j].items == [s.jobs[j].items[0]] + s.jobs[j].items[1..];
    }
  }

  lemma InsertKeepsCover(s: State, j: nat, item: SyncItem)
    requires s.unit >= 1 && Covers(s, j, item)
    ensures Covers(Step(s, Insert(j)), j, item)
  {
    KeysOnlyGrow(s, Insert(j));
    var s' := Step(s, Insert(j));
    if s'.ledger != s.ledger {
      KeysSnoc(s.ledger, s'.ledger[|s.ledger|]);
    }
  }

  lemma CoverStep(s: State, e: Event, j: nat, item: SyncItem)
    requires s.unit >= 1 && Covers(s, j, item)
    ensures Covers(Step(s, e), j, item)
  {
    if e == Lookup(j) {
      LookupKeepsCover(s, j, item);
    } else if e == Insert(j) {
      InsertKeepsCover(s, j, item);
    } else if !Concerns(e, j) {
      OthersKeepCover(s, e, j, item);
    }
  }

  lemma {:induction false} CoverRun(s: State, es: seq<Event>, j: nat, item: SyncItem)
    requires s.unit >= 1 && Covers(s, j, item)
    ensures Covers(Run(s, es), j, item)
    decreases |es|
  {
    if es != [] {
      CoverStep(s, es[0], j, item);
      CoverRun(Step(s, es[0]), es[1..], j, item);
    }
  }

  /**
   * Whatever interleaves: when a sync job is done, every log it was given is recorded, by it or by
   * another job; it can end otherwise only by an insert that met a recorded key.
   */
  lemma SyncedItemsAreRecorded(s: State, es: seq<Event>, j: nat, item: SyncItem)
    requires s.unit >= 1 && j < |s.jobs| && s.jobs[j].Syncing? && item in s.jobs[j].items
    ensures
      var s' := Run(s, es);
      && j < |s'.jobs|
      && (s'.jobs[j].Syncing? || s'.jobs[j].Checked? || s'.jobs[j].Done? || s'.jobs[j].SyncAborted?)
      && (s'.jobs[j].Done? ==> KeyOf(item.log) in Keys(s'.ledger))
  {
    CoverRun(s, es, j, item);
  }

  // ---------------------------------------------------------------------------------------------
  // Nothing else is recorded.
  // ---------------------------------------------------------------------------------------------

  /** What the sync jobs of a run are given, with the agent each is for. */
  ghost function Given(es: seq<Event>): set<(nat, SyncItem)> {
    set i, k | 0 <= i < |es| && es[i].StartSync? && 0 <= k < |es[i].items| :: (es[i].agent, es[i].items[k])
  }

  ghost predicate HoldsGiven(job: Job, given: set<(nat, SyncItem)>) {
    match job
    case Syncing(a, items, _) => forall k :: 0 <= k < |items| ==> (a, items[k]) in given
    case Checked(a, next, items, _) => (a, next) in given && forall k :: 0 <= k < |items| ==> (a, items[k]) in given
    case _ => true
  }

  ghost predicate RecordsGiven(row: Row, given: set<(nat, SyncItem)>, unit: nat) {
    exists item :: (row.agent, item) in given && Records(row, item, unit)
  }

  ghost predicate SyncInv(s: State, given: set<(nat, SyncItem)>, start: nat) {
    && start <= |s.ledger|
    && (forall j :: 0 <= j < |s.jobs| ==> HoldsGiven(s.jobs[j], given))
    && (forall i :: start <= i < |s.ledger| && s.ledger[i].origin.FromSync? ==>
          RecordsGiven(s.ledger[i], given, s.unit))
  }

  lemma NewRowIsGiven(s: State, e: Event, given: set<(nat, SyncItem)>)
    requires s.unit >= 1 && (forall j :: 0 <= j < |s.jobs| ==> HoldsGiven(s.jobs[j], given))
    ensures
      var s' := Step(s, e);
      && s.ledger <= s'.ledger && |s'.ledger| <= |s.ledger| + 1
      && (s'.ledger != s.ledger && s'.ledger[|s.ledger|].origin.FromSync? ==>
            RecordsGiven(s'.ledger[|s.ledger|], given, s.unit))
  {
    var s' := Step(s, e);
    if s'.ledger != s.ledger && s'.ledger[|s.ledger|].origin.FromSync? {
      assert e.Insert?;
      var Checked(a, item, items, snapshot) := At(s, e.job);
      AmountIsWorth(item.log, s.unit);
      assert Records(s'.ledger[|s.ledger|], item, s.unit);
    }
  }

  lemma OwnStepHoldsGiven(s: State, e: Event, given: set<(nat, SyncItem)>, j: nat)
    requires s.unit >= 1 && j < |s.jobs| && HoldsGiven(s.jobs[j], given) && Concerns(e, j) && j < |Step(s, e).jobs|
    ensures HoldsGiven(Step(s, e).jobs[j], given)
  {
  }

  lemma NewJobHoldsGiven(s: State, e: Event, given: set<(nat, SyncItem)>, j: nat)
    requires s.unit >= 1 && |s.jobs| <= j < |Step(s, e).jobs|
    requires e.StartSync? ==> forall k :: 0 <= k < |e.items| ==> (e.agent, e.items[k]) in given
    ensures HoldsGiven(Step(s, e).jobs[j], given)
  {
    NewJobs(s, e, j);
    assert e.StartScan? || e.StartSync?;
  }

  lemma JobHoldsGiven(s: State, e: Event, given: set<(nat, SyncItem)>, j: nat)
    requires s.unit >= 1 && (j < |s.jobs| ==> HoldsGiven(s.jobs[j], given)) && j < |Step(s, e).jobs|
    requires e.StartSync? ==> forall k :: 0 <= k < |e.items| ==> (e.agent, e.items[k]) in given
    ensures HoldsGiven(Step(s, e).jobs[j], given)
  {
    if j >= |s.jobs| {
      NewJobHoldsGiven(s, e, given, j);
    } else if Concerns(e, j) {
      OwnStepHoldsGiven(s, e, given, j);
    } else {
      OthersLeaveTheJob(s, e, j);
    }
  }

  lemma {:induction false} SyncInvRun(s: State, es: seq<Event>, given: set<(nat, SyncItem)>, start: nat)
    requires s.unit >= 1 && SyncInv(s, given, start) && Given(es) <= given
    ensures SyncInv(Run(s, es), given, start)
    decreases |es|
  {
    if es != [] {
      var e, s' := es[0], Step(s, es[0]);
      if e.StartSync? {
        forall k | 0 <= k < |e.items|
          ensures (e.agent, e.items[k]) in given
        {
          assert (es[0].agent, es[0].items[k]) in Given(es);
        }
      }
      NewRowIsGiven(s, e, given);
      forall j | 0 <= j < |s'.jobs|
        ensures HoldsGiven(s'.jobs[j], given)
      {
        JobHoldsGiven(s, e, given, j);
      }
      assert Given(es[1..]) <= Given(es) by {
        forall p | p in Given(es[1..])
          ensures p in Given(es)
        {
          var i, k :| 0 <= i < |es[1..]| && es[1..][i].StartSync? && 0 <= k < |es[1..][i].items|
                      && p == (es[1..][i].agent, es[1..][i].items[k]);
          assert es[1..][i] == es[i + 1];
        }
      }
      SyncInvRun(s', es[1..], given, start);
    }
  }

  /**
   * In every run each row a sync job adds records a log that a sync job of that agent was given: of its
   * kind, worth its value, under its key, and without a change of balance.
   */
  lemma SyncRowsRecordWhatWasGiven(s: State, es: seq<Event>, i: nat)
    requires s.unit >= 1 && s.jobs == []
    requires |s.ledger| <= i < |Run(s, es).ledger| && Run(s, es).ledger[i].origin.FromSync?
    ensures RecordsGiven(Run(s, es).ledger[i], Given(es), Run(s, es).unit)
  {
    SyncInvRun(s, es, Given(es), |s.ledger|);
  }
}
