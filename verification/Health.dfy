/**
 * Endpoint and upstream health: check results and configuration errors drive one row through
 * healthy, degraded and down, with automatic disabling and re-enabling.
 */
module Health {
  import opened Prelude

  datatype Status = Unknown | Healthy | Degraded | Down

  datatype Row = Row(status: Status, autoDisabled: bool, failures: nat, lastFailureAt: Option<int>)

  /** The environment settings: failures needed to disable, and the longest gap that keeps them together. */
  datatype Config = Config(threshold: int, windowMs: int)

  /** One check; `at` is when its age test reads the clock, `recordedAt` when a failure is stamped. */
  datatype Check = Check(ok: bool, at: int, recordedAt: int, disables: bool)

  datatype Event = Checked(check: Check) | ConfigError

  datatype Notice = Disabled | Reenabled

  function FreshRow(): Row {
    Row(Unknown, false, 0, None)
  }

  predicate WindowExpired(row: Row, now: int, c: Config) {
    row.failures != 0 && row.lastFailureAt.Some? && now - row.lastFailureAt.value > c.windowMs
  }

  /** The counter after one more failure; an enabled row whose last failure is too old starts over. */
  function FailuresAfter(row: Row, check: Check, c: Config): nat {
    (if !row.autoDisabled && WindowExpired(row, check.at, c) then 0 else row.failures) + 1
  }

  /** The row after one event. */
  function Step(row: Row, e: Event, c: Config): Row {
    match e
    case ConfigError => row.(status := Degraded)
    case Checked(check) =>
      if check.ok then row.(status := Healthy, autoDisabled := false, failures := 0)
      else
        var failures := FailuresAfter(row, check, c);
        var disable := failures >= c.threshold && !row.autoDisabled && check.disables;
        Row(if row.autoDisabled || disable then Down else Degraded, row.autoDisabled || disable, failures,
            Some(check.recordedAt))
  }

  /** The notification one event sends: on a success of a disabled row, and on a failure that reaches the threshold. */
  function Notices(row: Row, e: Event, c: Config): seq<Notice> {
    match e
    case ConfigError => []
    case Checked(check) =>
      if check.ok then
        if row.autoDisabled then [Reenabled] else []
      else if FailuresAfter(row, check, c) >= c.threshold && !row.autoDisabled && check.disables then [Disabled]
      else []
  }

  function Run(row: Row, es: seq<Event>, c: Config): Row {
    if es == [] then row else Step(Run(row, es[..|es| - 1], c), es[|es| - 1], c)
  }

  function AllNotices(row: Row, es: seq<Event>, c: Config): seq<Notice> {
    if es == [] then []
    else AllNotices(row, es[..|es| - 1], c) + Notices(Run(row, es[..|es| - 1], c), es[|es| - 1], c)
  }

  /** The check results of a history; configuration errors are not results. */
  function Results(es: seq<Event>): seq<Check> {
    if es == [] then []
    else Results(es[..|es| - 1]) + if es[|es| - 1].Checked? then [es[|es| - 1].check] else []
  }

  /** The last `k` results all failed, and none came more than a window after the one before it was stamped. */
  ghost predicate FailingTail(h: seq<Check>, k: nat, windowMs: int) {
    && k <= |h|
    && (forall i :: |h| - k <= i < |h| ==> !h[i].ok)
    && (forall i :: |h| - k < i < |h| ==> h[i].at - h[i - 1].recordedAt <= windowMs)
  }

  /** The length of the longest failing tail. */
  function LongestTail(h: seq<Check>, windowMs: int): nat {
    if h == [] || h[|h| - 1].ok then 0
    else if |h| >= 2 && !h[|h| - 2].ok && h[|h| - 1].at - h[|h| - 2].recordedAt > windowMs then 1
    else 1 + LongestTail(h[..|h| - 1], windowMs)
  }

  /** One more failure lengthens a failing tail, unless it comes too late. */
  lemma TailSnoc(h: seq<Check>, k: nat, windowMs: int)
    requires h != [] && !h[|h| - 1].ok && FailingTail(h[..|h| - 1], k, windowMs)
    requires k > 0 ==> h[|h| - 1].at - h[|h| - 2].recordedAt <= windowMs
    ensures FailingTail(h, k + 1, windowMs)
  {
  }

  lemma TailInit(h: seq<Check>, k: nat, windowMs: int)
    requires k > 0 && FailingTail(h, k, windowMs)
    ensures !h[|h| - 1].ok && FailingTail(h[..|h| - 1], k - 1, windowMs)
    ensures k > 1 ==> !h[|h| - 2].ok && h[|h| - 1].at - h[|h| - 2].recordedAt <= windowMs
  {
  }

  lemma {:induction false} LongestTailIsLongest(h: seq<Check>, windowMs: int, k: nat)
    ensures FailingTail(h, LongestTail(h, windowMs), windowMs)
    ensures FailingTail(h, k, windowMs) ==> k <= LongestTail(h, windowMs)
    decreases |h|
  {
    if h != [] {
      var before := h[..|h| - 1];
      LongestTailIsLongest(before, windowMs, if k == 0 then 0 else k - 1);
      if k > 0 && FailingTail(h, k, windowMs) {
        TailInit(h, k, windowMs);
      }
      if !h[|h| - 1].ok {
        var l := LongestTail(before, windowMs);
        assert |h| >= 2 ==> before[|before| - 1] == h[|h| - 2];
        assert before == [] || h[|h| - 2].ok ==> l == 0;
        TailSnoc(h, if l == 0 || h[|h| - 1].at - h[|h| - 2].recordedAt <= windowMs then l else 0, windowMs);
      }
    }
  }

  // ---------------------------------------------------------------------------------------------
  // The counter refines the history.
  // ---------------------------------------------------------------------------------------------

  ghost predicate CounterInv(row: Row, h: seq<Check>, c: Config) {
    && (!row.autoDisabled ==> row.failures == LongestTail(h, c.windowMs))
    && (row.failures > 0 ==> h != [] && !h[|h| - 1].ok && row.lastFailureAt == Some(h[|h| - 1].recordedAt))
    && (row.failures == 0 ==> h == [] || h[|h| - 1].ok)
  }

  lemma CounterStep(row: Row, h: seq<Check>, check: Check, c: Config)
    requires CounterInv(row, h, c)
    ensures CounterInv(Step(row, Checked(check), c), h + [check], c)
  {
  }

  /**
   * As long as an entity is not auto-disabled, its failure counter is the length of the longest run
   * of failures at the end of its history whose gaps stay within the window.
   */
  lemma {:induction false} CounterRefinesHistory(es: seq<Event>, c: Config)
    ensures CounterInv(Run(FreshRow(), es, c), Results(es), c)
    decreases |es|
  {
    if es != [] {
      CounterRefinesHistory(es[..|es| - 1], c);
      var e := es[|es| - 1];
      if e.Checked? {
        CounterStep(Run(FreshRow(), es[..|es| - 1], c), Results(es[..|es| - 1]), e.check, c);
      } else {
        assert Results(es) == Results(es[..|es| - 1]);
      }
    }
  }

  /** The time the last `k` checks waited for one another, from each stamp to the next clock reading. */
  function Waits(h: seq<Check>, k: nat): int
    requires k <= |h|
  {
    if k <= 1 then 0 else Waits(h[..|h| - 1], k - 1) + (h[|h| - 1].at - h[|h| - 2].recordedAt)
  }

  /** Each failure was stamped at the moment its check read the clock. */
  ghost predicate Instant(h: seq<Check>) {
    forall i :: 0 <= i < |h| ==> h[i].at == h[i].recordedAt
  }

  lemma {:induction false} TailWaits(h: seq<Check>, k: nat, windowMs: int)
    requires k >= 1 && FailingTail(h, k, windowMs)
    ensures Waits(h, k) <= (k - 1) * windowMs
    ensures Instant(h) ==>
              h[|h| - 1].at - h[|h| - k].at <= (k - 1) * windowMs
    decreases k
  {
    if k > 1 {
      var before := h[..|h| - 1];
      TailInit(h, k, windowMs);
      TailWaits(before, k - 1, windowMs);
      assert (k - 1) * windowMs == (k - 2) * windowMs + windowMs;
    }
  }

  lemma ShorterTail(h: seq<Check>, k: nat, l: nat, windowMs: int)
    requires FailingTail(h, k, windowMs) && l <= k
    ensures FailingTail(h, l, windowMs)
  {
  }

  /** A failure of an enabled entity leaves the counter at the longest failing tail that now ends with it. */
  lemma FailureCounts(es: seq<Event>, c: Config, check: Check)
    requires !Run(FreshRow(), es, c).autoDisabled && !check.ok
    ensures Step(Run(FreshRow(), es, c), Checked(check), c).failures == LongestTail(Results(es) + [check], c.windowMs)
  {
    CounterRefinesHistory(es, c);
    assert (Results(es) + [check])[..|Results(es)|] == Results(es);
  }

  /**
   * A failure of an enabled entity disables it if and only if it is of a kind that may disable and
   * completes `threshold` failures in a row, none of which came more than a window after the one before it.
   */
  lemma DisablesExactlyOnEnoughFailures(es: seq<Event>, c: Config, check: Check)
    requires c.threshold >= 1 && !Run(FreshRow(), es, c).autoDisabled && !check.ok
    ensures Notices(Run(FreshRow(), es, c), Checked(check), c) == [Disabled] <==>
            check.disables && FailingTail(Results(es) + [check], c.threshold, c.windowMs)
    ensures Step(Run(FreshRow(), es, c), Checked(check), c).autoDisabled <==>
            check.disables && FailingTail(Results(es) + [check], c.threshold, c.windowMs)
  {
    var h := Results(es) + [check];
    FailureCounts(es, c, check);
    LongestTailIsLongest(h, c.windowMs, c.threshold);
    if LongestTail(h, c.windowMs) >= c.threshold {
      ShorterTail(h, LongestTail(h, c.windowMs), c.threshold, c.windowMs);
    }
  }

  predicate Succeeds(e: Event) {
    e.Checked? && e.check.ok
  }

  /** The history ends with a failure that may disable and completes enough failures in a row. */
  ghost predicate Trips(es: seq<Event>, c: Config) {
    && es != [] && es[|es| - 1].Checked? && !es[|es| - 1].check.ok && es[|es| - 1].check.disables
    && c.threshold >= 1 && FailingTail(Results(es), c.threshold, c.windowMs)
  }

  /** Such a failure came at position `i`, and no success after it. */
  ghost predicate TrippedAt(es: seq<Event>, i: nat, c: Config) {
    i < |es| && Trips(es[..i + 1], c) && forall j :: i < j < |es| ==> !Succeeds(es[j])
  }

  lemma TripsStep(es: seq<Event>, c: Config)
    requires c.threshold >= 1 && es != [] && !Run(FreshRow(), es[..|es| - 1], c).autoDisabled
    ensures Run(FreshRow(), es, c).autoDisabled <==> Trips(es, c)
  {
    var e := es[|es| - 1];
    if e.Checked? && !e.check.ok {
      DisablesExactlyOnEnoughFailures(es[..|es| - 1], c, e.check);
    }
  }

  lemma TrippedBefore(es: seq<Event>, i: nat, c: Config)
    requires es != [] && i < |es| - 1
    ensures TrippedAt(es, i, c) <==> TrippedAt(es[..|es| - 1], i, c) && !Succeeds(es[|es| - 1])
  {
    assert es[..|es| - 1][..i + 1] == es[..i + 1];
    assert forall j :: 0 <= j < |es| - 1 ==> es[..|es| - 1][j] == es[j];
  }

  ghost predicate Tripped(es: seq<Event>, c: Config) {
    exists i: nat :: TrippedAt(es, i, c)
  }

  lemma TrippedSnoc(es: seq<Event>, c: Config)
    requires es != []
    ensures Tripped(es, c) <==> Trips(es, c) || (Tripped(es[..|es| - 1], c) && !Succeeds(es[|es| - 1]))
  {
    var before, last := es[..|es| - 1], |es| - 1;
    assert es[..last + 1] == es;
    if Trips(es, c) {
      assert TrippedAt(es, last, c);
    }
    if Tripped(before, c) && !Succeeds(es[last]) {
      var i: nat :| TrippedAt(before, i, c);
      TrippedBefore(es, i, c);
    }
    if Tripped(es, c) && !Trips(es, c) {
      var i: nat :| TrippedAt(es, i, c);
      TrippedBefore(es, i, c);
    }
  }

  /**
   * Over every history: a row is disabled exactly if some failure completed enough failures in a row,
   * close enough together, and no check has succeeded since.
   */
  lemma {:induction false} DisabledExactlyIfTripped(es: seq<Event>, c: Config)
    requires c.threshold >= 1
    ensures Run(FreshRow(), es, c).autoDisabled <==> Tripped(es, c)
    decreases |es|
  {
    if es != [] {
      DisabledExactlyIfTripped(es[..|es| - 1], c);
      TrippedSnoc(es, c);
      if !Run(FreshRow(), es[..|es| - 1], c).autoDisabled {
        TripsStep(es, c);
      }
    }
  }

  lemma DisablingTail(es: seq<Event>, c: Config, check: Check)
    requires c.threshold >= 1 && Notices(Run(FreshRow(), es, c), Checked(check), c) == [Disabled]
    ensures FailingTail(Results(es) + [check], c.threshold, c.windowMs)
  {
    DisablesExactlyOnEnoughFailures(es, c, check);
  }

  /**
   * The failures that trigger a disabling waited for one another at most (threshold - 1) windows in
   * all; with instantaneous checks they span no more than that.
   */
  lemma DisablingSpan(es: seq<Event>, c: Config, check: Check)
    requires c.threshold >= 1 && Notices(Run(FreshRow(), es, c), Checked(check), c) == [Disabled]
    ensures
      var h := Results(es) + [check];
      && FailingTail(h, c.threshold, c.windowMs)
      && Waits(h, c.threshold) <= (c.threshold - 1) * c.windowMs
      && (Instant(h) ==>
            h[|h| - 1].at - h[|h| - c.threshold].at <= (c.threshold - 1) * c.windowMs)
  {
    DisablingTail(es, c, check);
    TailWaits(Results(es) + [check], c.threshold, c.windowMs);
  }

  // ---------------------------------------------------------------------------------------------
  // Status and notices.
  // ---------------------------------------------------------------------------------------------

  predicate StatusInv(row: Row) {
    && (row.status.Down? ==> row.autoDisabled)
    && (row.status.Healthy? ==> !row.autoDisabled && row.failures == 0)
    && (row.autoDisabled ==> row.status.Down? || row.status.Degraded?)
  }

  lemma {:induction false} StatusIsConsistent(row: Row, es: seq<Event>, c: Config)
    requires StatusInv(row)
    ensures StatusInv(Run(row, es, c))
    decreases |es|
  {
  }

  /**
   * The status tells how the last event ended: healthy exactly after a successful check, down exactly
   * after a failed check of a row that is disabled by then, degraded after any other event, and unknown
   * only before the first one.  A success leaves the row enabled, a failure never enables it.
   */
  lemma StatusTellsTheLastEvent(es: seq<Event>, c: Config)
    ensures
      var row := Run(FreshRow(), es, c);
      && (row.status.Unknown? <==> es == [])
      && (row.status.Healthy? <==> es != [] && es[|es| - 1].Checked? && es[|es| - 1].check.ok)
      && (row.status.Down? <==>
            es != [] && es[|es| - 1].Checked? && !es[|es| - 1].check.ok && row.autoDisabled)
      && (row.status.Degraded? <==>
            es != [] && (es[|es| - 1].Checked? ==> !es[|es| - 1].check.ok && !row.autoDisabled))
    ensures
      es != [] ==>
        var before, row := Run(FreshRow(), es[..|es| - 1], c), Run(FreshRow(), es, c);
        match es[|es| - 1]
        case ConfigError => row.autoDisabled == before.autoDisabled && row.failures == before.failures
        case Checked(check) =>
          && (check.ok ==> !row.autoDisabled && row.failures == 0)
          && (!check.ok && (before.autoDisabled || !check.disables) ==> row.autoDisabled == before.autoDisabled)
  {
  }

  /** An event sends a notice exactly when it changes the disabled flag, and the one that names the change. */
  lemma NoticesTellTransitions(row: Row, e: Event, c: Config)
    ensures Notices(row, e, c) ==
            if row.autoDisabled == Step(row, e, c).autoDisabled then []
            else if row.autoDisabled then [Reenabled] else [Disabled]
  {
  }

  /** Notices alternate, a disabling first, and the row is disabled exactly after an odd number of them. */
  lemma {:induction false} NoticesAlternate(es: seq<Event>, c: Config)
    ensures
      var notices := AllNotices(FreshRow(), es, c);
      && (forall i :: 0 <= i < |notices| ==> notices[i] == if i % 2 == 0 then Disabled else Reenabled)
      && (Run(FreshRow(), es, c).autoDisabled <==> |notices| % 2 == 1)
    decreases |es|
  {
    if es != [] {
      NoticesTellTransitions(Run(FreshRow(), es[..|es| - 1], c), es[|es| - 1], c);
      NoticesAlternate(es[..|es| - 1], c);
    }
  }

  // ---------------------------------------------------------------------------------------------
  // The row as the repositories update it.
  // ---------------------------------------------------------------------------------------------

  class Entity {
    var status: Status
    var autoDisabled: bool
    var consecutiveFailures: nat
    var lastFailureAt: Option<int>
    var notices: seq<Notice>

    constructor ()
      ensures View() == FreshRow() && notices == []
    {
      status, autoDisabled, consecutiveFailures, lastFailureAt, notices := Unknown, false, 0, None, [];
    }

    ghost function View(): Row
      reads this
    {
      Row(status, autoDisabled, consecutiveFailures, lastFailureAt)
    }

    method RecordSuccess()
      modifies this`status, this`consecutiveFailures
      ensures View() == old(View()).(status := Healthy, failures := 0)
    {
      status, consecutiveFailures := Healthy, 0;
    }

    /** Reads the row, then writes it back with one more failure; a disabled row shows as down. */
    method RecordFailure(now: int)
      modifies this`status, this`consecutiveFailures, this`lastFailureAt
      ensures View() == old(View()).(
                status := if autoDisabled then Down else Degraded,
                failures := old(consecutiveFailures) + 1,
                lastFailureAt := Some(now))
    {
      var current := consecutiveFailures;
      status := if autoDisabled then Down else Degraded;
      lastFailureAt := Some(now);
      consecutiveFailures := current + 1;
    }

    method ResetFailures()
      modifies this`consecutiveFailures
      ensures View() == old(View()).(failures := 0)
    {
      consecutiveFailures := 0;
    }

    method MarkAutoDisabled()
      modifies this`autoDisabled, this`status
      ensures View() == old(View()).(autoDisabled := true, status := Down)
    {
      autoDisabled, status := true, Down;
    }

    method MarkAutoReenabled()
      modifies this`autoDisabled, this`status, this`consecutiveFailures
      ensures View() == old(View()).(autoDisabled := false, status := Healthy, failures := 0)
    {
      autoDisabled, status, consecutiveFailures := false, Healthy, 0;
    }

    method MarkConfigError()
      modifies this`status
      ensures View() == Step(old(View()), ConfigError, Config(0, 0)) == old(View()).(status := Degraded)
    {
      status := Degraded;
    }

    /** Applying one check result, statement by statement, is one step of the model with its notices. */
    method ApplyHealthResult(check: Check, c: Config)
      modifies this
      ensures View() == Step(old(View()), Checked(check), c)
      ensures notices == old(notices) + Notices(old(View()), Checked(check), c)
      ensures check.ok ==> status == Healthy && !autoDisabled && consecutiveFailures == 0
      ensures !check.ok ==> status == if autoDisabled then Down else Degraded
      ensures !check.ok && (old(autoDisabled) || !check.disables) ==> autoDisabled == old(autoDisabled)
    {
      if check.ok {
        if autoDisabled {
          MarkAutoReenabled();
          notices := notices + [Reenabled];
        } else {
          RecordSuccess();
        }
        return;
      }
      if !autoDisabled && consecutiveFailures != 0 && lastFailureAt.Some?
         && check.at - lastFailureAt.value > c.windowMs {
        ResetFailures();
      }
      RecordFailure(check.recordedAt);
      if consecutiveFailures >= c.threshold && !autoDisabled && check.disables {
        MarkAutoDisabled();
        notices := notices + [Disabled];
      }
    }
  }
}
