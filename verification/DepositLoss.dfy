/**
 * When a recorded deposit is credited and when it is lost.  A job that won its order credits it only
 * after writing a row for each of its new logs; a key that some other job recorded in the meantime
 * makes that INSERT throw, and the order is then confirmed but never credited.
 */
module DepositLoss {
  import opened Prelude
  import opened Decimals
  import opened Ledger
  import opened Deposits

  ghost predicate HasCredit(s: State, o: nat) {
    exists i :: 0 <= i < |s.credits| && s.credits[i].order == o
  }

  /** Some continuation credits the order. */
  ghost predicate CanBeCredited(s: State, o: nat)
    requires s.unit >= 1
  {
    exists es :: HasCredit(Run(s, es), o)
  }

  /** The logs a job that won its order still has to record. */
  function ToRecord(job: Job): seq<Transfer> {
    match job
    case Won(_, news) => news
    case Writing(_, _, rest, _, _) => rest
    case _ => []
  }

  /** Nothing stands in the way of the job: its keys are free, and the agent it has to read exists. */
  ghost predicate Unhindered(s: State, job: Job) {
    && (job.Won? || job.Writing?)
    && KeysOf(ToRecord(job)) !! Keys(s.ledger)
    && (job.Won? ==> job.order in s.orders && s.orders[job.order].agent in s.balances)
  }

  // ---------------------------------------------------------------------------------------------
  // An unhindered job can finish.
  // ---------------------------------------------------------------------------------------------

  ghost predicate SoundJob(s: State, job: Job)
    requires s.unit >= 1
  {
    && DistinctKeys(ToRecord(job))
    && (job.Writing? ==> job.total >= 0 && job.total % s.unit == 0)
  }

  /** The job has recorded the rest of its batch as chained rows and credited the exact sum. */
  ghost predicate Finished(s: State, j: nat, s': State)
    requires s.unit >= 1 && j < |s.jobs| && s.jobs[j].Writing?
  {
    var Writing(o, agent, rest, running, total) := s.jobs[j];
    && s'.ledger == s.ledger + DepositRows(agent, j, running, rest, s.unit)
    && s'.credits == s.credits + [Credit(o, agent, total + Total(rest, s.unit))]
    && s'.jobs == s.jobs[j := Done] && s'.orders == s.orders && s'.balances.Keys == s.balances.Keys
  }

  lemma FinishedAfterWrite(s: State, j: nat, s': State)
    requires s.unit >= 1 && j < |s.jobs| && s.jobs[j].Writing? && s.jobs[j].rest != []
    requires KeyOf(s.jobs[j].rest[0]) !in Keys(s.ledger)
    requires s.jobs[j].total >= 0 && s.jobs[j].total % s.unit == 0
    requires Step(s, Write(j)).jobs[j].Writing? ==> Finished(Step(s, Write(j)), j, s')
    ensures Finished(s, j, s')
  {
    WriteOne(s, j);
    var Writing(o, agent, rest, running, total) := s.jobs[j];
    var row := DepositRow(agent, j, running, rest[0], s.unit);
    var rows := DepositRows(agent, j, row.after, rest[1..], s.unit);
    assert s.ledger + ([row] + rows) == (s.ledger + [row]) + rows;
    assert Step(s, Write(j)).jobs[j := Done] == s.jobs[j := Done];
  }

  lemma {:induction false} WritingFinishes(s: State, j: nat) returns (es: seq<Event>)
    requires s.unit >= 1 && j < |s.jobs| && s.jobs[j].Writing? && SoundJob(s, s.jobs[j]) && Unhindered(s, s.jobs[j])
    ensures Finished(s, j, Run(s, es))
    ensures forall i :: 0 <= i < |es| ==> es[i].Write? || es[i].CreditTotal?
    decreases |s.jobs[j].rest|
  {
    if s.jobs[j].rest == [] {
      es := [CreditTotal(j)];
      RunCons(s, CreditTotal(j), []);
      assert [CreditTotal(j)] + [] == es && s.ledger + [] == s.ledger;
    } else {
      TailWindow(s.jobs[j].rest);
      WriteOne(s, j);
      var more := WritingFinishes(Step(s, Write(j)), j);
      es := [Write(j)] + more;
      RunCons(s, Write(j), more);
      FinishedAfterWrite(s, j, Run(s, es));
    }
  }

  lemma JobFinishes(s: State, j: nat) returns (es: seq<Event>)
    requires s.unit >= 1 && j < |s.jobs| && SoundJob(s, s.jobs[j]) && Unhindered(s, s.jobs[j])
    ensures HasCredit(Run(s, es), s.jobs[j].order)
  {
    var o, s1 := s.jobs[j].order, s;
    if s.jobs[j].Won? {
      s1 := Step(s, ReadAgent(j));
      MultipleHasNoRemainder(0, s.unit);
    }
    var more := WritingFinishes(s1, j);
    es := if s.jobs[j].Won? then [ReadAgent(j)] + more else more;
    RunCons(s, ReadAgent(j), more);
    var credits := Run(s1, more).credits;
    assert credits[|credits| - 1].order == o;
  }

  // ---------------------------------------------------------------------------------------------
  // A hindered job never credits its order, and no other job can.
  // ---------------------------------------------------------------------------------------------

  /** The order was won, is not credited, and whoever won it cannot go through. */
  ghost predicate Doomed(s: State, o: nat) {
    && o in s.orders && s.orders[o].status.Confirmed? && !HasCredit(s, o)
    && forall j :: 0 <= j < |s.jobs| && Claims(s.jobs[j], o) ==> !Unhindered(s, s.jobs[j])
  }

  lemma DoomedJobStep(s: State, e: Event, o: nat, j: nat)
    requires s.unit >= 1 && Doomed(s, o) && j < |Step(s, e).jobs| && Claims(Step(s, e).jobs[j], o)
    ensures !Unhindered(Step(s, e), Step(s, e).jobs[j])
  {
    var s' := Step(s, e);
    ClaimsComeFromClaims(s, e, o, j);
    if Unhindered(s', s'.jobs[j]) {
      HinderedStaysHindered(s, e, j, o);
    }
  }

  lemma ClaimsComeFromClaims(s: State, e: Event, o: nat, j: nat)
    requires s.unit >= 1 && o in s.orders && !s.orders[o].status.Pending?
    requires j < |Step(s, e).jobs| && Claims(Step(s, e).jobs[j], o)
    ensures j < |s.jobs| && Claims(s.jobs[j], o)
  {
    if j >= |s.jobs| {
      NewJobs(s, e, j);
    } else {
      OthersLeaveTheJob(s, e, j);
    }
  }

  /** A job that keeps its claim over a step has the same logs to record, or one less. */
  lemma ClaimantStep(s: State, e: Event, j: nat, o: nat)
    requires s.unit >= 1 && j < |s.jobs| && Claims(s.jobs[j], o) && o in s.orders && !s.orders[o].status.Pending?
    requires j < |Step(s, e).jobs| && (Step(s, e).jobs[j].Won? || Step(s, e).jobs[j].Writing?)
    ensures
      var job, job' := s.jobs[j], Step(s, e).jobs[j];
      && (job.Won? || job.Writing?)
      && (job.Won? && job'.Writing? ==> s.orders[o].agent in s.balances)
      && (ToRecord(job') == ToRecord(job)
          || (ToRecord(job) != [] && ToRecord(job') == ToRecord(job)[1..]
              && KeyOf(ToRecord(job)[0]) !in Keys(s.ledger)))
  {
    OthersLeaveTheJob(s, e, j);
  }

  lemma HinderedStaysHindered(s: State, e: Event, j: nat, o: nat)
    requires s.unit >= 1 && j < |s.jobs| && Claims(s.jobs[j], o) && o in s.orders && !s.orders[o].status.Pending?
    requires j < |Step(s, e).jobs| && Claims(Step(s, e).jobs[j], o) && Unhindered(Step(s, e), Step(s, e).jobs[j])
    ensures Unhindered(s, s.jobs[j])
  {
    var work, work' := ToRecord(s.jobs[j]), ToRecord(Step(s, e).jobs[j]);
    ClaimantStep(s, e, j, o);
    SettledOrderStep(s, e, o);
    KeysOnlyGrow(s, e);
    BalancesKeepAgents(s, e);
    if work' != work {
      assert work == [work[0]] + work[1..];
      assert KeysOf(work) == {KeyOf(work[0])} + KeysOf(work[1..]);
    }
  }

  lemma CreditComesFromAClaim(s: State, e: Event, o: nat)
    requires s.unit >= 1 && !HasCredit(s, o) && HasCredit(Step(s, e), o)
    ensures e.CreditTotal? && e.job < |s.jobs| && Claims(s.jobs[e.job], o)
    ensures s.jobs[e.job].Writing? && s.jobs[e.job].rest == []
  {
  }

  lemma NothingLeftIsUnhindered(s: State, job: Job)
    requires job.Writing? && job.rest == []
    ensures Unhindered(s, job)
  {
  }

  lemma DoomedStep(s: State, e: Event, o: nat)
    requires s.unit >= 1 && Doomed(s, o)
    ensures Doomed(Step(s, e), o)
  {
    var s' := Step(s, e);
    SettledOrderStep(s, e, o);
    if HasCredit(s', o) {
      CreditComesFromAClaim(s, e, o);
      NothingLeftIsUnhindered(s, s.jobs[e.job]);
    }
    forall j | 0 <= j < |s'.jobs| && Claims(s'.jobs[j], o)
      ensures !Unhindered(s', s'.jobs[j])
    {
      DoomedJobStep(s, e, o, j);
    }
  }

  lemma {:induction false} DoomedStays(s: State, es: seq<Event>, o: nat)
    requires s.unit >= 1 && Doomed(s, o)
    ensures Doomed(Run(s, es), o)
    decreases |es|
  {
    if es != [] {
      DoomedStep(s, es[0], o);
      DoomedStays(Step(s, es[0]), es[1..], o);
    }
  }

  // ---------------------------------------------------------------------------------------------
  // The exact condition, in every reachable state.
  // ---------------------------------------------------------------------------------------------

  ghost predicate DistinctJob(job: Job) {
    match job
    case Fetched(_, logs) => DistinctKeys(logs)
    case Filtered(_, news) => DistinctKeys(news)
    case _ => DistinctKeys(ToRecord(job))
  }

  ghost predicate DistinctInv(s: State) {
    forall j :: 0 <= j < |s.jobs| ==> DistinctJob(s.jobs[j])
  }

  lemma OwnStepKeepsDistinct(s: State, e: Event, j: nat)
    requires s.unit >= 1 && j < |s.jobs| && DistinctJob(s.jobs[j]) && Concerns(e, j) && !e.Filter? && !e.Write?
    ensures DistinctJob(Step(s, e).jobs[j])
  {
  }

  lemma FilterKeepsDistinct(s: State, j: nat)
    requires s.unit >= 1 && j < |s.jobs| && DistinctJob(s.jobs[j])
    ensures DistinctJob(Step(s, Filter(j)).jobs[j])
  {
    if s.jobs[j].Fetched? {
      NewLogsAreNew(s.ledger, s.jobs[j].logs);
    }
  }

  lemma WriteKeepsDistinct(s: State, j: nat)
    requires s.unit >= 1 && j < |s.jobs| && DistinctJob(s.jobs[j])
    ensures DistinctJob(Step(s, Write(j)).jobs[j])
  {
    if s.jobs[j].Writing? && s.jobs[j].rest != [] {
      TailWindow(s.jobs[j].rest);
    }
  }

  lemma DistinctAt(s: State, e: Event, j: nat)
    requires s.unit >= 1 && j < |s.jobs| && DistinctJob(s.jobs[j])
    ensures j < |Step(s, e).jobs| && DistinctJob(Step(s, e).jobs[j])
  {
    OthersLeaveTheJob(s, e, j);
    if e == Filter(j) {
      FilterKeepsDistinct(s, j);
    } else if e == Write(j) {
      WriteKeepsDistinct(s, j);
    } else if Concerns(e, j) {
      OwnStepKeepsDistinct(s, e, j);
    }
  }

  lemma DistinctStep(s: State, e: Event)
    requires s.unit >= 1 && DistinctInv(s)
    ensures DistinctInv(Step(s, e))
  {
    var s' := Step(s, e);
    forall j: nat | j < |s'.jobs|
      ensures DistinctJob(s'.jobs[j])
    {
      if j < |s.jobs| {
        DistinctAt(s, e, j);
      } else {
        NewJobs(s, e, j);
      }
    }
  }

  lemma {:induction false} DistinctRun(s: State, es: seq<Event>)
    requires s.unit >= 1 && DistinctInv(s) && CreditInv(s)
    ensures DistinctInv(Run(s, es)) && CreditInv(Run(s, es))
    decreases |es|
  {
    if es != [] {
      DistinctStep(s, es[0]);
      CreditInvStep(s, es[0]);
      DistinctRun(Step(s, es[0]), es[1..]);
    }
  }

  lemma ReachableJobsAreSound(s: State, es: seq<Event>)
    requires Init(s)
    ensures DistinctInv(Run(s, es)) && TotalsInv(Run(s, es)) && CreditInv(Run(s, es))
  {
    DistinctRun(s, es);
    TallyZero(s.ledger, Deposited(0));
    ConservedRun(s, es, s.balances, 0);
  }

  lemma OtherClaimantsAreNone(s: State, j: nat, o: nat)
    requires CreditInv(s) && j < |s.jobs| && Claims(s.jobs[j], o)
    ensures o in s.orders && s.orders[o].status.Confirmed? && !HasCredit(s, o)
    ensures forall k :: 0 <= k < |s.jobs| && Claims(s.jobs[k], o) ==> k == j
  {
  }

  lemma HinderedIsNeverCredited(s: State, j: nat, o: nat, es: seq<Event>)
    requires s.unit >= 1 && CreditInv(s) && j < |s.jobs| && Claims(s.jobs[j], o) && !Unhindered(s, s.jobs[j])
    ensures !HasCredit(Run(s, es), o)
  {
    OtherClaimantsAreNone(s, j, o);
    DoomedStays(s, es, o);
  }

  /**
   * In every reachable state, an order that a job has won can still be credited if and only if none
   * of the keys the job has yet to record is in the ledger, and its agent is there to be read.  If one
   * is, no continuation whatsoever credits the order, although it is confirmed.
   */
  lemma CreditedExactlyIfKeysAreFree(s0: State, es0: seq<Event>, j: nat)
    requires Init(s0) && j < |Run(s0, es0).jobs|
    requires Run(s0, es0).jobs[j].Won? || Run(s0, es0).jobs[j].Writing?
    ensures var s := Run(s0, es0);
            var job := s.jobs[j];
            CanBeCredited(s, job.order) <==>
            && KeysOf(ToRecord(job)) !! Keys(s.ledger)
            && (job.Won? ==> job.order in s.orders && s.orders[job.order].agent in s.balances)
  {
    var s := Run(s0, es0);
    var job := s.jobs[j];
    ReachableJobsAreSound(s0, es0);
    assert DistinctJob(job) && Claims(job, job.order);
    if Unhindered(s, job) {
      var es := JobFinishes(s, j);
    } else {
      forall es
        ensures !HasCredit(Run(s, es), job.order)
      {
        HinderedIsNeverCredited(s, j, job.order, es);
      }
    }
  }

  // ---------------------------------------------------------------------------------------------
  // What a hindered job leaves behind.
  // ---------------------------------------------------------------------------------------------

  function Writes(j: nat, n: nat): seq<Event> {
    if n == 0 then [] else [Write(j)] + Writes(j, n - 1)
  }

  /** The state in which the job stopped at log number `m` of the rest of its batch. */
  ghost predicate StoppedAt(s: State, j: nat, m: nat, s': State)
    requires s.unit >= 1 && j < |s.jobs| && s.jobs[j].Writing? && m < |s.jobs[j].rest|
  {
    var Writing(o, agent, rest, running, total) := s.jobs[j];
    s' == s.(ledger := s.ledger + DepositRows(agent, j, running, rest[..m], s.unit),
             jobs := s.jobs[j := Aborted(o, agent, total + Total(rest[..m], s.unit))])
  }

  lemma StoppedAfterWrite(s: State, j: nat, m: nat, s': State)
    requires s.unit >= 1 && j < |s.jobs| && s.jobs[j].Writing? && m + 1 < |s.jobs[j].rest|
    requires KeyOf(s.jobs[j].rest[0]) !in Keys(s.ledger)
    requires s.jobs[j].total >= 0 && s.jobs[j].total % s.unit == 0
    requires Step(s, Write(j)).jobs[j].Writing? && m < |Step(s, Write(j)).jobs[j].rest| ==>
               StoppedAt(Step(s, Write(j)), j, m, s')
    ensures StoppedAt(s, j, m + 1, s')
  {
    WriteOne(s, j);
    var Writing(o, agent, rest, running, total) := s.jobs[j];
    var row := DepositRow(agent, j, running, rest[0], s.unit);
    assert rest[..m + 1][0] == rest[0] && rest[..m + 1][1..] == rest[1..][..m];
    var rows := DepositRows(agent, j, row.after, rest[1..][..m], s.unit);
    assert s.ledger + ([row] + rows) == (s.ledger + [row]) + rows;
  }

  lemma StoppedAtOnce(s: State, j: nat)
    requires s.unit >= 1 && j < |s.jobs| && s.jobs[j].Writing?
    requires s.jobs[j].rest != [] && KeyOf(s.jobs[j].rest[0]) in Keys(s.ledger)
    ensures StoppedAt(s, j, 0, Step(s, Write(j)))
  {
    assert s.ledger + [] == s.ledger;
  }

  /**
   * A job whose batch meets a recorded key at log `m` records the logs before it, as chained rows, and
   * throws: what it recorded is in the ledger, its order confirmed, and the sum of it uncredited.
   */
  lemma {:induction false} OverlapAbortsAJob(s: State, j: nat, m: nat)
    requires s.unit >= 1 && j < |s.jobs| && s.jobs[j].Writing? && SoundJob(s, s.jobs[j])
    requires m < |s.jobs[j].rest| && KeyOf(s.jobs[j].rest[m]) in Keys(s.ledger)
    requires forall i :: 0 <= i < m ==> KeyOf(s.jobs[j].rest[i]) !in Keys(s.ledger)
    ensures StoppedAt(s, j, m, Run(s, Writes(j, m + 1)))
    decreases m
  {
    var rest := s.jobs[j].rest;
    RunCons(s, Write(j), Writes(j, m));
    if m == 0 {
      StoppedAtOnce(s, j);
    } else {
      WriteOne(s, j);
      KeysBehind(rest, m, Keys(s.ledger));
      OverlapAbortsAJob(Step(s, Write(j)), j, m - 1);
      StoppedAfterWrite(s, j, m - 1, Run(Step(s, Write(j)), Writes(j, m)));
    }
  }

  lemma KeysBehind(rest: seq<Transfer>, m: nat, keys: set<Key>)
    requires DistinctKeys(rest) && 0 < m < |rest|
    requires forall i :: 0 <= i < m ==> KeyOf(rest[i]) !in keys
    ensures DistinctKeys(rest[1..]) && rest[1..][m - 1] == rest[m]
    ensures forall i :: 0 <= i < m - 1 ==> KeyOf(rest[1..][i]) !in keys + {KeyOf(rest[0])}
  {
    TailWindow(rest);
    forall i | 0 <= i < m - 1
      ensures KeyOf(rest[1..][i]) !in keys + {KeyOf(rest[0])}
    {
      assert rest[1..][i] == rest[i + 1];
    }
  }

  // ---------------------------------------------------------------------------------------------
  // Two scans, from the start: they can lose an order exactly if their new logs overlap.
  // ---------------------------------------------------------------------------------------------

  /** Confirmed, and no continuation credits it. */
  ghost predicate Lost(s: State, o: nat)
    requires s.unit >= 1
  {
    o in s.orders && s.orders[o].status.Confirmed? && !CanBeCredited(s, o)
  }

  /** Two scans load their orders, fetch logs and filter them, both before either records anything. */
  function Gathering(o: nat, logs: seq<Transfer>, p: nat, more: seq<Transfer>, now: int): seq<Event> {
    [StartScan(o, now), StartScan(p, now), Fetch(0, logs), Fetch(1, more), Filter(0), Filter(1)]
  }

  function Found(o: nat, news: seq<Transfer>): Job {
    if news == [] then Done else Filtered(o, news)
  }

  ghost predicate MayScan(s: State, o: nat, now: int) {
    && o in s.orders && s.orders[o].status.Pending? && now - s.orders[o].createdAt <= TOPUP_SCAN_TTL_MS
    && s.orders[o].agent in s.balances
  }

  lemma GatheringRun(s: State, o: nat, logs: seq<Transfer>, p: nat, more: seq<Transfer>, now: int)
    requires Init(s) && MayScan(s, o, now) && MayScan(s, p, now) && DistinctKeys(logs) && DistinctKeys(more)
    ensures Run(s, Gathering(o, logs, p, more, now)) ==
            s.(jobs := [Found(o, NewLogs(s.ledger, logs)), Found(p, NewLogs(s.ledger, more))])
  {
    var es := Gathering(o, logs, p, more, now);
    var s1 := Step(s, es[0]);
    var s2 := Step(s1, es[1]);
    assert s2.jobs == [Loaded(o), Loaded(p)];
    var s3 := Step(s2, es[2]);
    var s4 := Step(s3, es[3]);
    assert s4.jobs == [Fetched(o, logs), Fetched(p, more)];
    var s5 := Step(s4, es[4]);
    var s6 := Step(s5, es[5]);
    SixSteps(s, es);
  }

  lemma SixSteps(s: State, es: seq<Event>)
    requires s.unit >= 1 && |es| == 6
    ensures Run(s, es) == Step(Step(Step(Step(Step(Step(s, es[0]), es[1]), es[2]), es[3]), es[4]), es[5])
  {
    var s3 := Step(Step(Step(s, es[0]), es[1]), es[2]);
    ThreeSteps(s3, es[3..]);
    ThreeSteps(s, es[..3]);
    RunAppend(s, es[..3], es[3..]);
    assert es == es[..3] + es[3..];
  }

  lemma ThreeSteps(s: State, es: seq<Event>)
    requires s.unit >= 1 && |es| == 3
    ensures Run(s, es) == Step(Step(Step(s, es[0]), es[1]), es[2])
  {
    RunCons(Step(Step(s, es[0]), es[1]), es[2], []);
    RunCons(Step(s, es[0]), es[1], [es[2]]);
    RunCons(s, es[0], [es[1], es[2]]);
    assert [es[2]] + [] == [es[2]] && [es[1]] + [es[2]] == [es[1], es[2]];
    assert [es[0]] + [es[1], es[2]] == es;
  }

  /** The statements by which a scan settles its order. */
  predicate Settling(e: Event) {
    e.Confirm? || e.ReadAgent? || e.Write? || e.CreditTotal?
  }

  predicate AllSettle(es: seq<Event>) {
    forall i :: 0 <= i < |es| ==> Settling(es[i])
  }

  /** Job `j` handles order `o` and has not run into anything. */
  ghost predicate OnCourse(s: State, j: nat, o: nat) {
    && j < |s.jobs| && o in s.orders && s.orders[o].agent in s.balances
    && match s.jobs[j]
       case Filtered(p, _) => p == o && s.orders[o].status.Pending?
       case Won(p, _) => p == o
       case Writing(p, _, _, _, _) => p == o
       case Done => s.orders[o].status.Pending? || HasCredit(s, o)
       case _ => false
  }

  lemma CourseStep(s: State, e: Event, j: nat, o: nat)
    requires s.unit >= 1 && WindowInv(s) && OnCourse(s, j, o) && Settling(e)
    requires e.Confirm? && e.job != j && At(s, e.job).Filtered? ==> At(s, e.job).order != o
    ensures OnCourse(Step(s, e), j, o)
  {
    var s' := Step(s, e);
    if e.job == j {
      OwnCourseStep(s, e, j, o);
    } else {
      assert s'.jobs[j] == s.jobs[j] && s'.orders[o] == s.orders[o] && s'.balances.Keys == s.balances.Keys;
      if HasCredit(s, o) {
        CreditsStay(s, e, o);
      }
    }
  }

  lemma CreditsStay(s: State, e: Event, o: nat)
    requires s.unit >= 1 && HasCredit(s, o)
    ensures HasCredit(Step(s, e), o)
  {
    var i :| 0 <= i < |s.credits| && s.credits[i].order == o;
    assert Step(s, e).credits[i] == s.credits[i];
  }

  lemma OwnCourseStep(s: State, e: Event, j: nat, o: nat)
    requires s.unit >= 1 && WindowInv(s) && OnCourse(s, j, o) && Settling(e) && e.job == j
    ensures OnCourse(Step(s, e), j, o)
  {
    var job := s.jobs[j];
    if e.Write? && job.Writing? && job.rest != [] {
      assert KeyOf(job.rest[0]) in Window(job);
    } else if e.CreditTotal? && job.Writing? && job.rest == [] {
      var credits := Step(s, e).credits;
      assert credits[|credits| - 1].order == o;
    }
  }

  /** Windows only shrink while orders are being settled. */
  lemma SettlingShrinks(s: State, e: Event, j: nat)
    requires s.unit >= 1 && Settling(e) && j < |s.jobs|
    ensures |Step(s, e).jobs| == |s.jobs| && Window(Step(s, e).jobs[j]) <= Window(s.jobs[j])
  {
  }

  ghost predicate BothOnCourse(s: State, o: nat, p: nat) {
    |s.jobs| == 2 && OnCourse(s, 0, o) && OnCourse(s, 1, p) && WindowInv(s) && Disjoint(s)
  }

  lemma BothStep(s: State, e: Event, o: nat, p: nat)
    requires s.unit >= 1 && o != p && BothOnCourse(s, o, p) && Settling(e)
    ensures BothOnCourse(Step(s, e), o, p)
  {
    CourseStep(s, e, 0, o);
    CourseStep(s, e, 1, p);
    WindowInvStep(s, e);
    SettlingShrinks(s, e, 0);
    SettlingShrinks(s, e, 1);
  }

  lemma {:induction false} BothStayOnCourse(s: State, es: seq<Event>, o: nat, p: nat)
    requires s.unit >= 1 && o != p && BothOnCourse(s, o, p) && AllSettle(es)
    ensures BothOnCourse(Run(s, es), o, p)
    decreases |es|
  {
    if es != [] {
      BothStep(s, es[0], o, p);
      BothStayOnCourse(Step(s, es[0]), es[1..], o, p);
    }
  }

  lemma OnCourseIsNotLost(s0: State, es0: seq<Event>, j: nat, o: nat)
    requires Init(s0)
    requires WindowInv(Run(s0, es0)) && OnCourse(Run(s0, es0), j, o)
    ensures !Lost(Run(s0, es0), o)
  {
    var s := Run(s0, es0);
    var job := s.jobs[j];
    if job.Won? || job.Writing? {
      assert Window(job) !! Keys(s.ledger);
      CreditedExactlyIfKeysAreFree(s0, es0, j);
    } else if HasCredit(s, o) {
      assert HasCredit(Run(s, []), o);
    }
  }

  lemma RecordedKeys(ledger: seq<Row>, agent: nat, j: nat, running: int, news: seq<Transfer>, unit: nat, t: Transfer)
    requires unit >= 1 && t in news
    ensures KeyOf(t) in Keys(ledger + DepositRows(agent, j, running, news, unit))
  {
    var rows := DepositRows(agent, j, running, news, unit);
    DepositRowsChain(agent, j, running, news, unit);
    var i :| 0 <= i < |news| && news[i] == t;
    assert (ledger + rows)[|ledger| + i] == rows[i];
  }

  /** The first job goes through and has recorded the log; the second still holds what it found. */
  lemma FirstGoesThrough(s: State, o: nat, p: nat, news: seq<Transfer>, more: seq<Transfer>, t: Transfer)
    returns (es: seq<Event>)
    requires s.unit >= 1 && o != p && s.jobs == [Filtered(o, news), Filtered(p, more)]
    requires o in s.orders && s.orders[o].status.Pending? && s.orders[o].agent in s.balances
    requires p in s.orders && s.orders[p].status.Pending?
    requires DistinctKeys(news) && KeysOf(news) !! Keys(s.ledger) && t in news
    ensures AllSettle(es)
    ensures var s' := Run(s, es);
            && s'.jobs == [Done, Filtered(p, more)] && KeyOf(t) in Keys(s'.ledger)
            && p in s'.orders && s'.orders[p].status.Pending?
  {
    var win := [Confirm(0), ReadAgent(0)];
    WinAndRead(s, 0);
    var s1 := Run(s, win);
    MultipleHasNoRemainder(0, s.unit);
    var fin := WritingFinishes(s1, 0);
    es := win + fin;
    RunAppend(s, win, fin);
    RecordedKeys(s1.ledger, s1.jobs[0].agent, 0, s1.jobs[0].running, news, s.unit, t);
    assert s.jobs[0 := s1.jobs[0]][0 := Done] == [Done, Filtered(p, more)];
  }

  lemma StuckAfterConfirm(s: State, es0: seq<Event>, p: nat, more: seq<Transfer>, key: Key)
    requires Init(s)
    requires var s1 := Run(s, es0);
             && s1.jobs == [Done, Filtered(p, more)] && p in s1.orders && s1.orders[p].status.Pending?
             && key in KeysOf(more) && key in Keys(s1.ledger)
    ensures Lost(Run(s, es0 + [Confirm(1)]), p)
  {
    var s1 := Run(s, es0);
    RunCons(s1, Confirm(1), []);
    assert [Confirm(1)] + [] == [Confirm(1)];
    RunAppend(s, es0, [Confirm(1)]);
    assert Step(s1, Confirm(1)).jobs[1] == Won(p, more);
    CreditedExactlyIfKeysAreFree(s, es0 + [Confirm(1)], 1);
  }

  ghost predicate CanLose(s: State, o: nat, p: nat)
    requires s.unit >= 1
  {
    exists es :: AllSettle(es) && (Lost(Run(s, es), o) || Lost(Run(s, es), p))
  }

  lemma SecondScanIsLost(
      s: State, gather: seq<Event>, o: nat, p: nat, news: seq<Transfer>, more: seq<Transfer>, t: Transfer)
    requires Init(s) && o != p
    requires var s2 := Run(s, gather);
             && s2.jobs == [Filtered(o, news), Filtered(p, more)]
             && o in s2.orders && s2.orders[o].status.Pending? && s2.orders[o].agent in s2.balances
             && p in s2.orders && s2.orders[p].status.Pending?
             && KeysOf(news) !! Keys(s2.ledger)
    requires DistinctKeys(news) && t in news && KeyOf(t) in KeysOf(more)
    ensures CanLose(Run(s, gather), o, p)
  {
    var s2 := Run(s, gather);
    var first := FirstGoesThrough(s2, o, p, news, more, t);
    RunAppend(s, gather, first);
    StuckAfterConfirm(s, gather + first, p, more, KeyOf(t));
    var es := first + [Confirm(1)];
    assert gather + first + [Confirm(1)] == gather + es;
    RunAppend(s, gather, es);
    assert AllSettle(es) && Lost(Run(s2, es), p);
  }

  lemma NeitherIsLost(s: State, gather: seq<Event>, o: nat, p: nat, es: seq<Event>)
    requires Init(s) && o != p && BothOnCourse(Run(s, gather), o, p) && AllSettle(es)
    ensures !Lost(Run(Run(s, gather), es), o) && !Lost(Run(Run(s, gather), es), p)
  {
    BothStayOnCourse(Run(s, gather), es, o, p);
    RunAppend(s, gather, es);
    OnCourseIsNotLost(s, gather + es, 0, o);
    OnCourseIsNotLost(s, gather + es, 1, p);
  }

  lemma BothStartOnCourse(s: State, o: nat, news: seq<Transfer>, p: nat, more: seq<Transfer>)
    requires o in s.orders && s.orders[o].status.Pending? && s.orders[o].agent in s.balances
    requires p in s.orders && s.orders[p].status.Pending? && s.orders[p].agent in s.balances
    requires DistinctKeys(news) && DistinctKeys(more) && KeysOf(news) !! KeysOf(more)
    requires KeysOf(news) !! Keys(s.ledger) && KeysOf(more) !! Keys(s.ledger)
    ensures BothOnCourse(s.(jobs := [Found(o, news), Found(p, more)]), o, p)
  {
  }

  lemma NothingIsLost(s: State, gather: seq<Event>, o: nat, p: nat)
    requires Init(s) && o != p && BothOnCourse(Run(s, gather), o, p)
    ensures !CanLose(Run(s, gather), o, p)
  {
    forall es | AllSettle(es)
      ensures !Lost(Run(Run(s, gather), es), o) && !Lost(Run(Run(s, gather), es), p)
    {
      NeitherIsLost(s, gather, o, p, es);
    }
  }

  /**
   * Two scans of different orders fetch any logs and filter them against the same ledger.  Settling the
   * orders from there can lose one of them, confirmed and never credited in any continuation, if and
   * only if some log is new to both.
   */
  lemma ScansLoseAnOrderExactlyIfTheyOverlap(
      s: State, o: nat, logs: seq<Transfer>, p: nat, more: seq<Transfer>, now: int)
    requires Init(s) && o != p && MayScan(s, o, now) && MayScan(s, p, now)
    requires DistinctKeys(logs) && DistinctKeys(more)
    ensures CanLose(Run(s, Gathering(o, logs, p, more, now)), o, p) <==>
            !(KeysOf(NewLogs(s.ledger, logs)) !! KeysOf(NewLogs(s.ledger, more)))
  {
    var gather := Gathering(o, logs, p, more, now);
    var news, moreNews := NewLogs(s.ledger, logs), NewLogs(s.ledger, more);
    GatheringRun(s, o, logs, p, more, now);
    NewLogsAreNew(s.ledger, logs);
    NewLogsAreNew(s.ledger, more);
    if k :| k in KeysOf(news) && k in KeysOf(moreNews) {
      var t :| t in news && KeyOf(t) == k;
      SecondScanIsLost(s, gather, o, p, news, moreNews, t);
    } else {
      BothStartOnCourse(s, o, news, p, moreNews);
      NothingIsLost(s, gather, o, p);
    }
  }
}
