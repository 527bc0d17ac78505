/** The batch configuration object of one job name, updated in place, and shutdown over several of them. */
module BatchBuffer {
  import opened Decimals
  import opened Prelude
  import opened WriteQueue

  class Batch {
    const maxSize: int
    var ticking: bool
    var buffer: seq<Entry>
    var flushes: seq<Flush>
    var settled: seq<Settlement>
    var enqueued: seq<Entry>

    constructor (maxSize: int)
      ensures View() == Registered(maxSize)
    {
      this.maxSize := maxSize;
      ticking, buffer, flushes, settled, enqueued := true, [], [], [], [];
    }

    ghost function View(): State
      reads this
    {
      State(maxSize, ticking, buffer, flushes, settled, enqueued)
    }

    /** Takes the whole buffer out and starts one handler call on it; an empty buffer starts none. */
    method FlushBatch() returns (started: Option<nat>)
      modifies this`buffer, this`flushes
      ensures View() == FlushBuffer(old(View()))
      ensures started.Some? <==> old(buffer) != []
      ensures started.Some? ==> started.value == |old(flushes)| && flushes[started.value] == Flush(old(buffer), Running)
    {
      if |buffer| == 0 {
        return None;
      }
      var entries := buffer;
      buffer := [];
      started := Some(|flushes|);
      flushes := flushes + [Flush(entries, Running)];
    }

    /** Both producers: the in-process one (`awaited` false) and the queue consumer, whose promise waits. */
    method EnqueueEntry(data: string, awaited: bool)
      modifies this`buffer, this`flushes, this`enqueued
      ensures View() == Step(old(View()), Enqueue(data, awaited))
    {
      var entry := Entry(|enqueued|, data, awaited);
      enqueued := enqueued + [entry];
      buffer := buffer + [entry];
      if |buffer| >= maxSize {
        var _ := FlushBatch();
      }
    }

    /** While the timer is set, a tick hands the whole buffer over in one call. */
    method TimerTick()
      modifies this`buffer, this`flushes
      ensures View() == Step(old(View()), Tick)
      ensures ticking ==> buffer == []
      ensures ticking && old(buffer) != [] ==> flushes == old(flushes) + [Flush(old(buffer), Running)]
      ensures !ticking || old(buffer) == [] ==> buffer == old(buffer) && flushes == old(flushes)
    {
      if ticking {
        var _ := FlushBatch();
      }
    }

    /** The handler of one batch is done: settle its awaited entries in order; a failed batch counts nothing. */
    method CompleteFlush(f: nat, ok: bool) returns (count: nat)
      requires f < |flushes| && flushes[f].flight.Running?
      modifies this`flushes, this`settled
      ensures View() == Step(old(View()), Complete(f, ok))
      ensures count == if ok then |old(flushes)[f].entries| else 0
    {
      var entries := flushes[f].entries;
      var outcome := if ok then Resolved else Rejected;
      flushes := flushes[f := flushes[f].(flight := if ok then Succeeded else Failed)];
      var i := 0;
      assert entries[0..] == entries;
      while i < |entries|
        invariant 0 <= i <= |entries|
        invariant flushes == old(flushes)[f := Flush(entries, if ok then Succeeded else Failed)]
        invariant settled + Settlements(entries[i..], outcome) == old(settled) + Settlements(entries, outcome)
      {
        assert entries[i..][1..] == entries[i + 1..];
        if entries[i].awaited {
          settled := settled + [Settlement(entries[i].id, outcome)];
        }
        i := i + 1;
      }
      assert entries[i..] == [] && settled + [] == settled;
      count := if ok then |entries| else 0;
    }

    /** One stretch of code on this buffer; a completion of a call that is not running does nothing. */
    method Happen(e: Event)
      modifies this
      ensures View() == Step(old(View()), e)
    {
      match e
      case Enqueue(data, awaited) => EnqueueEntry(data, awaited);
      case Tick => TimerTick();
      case Shutdown =>
        StopTimer();
        var _ := FlushBatch();
      case FlushNow =>
        var _ := FlushBatch();
      case Complete(f, ok) =>
        if f < |flushes| && flushes[f].flight.Running? {
          var _ := CompleteFlush(f, ok);
        }
    }

    method StopTimer()
      modifies this`ticking
      ensures View() == old(View()).(ticking := false)
    {
      ticking := false;
    }
  }

  /** An event on the buffer of one job name, by its position. */
  datatype Elsewhere = Elsewhere(name: nat, event: Event)

  /** What happens to one job name, in order. */
  function Of(es: seq<Elsewhere>, name: nat): seq<Event> {
    if es == [] then []
    else Of(es[..|es| - 1], name) + if es[|es| - 1].name == name then [es[|es| - 1].event] else []
  }

  /**
   * The buffer of one job name from round `i` of a shutdown on: in its own round it is flushed first, and in
   * each round the events happen that come while the handler of that round is awaited.
   */
  function AfterRounds(s: State, name: nat, i: nat, rounds: seq<seq<Elsewhere>>): State
    requires i <= |rounds|
    decreases |rounds| - i
  {
    if i == |rounds| then s
    else AfterRounds(Run(if i == name then FlushBuffer(s) else s, Of(rounds[i], name)), name, i + 1, rounds)
  }

  lemma OfSnoc(es: seq<Elsewhere>, n: nat, name: nat)
    requires n < |es|
    ensures Of(es[..n + 1], name) == Of(es[..n], name) + if es[n].name == name then [es[n].event] else []
  {
    assert es[..n + 1][..n] == es[..n];
  }

  lemma RunOfSnoc(s: State, es: seq<Elsewhere>, n: nat, name: nat)
    requires n < |es|
    ensures Run(s, Of(es[..n + 1], name)) ==
            if es[n].name == name then Step(Run(s, Of(es[..n], name)), es[n].event) else Run(s, Of(es[..n], name))
  {
    OfSnoc(es, n, name);
    RunAppend(s, Of(es[..n], name), [es[n].event]);
    var s1 := Run(s, Of(es[..n], name));
    assert Run(s1, [es[n].event]) == Run(Step(s1, es[n].event), []);
    assert Of(es[..n], name) + [] == Of(es[..n], name);
  }

  /** Whatever other code runs while a handler is awaited. */
  method Await(batches: seq<Batch>, es: seq<Elsewhere>)
    requires forall i, j :: 0 <= i < j < |batches| ==> batches[i] != batches[j]
    modifies batches
    ensures forall k :: 0 <= k < |batches| ==> batches[k].View() == Run(old(batches[k].View()), Of(es, k))
  {
    var n := 0;
    while n < |es|
      invariant 0 <= n <= |es|
      invariant forall k :: 0 <= k < |batches| ==> batches[k].View() == Run(old(batches[k].View()), Of(es[..n], k))
    {
      forall k | 0 <= k < |batches|
        ensures Run(old(batches[k].View()), Of(es[..n + 1], k)) ==
                if es[n].name == k then Step(Run(old(batches[k].View()), Of(es[..n], k)), es[n].event)
                else Run(old(batches[k].View()), Of(es[..n], k))
      {
        RunOfSnoc(old(batches[k].View()), es, n, k);
      }
      if es[n].name < |batches| {
        batches[es[n].name].Happen(es[n].event);
      }
      n := n + 1;
    }
    assert es[..n] == es;
  }

  /** One buffer is flushed, and its handler awaited. */
  method CloseRound(batches: seq<Batch>, i: nat, es: seq<Elsewhere>)
    requires forall i, j :: 0 <= i < j < |batches| ==> batches[i] != batches[j]
    requires i < |batches|
    modifies batches
    ensures forall k :: 0 <= k < |batches| ==>
              batches[k].View() ==
              Run(if k == i then FlushBuffer(old(batches[k].View())) else old(batches[k].View()), Of(es, k))
  {
    if |batches[i].buffer| > 0 {
      var _ := batches[i].FlushBatch();
    }
    Await(batches, es);
  }

  /**
   * Shutdown: all timers are stopped before the first buffer is flushed, then every buffer is flushed in
   * turn, and the handler awaited.  `rounds[i]` is what other code does to any of the buffers meanwhile.
   */
  method CloseAll(batches: seq<Batch>, rounds: seq<seq<Elsewhere>>)
    requires forall i, j :: 0 <= i < j < |batches| ==> batches[i] != batches[j]
    requires |rounds| == |batches|
    modifies batches
    ensures forall k :: 0 <= k < |batches| ==>
              batches[k].View() == AfterRounds(old(batches[k].View()).(ticking := false), k, 0, rounds)
  {
    var i := 0;
    while i < |batches|
      invariant 0 <= i <= |batches|
      invariant forall k :: 0 <= k < i ==> batches[k].View() == old(batches[k].View()).(ticking := false)
      invariant forall k :: i <= k < |batches| ==> batches[k].View() == old(batches[k].View())
    {
      batches[i].StopTimer();
      i := i + 1;
    }
    i := 0;
    while i < |batches|
      invariant 0 <= i <= |batches|
      invariant forall k :: 0 <= k < |batches| ==>
                  AfterRounds(batches[k].View(), k, i, rounds) ==
                  AfterRounds(old(batches[k].View()).(ticking := false), k, 0, rounds)
    {
      CloseRound(batches, i, rounds[i]);
      i := i + 1;
    }
  }

  // ---------------------------------------------------------------------------------------------
  // What a shutdown leaves in a buffer.
  // ---------------------------------------------------------------------------------------------

  function Enqueues(es: seq<Event>): nat {
    if es == [] then 0 else (if es[0].Enqueue? then 1 else 0) + Enqueues(es[1..])
  }

  /** Enqueues and completions; once its timer is stopped, ticks do nothing to a buffer either. */
  predicate Ordinary(es: seq<Event>) {
    forall i :: 0 <= i < |es| ==> es[i].Enqueue? || es[i].Complete? || es[i].Tick?
  }

  lemma WrapAround(x: nat, m: nat)
    requires m >= 1
    ensures (m + x) % m == x % m
  {
    var q, r := x / m, x % m;
    assert m + x == m * (q + 1) + r;
    DivisionIsUnique(m + x, m, q + 1, r);
  }

  /** With its timer stopped, a buffer counts enqueues modulo its size limit. */
  lemma {:induction false} EnqueuesWrapAround(s: State, es: seq<Event>)
    requires !s.ticking && |s.buffer| < Max(s.maxSize, 1) && Ordinary(es)
    ensures var s' := Run(s, es);
            && !s'.ticking && s'.maxSize == s.maxSize
            && |s'.buffer| == (|s.buffer| + Enqueues(es)) % Max(s.maxSize, 1)
    decreases |es|
  {
    var m := Max(s.maxSize, 1);
    if es == [] {
      DivisionIsUnique(|s.buffer|, m, 0, |s.buffer|);
    } else {
      EnqueuesWrapAround(Step(s, es[0]), es[1..]);
      if es[0].Enqueue? && |s.buffer| + 1 == m {
        WrapAround(Enqueues(es[1..]), m);
      }
    }
  }

  /** Entries enqueued under a job name from its own round on. */
  function Late(name: nat, i: nat, rounds: seq<seq<Elsewhere>>): nat
    requires i <= |rounds|
    decreases |rounds| - i
  {
    if i == |rounds| then 0 else Enqueues(Of(rounds[i], name)) + Late(name, i + 1, rounds)
  }

  lemma {:induction false} OfIsOrdinary(es: seq<Elsewhere>, name: nat)
    requires forall i :: 0 <= i < |es| ==> es[i].event.Enqueue? || es[i].event.Complete? || es[i].event.Tick?
    ensures Ordinary(Of(es, name))
  {
    if es != [] {
      OfIsOrdinary(es[..|es| - 1], name);
    }
  }

  ghost predicate OrdinaryRounds(rounds: seq<seq<Elsewhere>>) {
    forall i, n :: 0 <= i < |rounds| && 0 <= n < |rounds[i]| ==>
      rounds[i][n].event.Enqueue? || rounds[i][n].event.Complete? || rounds[i][n].event.Tick?
  }

  lemma ModularSum(a: nat, b: nat, m: nat)
    requires m >= 1
    ensures (a % m + b) % m == (a + b) % m
  {
    var q, r := (a % m + b) / m, (a % m + b) % m;
    assert a + b == m * (a / m + q) + r;
    DivisionIsUnique(a + b, m, a / m + q, r);
  }

  lemma TwoRounds(a: nat, b: nat, c: nat, m: nat, middle: nat, end: nat)
    requires m >= 1 && middle == (a + b) % m && end == (middle + c) % m
    ensures end == (a + (b + c)) % m
  {
    ModularSum(a + b, c, m);
    assert a + b + c == a + (b + c);
  }

  lemma {:induction false} RoundsWrapAround(s: State, name: nat, i: nat, rounds: seq<seq<Elsewhere>>)
    requires !s.ticking && |s.buffer| < Max(s.maxSize, 1) && name < i <= |rounds| && OrdinaryRounds(rounds)
    ensures |AfterRounds(s, name, i, rounds).buffer| == (|s.buffer| + Late(name, i, rounds)) % Max(s.maxSize, 1)
    decreases |rounds| - i
  {
    var m := Max(s.maxSize, 1);
    if i == |rounds| {
      DivisionIsUnique(|s.buffer|, m, 0, |s.buffer|);
    } else {
      var es := Of(rounds[i], name);
      OfIsOrdinary(rounds[i], name);
      EnqueuesWrapAround(s, es);
      RoundsWrapAround(Run(s, es), name, i + 1, rounds);
      TwoRounds(|s.buffer|, Enqueues(es), Late(name, i + 1, rounds), m,
                |Run(s, es).buffer|, |AfterRounds(s, name, i, rounds).buffer|);
    }
  }

  lemma {:induction false} RoundsBefore(s: State, name: nat, i: nat, rounds: seq<seq<Elsewhere>>)
    requires !s.ticking && |s.buffer| < Max(s.maxSize, 1) && i <= name < |rounds| && OrdinaryRounds(rounds)
    ensures |AfterRounds(s, name, i, rounds).buffer| == Late(name, name, rounds) % Max(s.maxSize, 1)
    decreases name - i
  {
    var es := Of(rounds[i], name);
    OfIsOrdinary(rounds[i], name);
    if i < name {
      EnqueuesWrapAround(s, es);
      RoundsBefore(Run(s, es), name, i + 1, rounds);
    } else {
      EnqueuesWrapAround(FlushBuffer(s), es);
      RoundsWrapAround(Run(FlushBuffer(s), es), name, i + 1, rounds);
      ModularSum(Enqueues(es), Late(name, i + 1, rounds), Max(s.maxSize, 1));
    }
  }

  /**
   * What a shutdown leaves behind: exactly the remainder, by the size limit, of the entries enqueued while
   * it was awaiting this job's handler and those of later jobs.  Without such late entries nothing stays.
   */
  lemma ShutdownLeavesLateEntries(maxSize: int, es: seq<Event>, name: nat, rounds: seq<seq<Elsewhere>>)
    requires name < |rounds| && OrdinaryRounds(rounds)
    ensures |AfterRounds(Run(Registered(maxSize), es).(ticking := false), name, 0, rounds).buffer| ==
            Late(name, name, rounds) % Max(maxSize, 1)
  {
    NothingIsLostOrReordered(maxSize, es);
    MaxSizeIsFixed(Registered(maxSize), es);
    RoundsBefore(Run(Registered(maxSize), es).(ticking := false), name, 0, rounds);
  }
}
