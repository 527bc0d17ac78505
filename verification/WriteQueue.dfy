/**
 * Micro-batching: payloads pile up in one buffer per job name and are handed to the batch handler
 * by size, by timer or at shutdown, while earlier batches are still being handled.  A step is one
 * stretch of code without an await: an enqueue (with the flush it may trigger), a timer tick, a
 * shutdown flush, or the completion of one handler call.
 */
module WriteQueue {
  import opened Prelude

  /** A buffered payload; `id` numbers enqueues, `awaited` says a queue consumer awaits its promise. */
  datatype Entry = Entry(id: nat, data: string, awaited: bool)

  datatype Outcome = Resolved | Rejected

  datatype Settlement = Settlement(id: nat, outcome: Outcome)

  datatype Flight = Running | Succeeded | Failed

  /** One handler call: the batch it received and how it stands. */
  datatype Flush = Flush(entries: seq<Entry>, flight: Flight)

  datatype State = State(
    maxSize: int,
    ticking: bool,                       // the periodic timer is set
    buffer: seq<Entry>,
    flushes: seq<Flush>,                 // handler calls in the order they were made
    settled: seq<Settlement>,            // promise settlements, in order
    enqueued: seq<Entry>)                // everything ever enqueued, in order

  datatype Event =
    | Enqueue(data: string, awaited: bool)
    | Tick
    | Shutdown                           // stop the timer, then flush
    | FlushNow
    | Complete(flush: nat, ok: bool)

  /** Hands the whole buffer to the handler; an empty buffer makes no call. */
  function FlushBuffer(s: State): State {
    if s.buffer == [] then s
    else s.(buffer := [], flushes := s.flushes + [Flush(s.buffer, Running)])
  }

  /** Settles the promise of every awaited entry of a batch, in order. */
  function Settlements(entries: seq<Entry>, outcome: Outcome): seq<Settlement> {
    if entries == [] then []
    else (if entries[0].awaited then [Settlement(entries[0].id, outcome)] else []) + Settlements(entries[1..], outcome)
  }

  function Step(s: State, e: Event): State {
    match e
    case Enqueue(data, awaited) =>
      var entry := Entry(|s.enqueued|, data, awaited);
      var s1 := s.(buffer := s.buffer + [entry], enqueued := s.enqueued + [entry]);
      if |s1.buffer| >= s.maxSize then FlushBuffer(s1) else s1
    case Tick => if s.ticking then FlushBuffer(s) else s
    case Shutdown => FlushBuffer(s.(ticking := false))
    case FlushNow => FlushBuffer(s)
    case Complete(f, ok) =>
      if f < |s.flushes| && s.flushes[f].flight.Running? then
        s.(flushes := s.flushes[f := s.flushes[f].(flight := if ok then Succeeded else Failed)],
           settled := s.settled + Settlements(s.flushes[f].entries, if ok then Resolved else Rejected))
      else s
  }

  function Run(s: State, es: seq<Event>): State
    decreases |es|
  {
    if es == [] then s else Run(Step(s, es[0]), es[1..])
  }

  function Registered(maxSize: int): State {
    State(maxSize, true, [], [], [], [])
  }

  function Batches(flushes: seq<Flush>): seq<seq<Entry>> {
    if flushes == [] then [] else Batches(flushes[..|flushes| - 1]) + [flushes[|flushes| - 1].entries]
  }

  lemma BatchesSnoc(flushes: seq<Flush>, f: Flush)
    ensures Batches(flushes + [f]) == Batches(flushes) + [f.entries]
  {
  }

  lemma {:induction false} BatchesUpdate(flushes: seq<Flush>, i: nat, f: Flush)
    requires i < |flushes| && f.entries == flushes[i].entries
    ensures Batches(flushes[i := f]) == Batches(flushes)
  {
    var n := |flushes| - 1;
    if i < n {
      assert flushes[i := f][..n] == flushes[..n][i := f];
      BatchesUpdate(flushes[..n], i, f);
    } else {
      assert flushes[i := f][..n] == flushes[..n];
    }
  }

  // ---------------------------------------------------------------------------------------------
  // Conservation and order.
  // ---------------------------------------------------------------------------------------------

  ghost predicate ConservationInv(s: State) {
    && Flatten(Batches(s.flushes)) + s.buffer == s.enqueued
    && (forall i :: 0 <= i < |s.enqueued| ==> s.enqueued[i].id == i)
    && |s.buffer| < Max(s.maxSize, 1)
    && (forall i :: 0 <= i < |s.flushes| ==> 1 <= |s.flushes[i].entries| <= Max(s.maxSize, 1))
  }

  lemma FlushKeepsConservation(s: State)
    requires Flatten(Batches(s.flushes)) + s.buffer == s.enqueued
    ensures Flatten(Batches(FlushBuffer(s).flushes)) + FlushBuffer(s).buffer == s.enqueued
  {
    if s.buffer != [] {
      BatchesSnoc(s.flushes, Flush(s.buffer, Running));
      FlattenSnoc(Batches(s.flushes), s.buffer);
    }
  }

  lemma FlushKeepsInv(s: State)
    requires ConservationInv(s)
    ensures ConservationInv(FlushBuffer(s)) && FlushBuffer(s).buffer == []
  {
    FlushKeepsConservation(s);
  }

  lemma EntryAppended(s: State, entry: Entry)
    requires ConservationInv(s) && entry.id == |s.enqueued|
    ensures Flatten(Batches(s.flushes)) + (s.buffer + [entry]) == s.enqueued + [entry]
    ensures forall i :: 0 <= i < |s.enqueued + [entry]| ==> (s.enqueued + [entry])[i].id == i
  {
  }

  /** A buffer that an entry has just been added to, flushed when it is full. */
  lemma FlushOfFullBuffer(s: State)
    requires Flatten(Batches(s.flushes)) + s.buffer == s.enqueued
    requires forall i :: 0 <= i < |s.enqueued| ==> s.enqueued[i].id == i
    requires 1 <= |s.buffer| <= Max(s.maxSize, 1)
    requires forall i :: 0 <= i < |s.flushes| ==> 1 <= |s.flushes[i].entries| <= Max(s.maxSize, 1)
    ensures ConservationInv(FlushBuffer(s))
  {
    FlushKeepsConservation(s);
  }

  lemma EnqueueKeepsInv(s: State, data: string, awaited: bool)
    requires ConservationInv(s)
    ensures ConservationInv(Step(s, Enqueue(data, awaited)))
  {
    var entry := Entry(|s.enqueued|, data, awaited);
    EntryAppended(s, entry);
    FlushOfFullBuffer(s.(buffer := s.buffer + [entry], enqueued := s.enqueued + [entry]));
  }

  lemma CompleteKeepsConservation(s: State, f: nat, ok: bool)
    requires ConservationInv(s)
    ensures ConservationInv(Step(s, Complete(f, ok)))
  {
    if f < |s.flushes| && s.flushes[f].flight.Running? {
      BatchesUpdate(s.flushes, f, Step(s, Complete(f, ok)).flushes[f]);
    }
  }

  lemma ConservationStep(s: State, e: Event)
    requires ConservationInv(s)
    ensures ConservationInv(Step(s, e))
  {
    match e
    case Enqueue(data, awaited) => EnqueueKeepsInv(s, data, awaited);
    case Complete(f, ok) => CompleteKeepsConservation(s, f, ok);
    case Tick => FlushKeepsInv(s);
    case Shutdown => FlushKeepsInv(s.(ticking := false));
    case FlushNow => FlushKeepsInv(s);
  }

  lemma {:induction false} ConservationRun(s: State, es: seq<Event>)
    requires ConservationInv(s)
    ensures ConservationInv(Run(s, es))
    decreases |es|
  {
    if es != [] {
      ConservationStep(s, es[0]);
      ConservationRun(Step(s, es[0]), es[1..]);
    }
  }

  /**
   * In every run the batches handed over, in hand-over order, followed by the buffer are exactly
   * the enqueued payloads in order: nothing is lost, doubled or reordered.  Batches are never empty
   * and never exceed the size limit, and the buffer always stays below it.
   */
  lemma NothingIsLostOrReordered(maxSize: int, es: seq<Event>)
    ensures
      var s := Run(Registered(maxSize), es);
      && Flatten(Batches(s.flushes)) + s.buffer == s.enqueued
      && |s.buffer| < Max(maxSize, 1)
      && forall i :: 0 <= i < |s.flushes| ==> 1 <= |s.flushes[i].entries| <= Max(maxSize, 1)
  {
    ConservationRun(Registered(maxSize), es);
    MaxSizeIsFixed(Registered(maxSize), es);
  }

  lemma {:induction false} MaxSizeIsFixed(s: State, es: seq<Event>)
    ensures Run(s, es).maxSize == s.maxSize
    decreases |es|
  {
    if es != [] {
      MaxSizeIsFixed(Step(s, es[0]), es[1..]);
    }
  }

  // ---------------------------------------------------------------------------------------------
  // Promises: each awaited entry settles at most once, exactly when its own batch completes.
  // ---------------------------------------------------------------------------------------------

  /** The entry with this id went out in a batch that has completed with this outcome. */
  ghost predicate CompletedWith(s: State, id: nat, outcome: Outcome) {
    exists f, k ::
      && 0 <= f < |s.flushes| && 0 <= k < |s.flushes[f].entries|
      && Settles(s.flushes[f], k, id, outcome)
  }

  predicate Settles(f: Flush, k: nat, id: nat, outcome: Outcome) {
    && k < |f.entries| && f.entries[k].id == id && f.entries[k].awaited
    && f.flight == if outcome.Resolved? then Succeeded else Failed
  }

  /** Ids grow along a batch and from one batch to the next, so each id is in one place. */
  ghost predicate IdsInOnePlace(s: State) {
    && (forall f, k, l :: 0 <= f < |s.flushes| && 0 <= k < l < |s.flushes[f].entries| ==>
          s.flushes[f].entries[k].id < s.flushes[f].entries[l].id)
    && (forall f, g, k, l ::
          0 <= f < g < |s.flushes| && 0 <= k < |s.flushes[f].entries| && 0 <= l < |s.flushes[g].entries| ==>
          s.flushes[f].entries[k].id < s.flushes[g].entries[l].id)
    && (forall f, k, l :: 0 <= f < |s.flushes| && 0 <= k < |s.flushes[f].entries| && 0 <= l < |s.buffer| ==>
          s.flushes[f].entries[k].id < s.buffer[l].id)
    && (forall k, l :: 0 <= k < l < |s.buffer| ==> s.buffer[k].id < s.buffer[l].id)
    && (forall f, k :: 0 <= f < |s.flushes| && 0 <= k < |s.flushes[f].entries| ==>
          s.flushes[f].entries[k].id < |s.enqueued|)
    && (forall k :: 0 <= k < |s.buffer| ==> s.buffer[k].id < |s.enqueued|)
  }

  lemma FlushKeepsPlaces(s: State)
    requires IdsInOnePlace(s)
    ensures IdsInOnePlace(FlushBuffer(s))
  {
  }

  lemma EnqueueKeepsPlaces(s: State, entry: Entry)
    requires IdsInOnePlace(s) && entry.id == |s.enqueued|
    ensures IdsInOnePlace(s.(buffer := s.buffer + [entry], enqueued := s.enqueued + [entry]))
  {
  }

  lemma CompleteKeepsPlaces(s: State, s': State)
    requires IdsInOnePlace(s) && s'.buffer == s.buffer && s'.enqueued == s.enqueued && |s'.flushes| == |s.flushes|
    requires forall f :: 0 <= f < |s.flushes| ==> s'.flushes[f].entries == s.flushes[f].entries
    ensures IdsInOnePlace(s')
  {
  }

  lemma PlacesStep(s: State, e: Event)
    requires IdsInOnePlace(s)
    ensures IdsInOnePlace(Step(s, e))
  {
    match e
    case Enqueue(data, awaited) =>
      var entry := Entry(|s.enqueued|, data, awaited);
      EnqueueKeepsPlaces(s, entry);
      FlushKeepsPlaces(s.(buffer := s.buffer + [entry], enqueued := s.enqueued + [entry]));
    case Complete(f, ok) => CompleteKeepsPlaces(s, Step(s, e));
    case Tick => FlushKeepsPlaces(s);
    case Shutdown => FlushKeepsPlaces(s.(ticking := false));
    case FlushNow => FlushKeepsPlaces(s);
  }

  ghost predicate SettledInv(s: State) {
    && (forall i, j :: 0 <= i < j < |s.settled| ==> s.settled[i].id != s.settled[j].id)
    && (forall p: Settlement :: p in s.settled <==> CompletedWith(s, p.id, p.outcome))
  }

  /** The entry awaits its promise and carries this id. */
  predicate Awaits(entries: seq<Entry>, k: nat, id: nat) {
    k < |entries| && entries[k].id == id && entries[k].awaited
  }

  lemma {:induction false} SettlementsAre(entries: seq<Entry>, outcome: Outcome)
    requires forall k, l :: 0 <= k < l < |entries| ==> entries[k].id < entries[l].id
    ensures forall p: Settlement :: p in Settlements(entries, outcome) <==>
              p.outcome == outcome && exists k: nat :: Awaits(entries, k, p.id)
    ensures forall i, j :: 0 <= i < j < |Settlements(entries, outcome)| ==>
              Settlements(entries, outcome)[i].id != Settlements(entries, outcome)[j].id
  {
    if entries != [] {
      var rest := entries[1..];
      SettlementsAre(rest, outcome);
      var ps, qs := Settlements(entries, outcome), Settlements(rest, outcome);
      forall p: Settlement
        ensures p in ps <==> p.outcome == outcome && exists k: nat :: Awaits(entries, k, p.id)
      {
        if p in qs {
          var k: nat :| Awaits(rest, k, p.id);
          assert Awaits(entries, k + 1, p.id);
        }
        if p in ps && p !in qs {
          assert Awaits(entries, 0, p.id);
        }
        if p.outcome == outcome && exists k: nat :: Awaits(entries, k, p.id) {
          var k: nat :| Awaits(entries, k, p.id);
          if k > 0 {
            assert Awaits(rest, k - 1, p.id);
          }
        }
      }
      forall j | 0 <= j < |qs|
        ensures qs[j].id != entries[0].id
      {
        assert qs[j] in qs;
        var k: nat :| Awaits(rest, k, qs[j].id);
        assert rest[k] == entries[k + 1];
      }
      assert ps == (if entries[0].awaited then [Settlement(entries[0].id, outcome)] else []) + qs;
    }
  }

  /** The new settlements are exactly what the completed batch adds. */
  lemma CompletedGrows(s: State, f: nat, ok: bool, p: Settlement)
    requires f < |s.flushes| && s.flushes[f].flight.Running?
    ensures
      CompletedWith(Step(s, Complete(f, ok)), p.id, p.outcome) <==>
      || CompletedWith(s, p.id, p.outcome)
      || (p.outcome == (if ok then Resolved else Rejected) && exists k: nat :: Awaits(s.flushes[f].entries, k, p.id))
  {
    var s' := Step(s, Complete(f, ok));
    if CompletedWith(s, p.id, p.outcome) {
      var g, k :| 0 <= g < |s.flushes| && 0 <= k < |s.flushes[g].entries| && Settles(s.flushes[g], k, p.id, p.outcome);
      assert Settles(s'.flushes[g], k, p.id, p.outcome);
    }
    if p.outcome == (if ok then Resolved else Rejected) && exists k: nat :: Awaits(s.flushes[f].entries, k, p.id) {
      var k: nat :| Awaits(s.flushes[f].entries, k, p.id);
      assert Settles(s'.flushes[f], k, p.id, p.outcome);
    }
    if CompletedWith(s', p.id, p.outcome) {
      var g, k :| 0 <= g < |s'.flushes| && 0 <= k < |s'.flushes[g].entries|
                  && Settles(s'.flushes[g], k, p.id, p.outcome);
      if g == f {
        assert Awaits(s.flushes[f].entries, k, p.id);
      } else {
        assert Settles(s.flushes[g], k, p.id, p.outcome);
      }
    }
  }

  /** An entry of a batch that is still running was not settled before. */
  lemma RunningIsUnsettled(s: State, f: nat, k: nat, p: Settlement)
    requires IdsInOnePlace(s) && SettledInv(s) && f < |s.flushes| && s.flushes[f].flight.Running?
    requires k < |s.flushes[f].entries| && p in s.settled
    ensures p.id != s.flushes[f].entries[k].id
  {
  }

  /** Completing one batch settles exactly its awaited entries, none of which was settled before. */
  lemma CompleteKeepsSettled(s: State, f: nat, ok: bool)
    requires IdsInOnePlace(s) && SettledInv(s) && f < |s.flushes| && s.flushes[f].flight.Running?
    ensures SettledInv(Step(s, Complete(f, ok)))
  {
    var s' := Step(s, Complete(f, ok));
    var entries := s.flushes[f].entries;
    var more := Settlements(entries, if ok then Resolved else Rejected);
    SettlementsAre(entries, if ok then Resolved else Rejected);
    assert s'.settled == s.settled + more;
    forall p: Settlement
      ensures p in s'.settled <==> CompletedWith(s', p.id, p.outcome)
    {
      CompletedGrows(s, f, ok, p);
    }
    forall i, j | 0 <= i < |s.settled| && 0 <= j < |more|
      ensures s.settled[i].id != more[j].id
    {
      assert more[j] in more;
      var k: nat :| Awaits(entries, k, more[j].id);
      RunningIsUnsettled(s, f, k, s.settled[i]);
    }
  }

  lemma SameFlightsKeepSettled(s: State, s': State)
    requires SettledInv(s) && s'.settled == s.settled && |s.flushes| <= |s'.flushes|
    requires forall f :: 0 <= f < |s.flushes| ==> s'.flushes[f] == s.flushes[f]
    requires forall f :: |s.flushes| <= f < |s'.flushes| ==> s'.flushes[f].flight.Running?
    ensures SettledInv(s')
  {
  }

  lemma {:induction false} SettledRun(s: State, es: seq<Event>)
    requires IdsInOnePlace(s) && SettledInv(s)
    ensures IdsInOnePlace(Run(s, es)) && SettledInv(Run(s, es))
    decreases |es|
  {
    if es != [] {
      var e := es[0];
      PlacesStep(s, e);
      if e.Complete? && e.flush < |s.flushes| && s.flushes[e.flush].flight.Running? {
        CompleteKeepsSettled(s, e.flush, e.ok);
      } else {
        SameFlightsKeepSettled(s, Step(s, e));
      }
      SettledRun(Step(s, e), es[1..]);
    }
  }

  /**
   * Whatever order handlers finish in, no promise settles twice, and a promise is resolved
   * (rejected) if and only if the one batch that carried its entry succeeded (failed).
   */
  lemma PromisesSettleOnce(maxSize: int, es: seq<Event>)
    ensures
      var s := Run(Registered(maxSize), es);
      && IdsInOnePlace(s)
      && (forall i, j :: 0 <= i < j < |s.settled| ==> s.settled[i].id != s.settled[j].id)
      && (forall p: Settlement :: p in s.settled <==> CompletedWith(s, p.id, p.outcome))
  {
    SettledRun(Registered(maxSize), es);
  }

  // ---------------------------------------------------------------------------------------------
  // The timer.
  // ---------------------------------------------------------------------------------------------

  lemma RunSnoc(s: State, es: seq<Event>, e: Event)
    ensures Run(s, es + [e]) == Step(Run(s, es), e)
  {
    RunAppend(s, es, [e]);
    var s' := Run(s, es);
    assert Run(s', [e]) == Run(Step(s', e), [e][1..]);
  }

  /** Only a shutdown stops the timer. */
  lemma {:induction false} TimerRunsOn(s: State, es: seq<Event>)
    ensures Run(s, es).ticking <==> s.ticking && Shutdown !in es
    decreases |es|
  {
    if es != [] {
      TimerRunsOn(Step(s, es[0]), es[1..]);
      assert es == [es[0]] + es[1..];
    }
  }

  function HandedOver(s: State): seq<Entry> {
    Flatten(Batches(s.flushes))
  }

  /** What was handed over stays so. */
  lemma HandedOverStep(s: State, e: Event)
    ensures HandedOver(s) <= HandedOver(Step(s, e))
  {
    match e
    case Complete(f, ok) =>
      if f < |s.flushes| && s.flushes[f].flight.Running? {
        BatchesUpdate(s.flushes, f, Step(s, e).flushes[f]);
      }
    case Enqueue(data, awaited) =>
      var entry := Entry(|s.enqueued|, data, awaited);
      FlushHandsOver(s.(buffer := s.buffer + [entry], enqueued := s.enqueued + [entry]));
    case _ => FlushHandsOver(s);
  }

  lemma FlushHandsOver(s: State)
    ensures HandedOver(FlushBuffer(s)) == HandedOver(s) + s.buffer
  {
    if s.buffer != [] {
      BatchesSnoc(s.flushes, Flush(s.buffer, Running));
      FlattenSnoc(Batches(s.flushes), s.buffer);
    }
  }

  lemma {:induction false} HandedOverGrows(s: State, es: seq<Event>)
    ensures HandedOver(s) <= HandedOver(Run(s, es))
    decreases |es|
  {
    if es != [] {
      HandedOverStep(s, es[0]);
      HandedOverGrows(Step(s, es[0]), es[1..]);
    }
  }

  /**
   * In every run, a flush, a shutdown, or a tick before any shutdown leaves the buffer empty and everything
   * enqueued before it in a batch, whatever comes after; a tick after a shutdown changes nothing.
   */
  lemma FlushesHandEverythingOver(maxSize: int, before: seq<Event>, e: Event, after: seq<Event>)
    requires e.Tick? || e.FlushNow? || e.Shutdown?
    ensures
      var s, flushed := Run(Registered(maxSize), before), Run(Registered(maxSize), before + [e]);
      && flushed.enqueued == s.enqueued
      && (e.Tick? && Shutdown in before ==> flushed == s)
      && ((e.Tick? ==> Shutdown !in before) ==>
            && flushed.buffer == []
            && HandedOver(flushed) == s.enqueued
            && s.enqueued <= HandedOver(Run(Registered(maxSize), before + [e] + after)))
  {
    var s0 := Registered(maxSize);
    var s := Run(s0, before);
    RunSnoc(s0, before, e);
    TimerRunsOn(s0, before);
    ConservationRun(s0, before);
    if e.Tick? ==> s.ticking {
      FlushHandsOver(if e.Shutdown? then s.(ticking := false) else s);
      RunAppend(s0, before + [e], after);
      HandedOverGrows(Run(s0, before + [e]), after);
    }
  }

  // ---------------------------------------------------------------------------------------------
  // Shutdown.
  // ---------------------------------------------------------------------------------------------

  lemma {:induction false} RunAppend(s: State, es: seq<Event>, fs: seq<Event>)
    ensures Run(s, es + fs) == Run(Run(s, es), fs)
    decreases |es|
  {
    if es == [] {
      assert es + fs == fs;
    } else {
      assert (es + fs)[1..] == es[1..] + fs;
      RunAppend(Step(s, es[0]), es[1..], fs);
    }
  }

  ghost predicate AllComplete(s: State) {
    forall f :: 0 <= f < |s.flushes| ==> !s.flushes[f].flight.Running?
  }

  /**
   * After shutdown everything enqueued so far has been handed to the handler, and once the handlers
   * are done (with nothing enqueued in between) every awaited entry has been settled.
   */
  lemma ShutdownDrains(maxSize: int, es: seq<Event>, completions: seq<Event>)
    requires forall i :: 0 <= i < |completions| ==> !completions[i].Enqueue?
    ensures
      var s := Run(Registered(maxSize), es + [Shutdown]);
      && s.buffer == [] && Flatten(Batches(s.flushes)) == s.enqueued && !s.ticking
    ensures
      var s := Run(Registered(maxSize), es + [Shutdown] + completions);
      AllComplete(s) ==>
        forall i :: 0 <= i < |s.enqueued| && s.enqueued[i].awaited ==> exists p :: p in s.settled && p.id == i
  {
    var s0 := Run(Registered(maxSize), es);
    RunAppend(Registered(maxSize), es, [Shutdown]);
    var s1 := Run(Registered(maxSize), es + [Shutdown]);
    assert s1 == Step(s0, Shutdown) by {
      assert Run(s0, [Shutdown]) == Run(Step(s0, Shutdown), [Shutdown][1..]);
    }
    ConservationRun(Registered(maxSize), es + [Shutdown]);
    assert Flatten(Batches(s1.flushes)) + [] == Flatten(Batches(s1.flushes));
    RunAppend(Registered(maxSize), es + [Shutdown], completions);
    var s := Run(s1, completions);
    QuietRun(s1, completions);
    ConservationRun(s1, completions);
    PromisesSettleOnce(maxSize, es + [Shutdown] + completions);
    assert Flatten(Batches(s.flushes)) + [] == Flatten(Batches(s.flushes));
    if AllComplete(s) {
      forall i | 0 <= i < |s.enqueued| && s.enqueued[i].awaited
        ensures exists p :: p in s.settled && p.id == i
      {
        var f, k := FindEntry(s.flushes, i);
        var outcome := if s.flushes[f].flight.Succeeded? then Resolved else Rejected;
        assert Settles(s.flushes[f], k, i, outcome);
        assert CompletedWith(s, i, outcome);
        assert Settlement(i, outcome) in s.settled;
      }
    }
  }

  /** With an empty buffer and no enqueue the buffer stays empty. */
  lemma {:induction false} QuietRun(s: State, es: seq<Event>)
    requires s.buffer == [] && forall i :: 0 <= i < |es| ==> !es[i].Enqueue?
    ensures Run(s, es).buffer == [] && Run(s, es).enqueued == s.enqueued
    decreases |es|
  {
    if es != [] {
      QuietRun(Step(s, es[0]), es[1..]);
    }
  }

  /** Every position of the flattened batches lies in some batch. */
  lemma {:induction false} FindEntry(flushes: seq<Flush>, i: nat) returns (f: nat, k: nat)
    requires i < |Flatten(Batches(flushes))|
    ensures f < |flushes| && k < |flushes[f].entries| && flushes[f].entries[k] == Flatten(Batches(flushes))[i]
    decreases |flushes|
  {
    var n := |flushes| - 1;
    FlattenSnoc(Batches(flushes[..n]), flushes[n].entries);
    var before := Flatten(Batches(flushes[..n]));
    assert Flatten(Batches(flushes)) == before + flushes[n].entries;
    if i < |before| {
      f, k := FindEntry(flushes[..n], i);
    } else {
      f, k := n, i - |before|;
    }
  }
}
