/**
 * A write-through cache in several processes: each serves reads from its own map, and deletions
 * travel to every process, the sender included, as text messages on one channel.  Expiry and LRU
 * eviction may drop any entry at any time.
 */
module CacheInvalidation {
  import opened Prelude

  datatype Invalidation = Key(key: string) | All | Prefix(prefix: string) | Suffix(suffix: string)

  predicate Kills(inv: Invalidation, k: string) {
    match inv
    case Key(key) => k == key
    case All => true
    case Prefix(prefix) => StartsWith(k, prefix)
    case Suffix(suffix) => EndsWith(k, suffix)
  }

  /** What each invalidation covers: one key, everything, or the keys with the given start or end. */
  lemma KillsExactly(k: string, text: string)
    ensures Kills(Key(text), k) <==> k == text
    ensures Kills(All, k)
    ensures Kills(Prefix(text), k) <==> exists rest :: k == text + rest
    ensures Kills(Suffix(text), k) <==> exists front :: k == front + text
  {
    if StartsWith(k, text) {
      assert k == text + k[|text|..];
    }
    if EndsWith(k, text) {
      assert k == k[..|k| - |text|] + text;
    }
  }

  /** A map without the entries an invalidation covers. */
  function Without<T>(m: map<string, T>, inv: Invalidation): map<string, T> {
    map k | k in m && !Kills(inv, k) :: m[k]
  }

  function Encode(inv: Invalidation): string {
    match inv
    case Key(key) => key
    case All => "*"
    case Prefix(prefix) => "__prefix:" + prefix
    case Suffix(suffix) => "__suffix:" + suffix
  }

  function Parse(text: string): Invalidation {
    if text == "*" then All
    else if StartsWith(text, "__prefix:") then Prefix(text[9..])
    else if StartsWith(text, "__suffix:") then Suffix(text[9..])
    else Key(text)
  }

  /** Keys that read as another kind of message. */
  predicate Reserved(key: string) {
    key == "*" || StartsWith(key, "__prefix:") || StartsWith(key, "__suffix:")
  }

  /** A message is understood as it was meant if and only if it is not the deletion of a reserved key. */
  lemma MessagesRoundTrip(inv: Invalidation)
    ensures Parse(Encode(inv)) == inv <==> !(inv.Key? && Reserved(inv.key))
  {
  }

  // ---------------------------------------------------------------------------------------------
  // The system.  The clock counts steps, so a stamp is a position in the run.
  // ---------------------------------------------------------------------------------------------

  datatype Entry = Entry(value: string, stamp: nat)

  datatype Message = Message(text: string, stamp: nat)

  /** What one process has gone through, for replaying it. */
  datatype Op = Wrote(key: string, value: string) | Dropped(inv: Invalidation)

  datatype Process = Process(local: map<string, Entry>, inbox: seq<Message>, history: seq<Op>)

  datatype State = State(clock: nat, processes: seq<Process>, published: seq<Message>)

  /** `sent` says whether the publish reached the channel; a failed publish is only logged. */
  datatype Event =
    | Put(p: nat, key: string, value: string)
    | Invalidate(p: nat, inv: Invalidation, sent: bool)
    | Deliver(p: nat)
    | Evict(p: nat, keys: set<string>)

  /** Prefix and suffix deletions are announced only when they deleted something here. */
  predicate Announces(local: map<string, Entry>, inv: Invalidation) {
    inv.Key? || inv.All? || exists k :: k in local && Kills(inv, k)
  }

  function Broadcast(processes: seq<Process>, m: Message): seq<Process> {
    seq(|processes|, i requires 0 <= i < |processes| => processes[i].(inbox := processes[i].inbox + [m]))
  }

  function Tick(s: State): State {
    s.(clock := s.clock + 1)
  }

  function Step(s: State, e: Event): State {
    if e.p >= |s.processes| then Tick(s) else
    var self := s.processes[e.p];
    match e
    case Put(p, key, value) =>
      Tick(s).(processes := s.processes[p := self.(
        local := self.local[key := Entry(value, s.clock)], history := self.history + [Wrote(key, value)])])
    case Invalidate(p, inv, sent) =>
      var s1 := Tick(s).(processes := s.processes[p := self.(
        local := Without(self.local, inv), history := self.history + [Dropped(inv)])]);
      if sent && Announces(self.local, inv) then
        var m := Message(Encode(inv), s.clock);
        s1.(processes := Broadcast(s1.processes, m), published := s.published + [m])
      else s1
    case Deliver(p) =>
      if self.inbox == [] then Tick(s) else
      var inv := Parse(self.inbox[0].text);
      Tick(s).(processes := s.processes[p := Process(
        Without(self.local, inv), self.inbox[1..], self.history + [Dropped(inv)])])
    case Evict(p, keys) =>
      Tick(s).(processes := s.processes[p := self.(local := self.local - keys)])
  }

  function Run(s: State, es: seq<Event>): State {
    if es == [] then s else Step(Run(s, es[..|es| - 1]), es[|es| - 1])
  }

  function Start(n: nat): State {
    State(0, seq(n, _ => Process(map[], [], [])), [])
  }

  lemma {:induction false} ClockIsPosition(n: nat, es: seq<Event>)
    ensures Run(Start(n), es).clock == |es| && |Run(Start(n), es).processes| == n
  {
    if es != [] {
      ClockIsPosition(n, es[..|es| - 1]);
    }
  }

  // ---------------------------------------------------------------------------------------------
  // No entry outlives a matching invalidation that reached its process.
  // ---------------------------------------------------------------------------------------------

  /** The message covers the key and was published after the entry was set. */
  predicate Overdue(entry: Entry, k: string, m: Message) {
    m.stamp > entry.stamp && Kills(Parse(m.text), k)
  }

  /** Every invalidation published after an entry was set, and matching it, is still on its way to it. */
  ghost predicate CoherentAt(s: State, process: Process) {
    && (forall k :: k in process.local ==> process.local[k].stamp < s.clock)
    && (forall k, m :: k in process.local && m in s.published && Overdue(process.local[k], k, m) ==> m in process.inbox)
  }

  ghost predicate Coherent(s: State) {
    && (forall m :: m in s.published ==> m.stamp < s.clock)
    && (forall p :: 0 <= p < |s.processes| ==> CoherentAt(s, s.processes[p]))
  }

  lemma SetKeepsCoherent(s: State, e: Event)
    requires Coherent(s) && e.Put?
    ensures Coherent(Step(s, e))
  {
  }

  lemma InvalidateKeepsCoherent(s: State, e: Event)
    requires Coherent(s) && e.Invalidate? && e.p < |s.processes|
    ensures Coherent(Step(s, e))
  {
  }

  lemma DeliverKeepsCoherent(s: State, e: Event)
    requires Coherent(s) && e.Deliver? && e.p < |s.processes|
    ensures Coherent(Step(s, e))
  {
  }

  lemma EvictKeepsCoherent(s: State, e: Event)
    requires Coherent(s) && e.Evict?
    ensures Coherent(Step(s, e))
  {
  }

  lemma {:induction false} CoherentRun(n: nat, es: seq<Event>)
    ensures Coherent(Run(Start(n), es))
    decreases |es|
  {
    if es != [] {
      var s, e := Run(Start(n), es[..|es| - 1]), es[|es| - 1];
      CoherentRun(n, es[..|es| - 1]);
      if e.p < |s.processes| {
        match e {
          case Put(_, _, _) => SetKeepsCoherent(s, e);
          case Invalidate(_, _, _) => InvalidateKeepsCoherent(s, e);
          case Deliver(_) => DeliverKeepsCoherent(s, e);
          case Evict(_, _) => EvictKeepsCoherent(s, e);
        }
      }
    }
  }

  /** A process's entries are values it set itself, at the stamped position of the run. */
  ghost predicate EntriesWereSet(s: State, es: seq<Event>) {
    forall p, k :: 0 <= p < |s.processes| && k in s.processes[p].local ==>
      var entry := s.processes[p].local[k];
      entry.stamp < |es| && es[entry.stamp] == Put(p, k, entry.value)
  }

  lemma {:induction false} EntriesWereSetRun(n: nat, es: seq<Event>)
    ensures EntriesWereSet(Run(Start(n), es), es)
    decreases |es|
  {
    if es != [] {
      var before := es[..|es| - 1];
      var s, s' := Run(Start(n), before), Run(Start(n), es);
      EntriesWereSetRun(n, before);
      ClockIsPosition(n, before);
      forall p, k | 0 <= p < |s'.processes| && k in s'.processes[p].local
        ensures
          var entry := s'.processes[p].local[k];
          entry.stamp < |es| && es[entry.stamp] == Put(p, k, entry.value)
      {
        var entry := s'.processes[p].local[k];
        if k in s.processes[p].local && entry == s.processes[p].local[k] {
          assert before[entry.stamp] == es[entry.stamp];
        }
      }
    }
  }

  function LocalOf(s: State, p: nat): map<string, Entry> {
    if p < |s.processes| then s.processes[p].local else map[]
  }

  /** The invalidation at position `d` of a run was sent, and its sender announced it. */
  predicate Sent(n: nat, es: seq<Event>, d: nat) {
    && d < |es| && es[d].Invalidate? && es[d].sent && es[d].p < n
    && Announces(LocalOf(Run(Start(n), es[..d]), es[d].p), es[d].inv)
  }

  /** A sent invalidation is published, stamped with its position, and stays published. */
  lemma {:induction false} SentIsPublished(n: nat, es: seq<Event>, d: nat)
    requires Sent(n, es, d)
    ensures Message(Encode(es[d].inv), d) in Run(Start(n), es).published
    decreases |es|
  {
    var before := es[..|es| - 1];
    ClockIsPosition(n, before);
    if d < |before| {
      assert before[..d] == es[..d];
      SentIsPublished(n, before, d);
    } else {
      assert before == es[..d];
    }
  }

  /** With nothing in the inbox, an entry was set after each published message that covers it. */
  lemma NothingOlder(s: State, es: seq<Event>, p: nat, k: string, m: Message)
    requires Coherent(s) && EntriesWereSet(s, es) && k in LocalOf(s, p) && s.processes[p].inbox == []
    requires m in s.published && Kills(Parse(m.text), k) && m.stamp < |es| && es[m.stamp].Invalidate?
    ensures
      var entry := LocalOf(s, p)[k];
      m.stamp < entry.stamp < |es| && es[entry.stamp] == Put(p, k, entry.value)
  {
    assert CoherentAt(s, s.processes[p]);
    assert !Overdue(s.processes[p].local[k], k, m);
  }

  /**
   * Main result.  Once a process has nothing left in its inbox, every entry it holds was set by it
   * after every invalidation any process has sent whose text, as it is read, covers the key: nothing
   * older survives.  By `MessagesRoundTrip` only the deletion of a reserved key reads as something else.
   */
  lemma NothingOldSurvives(n: nat, es: seq<Event>, d: nat, p: nat, k: string)
    requires Sent(n, es, d) && Kills(Parse(Encode(es[d].inv)), k)
    requires k in LocalOf(Run(Start(n), es), p) && Run(Start(n), es).processes[p].inbox == []
    ensures
      var entry := LocalOf(Run(Start(n), es), p)[k];
      d < entry.stamp < |es| && es[entry.stamp] == Put(p, k, entry.value)
  {
    CoherentRun(n, es);
    EntriesWereSetRun(n, es);
    SentIsPublished(n, es, d);
    NothingOlder(Run(Start(n), es), es, p, k, Message(Encode(es[d].inv), d));
  }

  /** The event neither sets `k` in process `p` nor drops it there, now or through a message. */
  predicate Spares(e: Event, p: nat, k: string) {
    match e
    case Put(r, key, _) => r != p || key != k
    case Invalidate(r, inv, _) => !Kills(Parse(Encode(inv)), k) && !Kills(inv, k)
    case Deliver(_) => true
    case Evict(r, keys) => r != p || k !in keys
  }

  /** Process `p` holds the entry, and no message that covers it is on its way. */
  ghost predicate Undisturbed(s: State, p: nat, k: string, entry: Entry) {
    && p < |s.processes| && k in s.processes[p].local && s.processes[p].local[k] == entry
    && forall i :: 0 <= i < |s.processes[p].inbox| ==> !Kills(Parse(s.processes[p].inbox[i].text), k)
  }

  /** Process `p` does not hold the key, or will drop it once its messages are delivered. */
  ghost predicate Leaving(s: State, p: nat, k: string) {
    && p < |s.processes|
    && (k in s.processes[p].local ==>
          exists i :: 0 <= i < |s.processes[p].inbox| && Kills(Parse(s.processes[p].inbox[i].text), k))
  }

  lemma UndisturbedStep(s: State, e: Event, p: nat, k: string, entry: Entry)
    requires Undisturbed(s, p, k, entry) && Spares(e, p, k)
    ensures Undisturbed(Step(s, e), p, k, entry)
  {
  }

  lemma LeavingStep(s: State, e: Event, p: nat, k: string)
    requires Leaving(s, p, k) && Spares(e, p, k)
    ensures Leaving(Step(s, e), p, k)
  {
    var s' := Step(s, e);
    if k in s'.processes[p].local {
      var inbox, inbox' := s.processes[p].inbox, s'.processes[p].inbox;
      var i :| 0 <= i < |inbox| && Kills(Parse(inbox[i].text), k);
      if e == Deliver(p) {
        assert inbox'[i - 1] == inbox[i];
      } else {
        assert inbox'[i] == inbox[i];
      }
    }
  }

  lemma {:induction false} SparedRun(s: State, es: seq<Event>, p: nat, k: string, entry: Entry)
    requires forall i :: 0 <= i < |es| ==> Spares(es[i], p, k)
    ensures Undisturbed(s, p, k, entry) ==> Undisturbed(Run(s, es), p, k, entry)
    ensures Leaving(s, p, k) ==> Leaving(Run(s, es), p, k)
  {
    if es != [] {
      var before := es[..|es| - 1];
      SparedRun(s, before, p, k, entry);
      if Undisturbed(s, p, k, entry) {
        UndisturbedStep(Run(s, before), es[|es| - 1], p, k, entry);
      }
      if Leaving(s, p, k) {
        LeavingStep(Run(s, before), es[|es| - 1], p, k);
      }
    }
  }

  /**
   * What a process has put it goes on serving: from a moment when no message on its way covers the key,
   * whatever happens that spares the key, its map holds the value, stamped with that moment.
   */
  lemma PutsAreServed(s: State, p: nat, k: string, value: string, es: seq<Event>)
    requires p < |s.processes|
    requires forall i :: 0 <= i < |s.processes[p].inbox| ==> !Kills(Parse(s.processes[p].inbox[i].text), k)
    requires forall i :: 0 <= i < |es| ==> Spares(es[i], p, k)
    ensures
      var s' := Run(Step(s, Put(p, k, value)), es);
      k in LocalOf(s', p) && LocalOf(s', p)[k] == Entry(value, s.clock)
  {
    var s1 := Step(s, Put(p, k, value));
    assert Undisturbed(s1, p, k, Entry(value, s.clock));
    SparedRun(s1, es, p, k, Entry(value, s.clock));
  }

  /**
   * After process `q` deleted, and whatever happens that spares the key, another process that has drained
   * its messages has lost its older entry exactly if `q` announced the deletion and its text, as it is
   * read, covers the key.  Deletions of one key and of everything are always announced, those by prefix
   * or suffix only if `q` held a match itself.
   */
  lemma DeletionsReachOthersExactly(s: State, q: nat, inv: Invalidation, p: nat, k: string, es: seq<Event>)
    requires q < |s.processes| && p < |s.processes| && p != q
    requires k in s.processes[p].local && s.processes[p].inbox == []
    requires forall i :: 0 <= i < |es| ==> Spares(es[i], p, k)
    ensures
      var s' := Run(Step(s, Invalidate(q, inv, true)), es);
      var announced := inv.Key? || inv.All? || exists k' :: k' in s.processes[q].local && Kills(inv, k');
      p < |s'.processes| && (s'.processes[p].inbox == [] ==>
        (k in s'.processes[p].local <==> !(announced && Kills(Parse(Encode(inv)), k))))
  {
    var s1, entry := Step(s, Invalidate(q, inv, true)), s.processes[p].local[k];
    SparedRun(s1, es, p, k, entry);
    if inv.Key? || inv.All? || exists k' :: k' in s.processes[q].local && Kills(inv, k') {
      assert s1.processes[p].inbox == [Message(Encode(inv), s.clock)];
      if Kills(Parse(Encode(inv)), k) {
        assert Kills(Parse(s1.processes[p].inbox[0].text), k);
        assert Leaving(s1, p, k);
      } else {
        assert Undisturbed(s1, p, k, entry);
      }
    } else {
      assert Undisturbed(s1, p, k, entry);
    }
  }

  /** A prefix or suffix deletion reaches the other processes only through a local match. */
  lemma BulkDeletionNeedsALocalMatch(s: State, q: nat, inv: Invalidation, p: nat, k: string, es: seq<Event>)
    requires q < |s.processes| && p < |s.processes| && p != q && (inv.Prefix? || inv.Suffix?)
    requires k in s.processes[p].local && Kills(inv, k) && s.processes[p].inbox == []
    requires forall i :: 0 <= i < |es| ==> Spares(es[i], p, k)
    ensures
      var s' := Run(Step(s, Invalidate(q, inv, true)), es);
      p < |s'.processes| && (s'.processes[p].inbox == [] ==>
        (k in s'.processes[p].local <==> !exists k' :: k' in s.processes[q].local && Kills(inv, k')))
  {
    MessagesRoundTrip(inv);
    DeletionsReachOthersExactly(s, q, inv, p, k, es);
  }

  // ---------------------------------------------------------------------------------------------
  // Replay.
  // ---------------------------------------------------------------------------------------------

  function Apply(m: map<string, string>, op: Op): map<string, string> {
    if op.Wrote? then m[op.key := op.value] else Without(m, op.inv)
  }

  function Replay(history: seq<Op>): map<string, string> {
    if history == [] then map[] else Apply(Replay(history[..|history| - 1]), history[|history| - 1])
  }

  ghost predicate Replayed(process: Process) {
    forall k :: k in process.local ==>
      k in Replay(process.history) && Replay(process.history)[k] == process.local[k].value
  }

  lemma ReplaySnoc(history: seq<Op>, op: Op)
    ensures Replay(history + [op]) == Apply(Replay(history), op)
  {
  }

  /**
   * Each process's map is, at any moment, part of what replaying its own writes and deletions and
   * the messages delivered to it, in order, would give.
   */
  lemma {:induction false} MapsAreReplays(n: nat, es: seq<Event>)
    ensures forall p :: 0 <= p < |Run(Start(n), es).processes| ==> Replayed(Run(Start(n), es).processes[p])
    decreases |es|
  {
    if es != [] {
      var s, e := Run(Start(n), es[..|es| - 1]), es[|es| - 1];
      MapsAreReplays(n, es[..|es| - 1]);
      if e.p < |s.processes| {
        var self := s.processes[e.p];
        assert Replayed(self);
        match e {
          case Put(_, key, value) => ReplaySnoc(self.history, Wrote(key, value));
          case Invalidate(_, inv, _) => ReplaySnoc(self.history, Dropped(inv));
          case Deliver(_) =>
            if self.inbox != [] {
              ReplaySnoc(self.history, Dropped(Parse(self.inbox[0].text)));
            }
          case Evict(_, _) =>
        }
      }
    }
  }
}
